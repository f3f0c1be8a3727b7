// Whole runs of handleClient, with the fallback from a failed reconnection to
// a fresh registration on a second connection.
module ClientRuns {
  import opened Bytes
  import opened Wire
  import opened Network
  import opened Session
  import opened Language
  import opened Retry
  import opened SessionTheorems
  import Payloads
  import FileHandler
  import Hex

  // Nothing was sent on this connection.
  lemma UnusedConnection(env: Env, start: Phase, disk: World)
    requires start == MayReconnect || start == MustRegister
    ensures var w := Opened(disk);
            && After(env, start, w.trace, 3) == start && IdsAgree(env, w.trace) && InStep(w)
            && Sends(w.trace) == 0 && Count(w.trace, SEND_FILE) == 0 && w.meInfo == disk.meInfo
  {
    AtOpened(env, Client([], []), start, disk, 3);
  }

  // What every run keeps on a connection.
  ghost predicate ConnectionSafe(env: Env, start: Phase, w: World) {
    && After(env, start, w.trace, 3) != Bad
    && IdsAgree(env, w.trace)
    && InStep(w)
  }

  // Both connections keep to the protocol; the file goes out on one of them
  // only, three times at most; twelve requests at most; a runtime error, on
  // whichever connection, came before any file; and the run returns true
  // exactly when one of the two servers confirmed the checksum.
  ghost predicate RunSafe(env1: Env, env2: Env, run: Run) {
    var t1, t2 := run.first.trace, run.second.trace;
    && ConnectionSafe(env1, MayReconnect, run.first)
    && ConnectionSafe(env2, MustRegister, run.second)
    && (Count(t1, SEND_FILE) == 0 || Count(t2, SEND_FILE) == 0)
    && Count(t1, SEND_FILE) + Count(t2, SEND_FILE) <= 3
    && Sends(t1) + Sends(t2) <= 12
    && (run.attempt == RuntimeError ==> Count(t1, SEND_FILE) == 0 && Sends(t1) <= 3)
    && (t2 != [] ==> run.attempt == RuntimeError)
    && (run.outcome == RuntimeError ==> Count(t1, SEND_FILE) == 0 && Count(t2, SEND_FILE) == 0)
    && !(Confirmed(env1, t1) && Confirmed(env2, t2))
    && (run.outcome == Returned(true) <==> Confirmed(env1, t1) || Confirmed(env2, t2))
  }

  lemma RunsAreSafe(env1: Env, env2: Env, disk: World, connected1: bool, connected2: bool,
                    transfer: FileHandler.TransferRead)
    ensures RunSafe(env1, env2, HandleClient(env1, env2, disk, connected1, connected2, transfer))
  {
    hide Reconnect; hide Register; hide After; hide IdsAgree; hide AllShaped; hide InStep; hide Count; hide Sends;
    hide SavedFor; hide KnownClient; hide Verdict; hide IdOf; hide RegisterId; hide ReconnectId;
    UnusedConnection(env1, MayReconnect, disk);
    UnusedConnection(env2, MustRegister, disk);
    if transfer.Good? {
      if disk.meInfo.Some? {
        var c1 := KnownClient(disk.meInfo.value, transfer.info);
        ReconnectIsSafe(env1, c1, disk);
        var attempt := Reconnect(env1, c1, Opened(disk));
        UnusedConnection(env2, MustRegister, attempt.1);
        RegisterIsSafe(env2, NewClient(transfer.info), attempt.1);
      }
      RegisterIsSafe(env2, NewClient(transfer.info), Opened(disk));
      UnusedConnection(env2, MustRegister, Opened(disk));
    }
  }

  // ---------------------------------------------------------------------
  // When the client registers on a second connection.

  // The files on which key exchange and upload depend: the two key files it
  // writes, and the file it sends, once the server's key answer is there.
  ghost predicate FileStops(env: Env, c: Client, w: World, id: Id) {
    var keys := env.keys(|w.trace|);
    var answer := Reply(env, w, PublicKeyRequest(env, c, |w.trace|, id, keys.0));
    || !env.writable(|w.trace|, PrivateKeyFile)
    || !env.writable(|w.trace|, MeInfoFile)
    || (&& answer.code == RECEIVED_PUBLIC_KEY_SEND_AES && |answer.payload| >= 16
        && env.rsaDecrypt(answer.payload[16..], keys.1).Some?
        && env.file(|w.trace| + 2).None?)
  }

  lemma SameReply(env: Env, w: World, w': World, r: Request)
    requires r.Valid() && w'.(meInfo := w.meInfo, privateKey := w.privateKey) == w
    ensures Reply(env, w', r) == Reply(env, w, r)
  {
    hide Frame; hide Request.Valid;
  }

  // The key answer is too short, or does not decrypt to an AES key.
  ghost predicate KeyStops(env: Env, c: Client, w: World, id: Id) {
    var keys := env.keys(|w.trace|);
    var answer := Reply(env, w, PublicKeyRequest(env, c, |w.trace|, id, keys.0));
    && answer.code == RECEIVED_PUBLIC_KEY_SEND_AES
    && (|answer.payload| < 16
        || var key := env.rsaDecrypt(answer.payload[16..], keys.1);
           key.None? || |key.value| != 16)
  }

  // From the keys on, a runtime error is exactly a file that cannot be opened
  // where the client gets to it, and any other error a key answer of no use.
  lemma FinishFails(env: Env, c: Client, w: World, id: Id)
    ensures Finish(env, c, w, id).0 == RuntimeError <==> FileStops(env, c, w, id)
    ensures Finish(env, c, w, id).0 == OtherError <==> !FileStops(env, c, w, id) && KeyStops(env, c, w, id)
  {
    hide Talk; hide Reply; hide PublicKeyRequest; hide FileHandler.MeInfoText; hide SendFile; hide FileRequest;
    hide Hex.HexOf;
    var keys := env.keys(|w.trace|);
    var w2 := w.(privateKey := Some(keys.1), meInfo := Some(FileHandler.MeInfoText(c.name, id, env.base64(keys.1))));
    var r := PublicKeyRequest(env, c, |w.trace|, id, keys.0);
    SameReply(env, w, w2, r);
    TalkTrace(env, w2, r);
  }

  ghost predicate RegisterStops(env: Env, c: Client, w: World) {
    var (answer, id, w1) := Connect(env, c, w, REGISTRATION);
    answer.code == REGISTRATION_SUCCESS && FileStops(env, c, w1, id)
  }

  ghost predicate ReconnectStops(env: Env, c: Client, w: World) {
    var (answer, id, w1) := Connect(env, c, w, RECONNECT);
    || (answer.code == APPROVE_RECONNECT_SEND_AES && FileStops(env, c, w1, id))
    || (answer.code == RECONNECT_REJECTED && RegisterStops(env, c, w1))
  }

  lemma RegisterFails(env: Env, c: Client, w: World)
    ensures Register(env, c, w).0 == RuntimeError <==> RegisterStops(env, c, w)
  {
    hide Connect; hide Finish; hide FileStops;
    var (answer, id, w1) := Connect(env, c, w, REGISTRATION);
    FinishFails(env, c, w1, id);
  }

  // A reconnection ends in a runtime error exactly when a file stops it, on
  // the approved path or on the one that registers.
  lemma ReconnectFails(env: Env, c: Client, w: World)
    ensures Reconnect(env, c, w).0 == RuntimeError <==> ReconnectStops(env, c, w)
  {
    hide Connect; hide Finish; hide FileStops; hide Register; hide RegisterStops;
    var (answer, id, w1) := Connect(env, c, w, RECONNECT);
    FinishFails(env, c, w1, id);
    RegisterFails(env, c, w1);
  }

  predicate SecondUsed(env1: Env, disk: World, connected1: bool, connected2: bool, transfer: FileHandler.TransferRead) {
    && transfer.Good? && connected2
    && (disk.meInfo.None?
        || (connected1
            && Reconnect(env1, KnownClient(disk.meInfo.value, transfer.info), Opened(disk)).0 == RuntimeError))
  }

  lemma SecondConnection(env1: Env, env2: Env, disk: World, connected1: bool, connected2: bool,
                         transfer: FileHandler.TransferRead)
    ensures HandleClient(env1, env2, disk, connected1, connected2, transfer).second.trace != []
       <==> SecondUsed(env1, disk, connected1, connected2, transfer)
  {
    hide Reconnect; hide Register; hide After; hide IdsAgree; hide AllShaped; hide InStep; hide Count; hide Sends;
    hide SavedFor; hide KnownClient; hide Confirmed; hide IdOf; hide RegisterId; hide ReconnectId;
    if transfer.Good? {
      if disk.meInfo.Some? {
        var c1 := KnownClient(disk.meInfo.value, transfer.info);
        RegisterIsSafe(env2, NewClient(transfer.info), Reconnect(env1, c1, Opened(disk)).1);
      } else {
        RegisterIsSafe(env2, NewClient(transfer.info), Opened(disk));
      }
    }
  }

  // The client registers on a second connection exactly when it got a good
  // transfer.info and that connection, and either there was no me.info or it
  // was connected and a file stopped the reconnection. With a me.info and no
  // first connection it does not register at all.
  lemma SecondConnectionExactly(env1: Env, env2: Env, disk: World, connected1: bool, connected2: bool,
                                transfer: FileHandler.TransferRead)
    ensures HandleClient(env1, env2, disk, connected1, connected2, transfer).second.trace != []
       <==> && transfer.Good? && connected2
            && (disk.meInfo.None?
                || (connected1 && ReconnectStops(env1, KnownClient(disk.meInfo.value, transfer.info), Opened(disk))))
  {
    hide Reconnect; hide ReconnectStops; hide HandleClient; hide KnownClient;
    SecondConnection(env1, env2, disk, connected1, connected2, transfer);
    if transfer.Good? && disk.meInfo.Some? {
      ReconnectFails(env1, KnownClient(disk.meInfo.value, transfer.info), Opened(disk));
    }
  }

  // Both key files can be written and the file can be read, whenever tried.
  ghost predicate FilesOpen(env: Env) {
    forall moment: nat ::
      env.writable(moment, PrivateKeyFile) && env.writable(moment, MeInfoFile) && env.file(moment).Some?
  }

  lemma OpenFilesNeverStop(env: Env, c: Client, w: World)
    requires FilesOpen(env)
    ensures !RegisterStops(env, c, w) && !ReconnectStops(env, c, w)
  {
    hide Connect; hide Reply; hide PublicKeyRequest;
  }

  // With the files in order the documented rule holds: the client registers on
  // a connection of its own exactly when there is no me.info.
  lemma RegistersWithoutMeInfo(env1: Env, env2: Env, disk: World, connected1: bool, connected2: bool,
                               transfer: FileHandler.TransferRead)
    requires FilesOpen(env1)
    ensures HandleClient(env1, env2, disk, connected1, connected2, transfer).second.trace != []
       <==> transfer.Good? && connected2 && disk.meInfo.None?
  {
    hide HandleClient; hide ReconnectStops; hide FilesOpen; hide KnownClient;
    SecondConnectionExactly(env1, env2, disk, connected1, connected2, transfer);
    if transfer.Good? && disk.meInfo.Some? {
      OpenFilesNeverStop(env1, KnownClient(disk.meInfo.value, transfer.info), Opened(disk));
    }
  }

  // ---------------------------------------------------------------------
  // me.info after a run.

  // What a session writes into me.info: nothing, or a text with the id that
  // the last connection answer left.

  function KeysText(env: Env, c: Client, w: World, id: Id): Option<bytes> {
    if env.writable(|w.trace|, PrivateKeyFile) && env.writable(|w.trace|, MeInfoFile)
    then Some(FileHandler.MeInfoText(c.name, id, env.base64(env.keys(|w.trace|).1)))
    else None
  }

  function RegisterText(env: Env, c: Client, w: World): Option<bytes> {
    var (answer, id, w1) := Connect(env, c, w, REGISTRATION);
    if answer.code == REGISTRATION_SUCCESS then KeysText(env, c, w1, id) else None
  }

  function ReconnectText(env: Env, c: Client, w: World): Option<bytes> {
    var (answer, id, w1) := Connect(env, c, w, RECONNECT);
    if answer.code == RECONNECT_REJECTED then RegisterText(env, c, w1)
    else if answer.code == APPROVE_RECONNECT_SEND_AES then KeysText(env, c, w1, id)
    else None
  }

  function Over(text: Option<bytes>, before: Option<bytes>): Option<bytes> {
    if text.Some? then text else before
  }

  lemma FinishSaves(env: Env, c: Client, w: World, id: Id)
    ensures Finish(env, c, w, id).1.meInfo == Over(KeysText(env, c, w, id), w.meInfo)
  {
    hide Talk; hide Reply; hide PublicKeyRequest; hide FileHandler.MeInfoText; hide SendFile; hide FileRequest;
    hide Hex.HexOf;
    hide Request.Valid;
    var keys := env.keys(|w.trace|);
    var step := ExchangeKeys(env, c, w, id);
    var w2 := w.(privateKey := Some(keys.1), meInfo := Some(FileHandler.MeInfoText(c.name, id, env.base64(keys.1))));
    TalkTrace(env, w2, PublicKeyRequest(env, c, |w.trace|, id, keys.0));
    if step.outcome.Some? && step.outcome.value.code == RECEIVED_PUBLIC_KEY_SEND_AES
        && |step.outcome.value.payload| >= 16 {
      UploadKeepsFiles(env, c, step.world, step.outcome.value.payload[16..], step.privateKey, id);
    }
  }

  lemma UploadKeepsFiles(env: Env, c: Client, w: World, encryptedKey: bytes, privateKey: bytes, id: Id)
    ensures EncryptAndSend(env, c, w, encryptedKey, privateKey, id).1.meInfo == w.meInfo
  {
    hide SendFile; hide FileRequest; hide Hex.HexOf; hide Request.Valid;
    var aesKey := env.rsaDecrypt(encryptedKey, privateKey);
    if aesKey.Some? && env.file(|w.trace|).Some? {
      var content := Hex.HexOf(env.aesEncrypt(env.file(|w.trace|).value, aesKey.value, |w.trace|));
      SendFileKeepsFiles(env, c, w, FileRequest(env, c, |w.trace|, id, content), id, 3);
    }
  }

  lemma RegisterSaves(env: Env, c: Client, w: World)
    ensures Register(env, c, w).1.meInfo == Over(RegisterText(env, c, w), w.meInfo)
  {
    hide Connect; hide Finish; hide KeysText;
    var (answer, id, w1) := Connect(env, c, w, REGISTRATION);
    ConnectKeepsFiles(env, c, w, REGISTRATION);
    FinishSaves(env, c, w1, id);
  }

  lemma ReconnectSaves(env: Env, c: Client, w: World)
    ensures Reconnect(env, c, w).1.meInfo == Over(ReconnectText(env, c, w), w.meInfo)
  {
    hide Connect; hide Finish; hide KeysText; hide Register; hide RegisterText;
    var (answer, id, w1) := Connect(env, c, w, RECONNECT);
    ConnectKeepsFiles(env, c, w, RECONNECT);
    FinishSaves(env, c, w1, id);
    RegisterSaves(env, c, w1);
  }

  // Reading this file gives this client's name and the id a connection's
  // requests carried.
  ghost predicate HoldsIdOf(env: Env, c: Client, w: World, text: bytes) {
    var info := FileHandler.ParseMeInfo(text);
    && info.name == c.name
    && IdOf(env, w.trace).Some? && Hex.Unhex(info.uuid) == Some(IdOf(env, w.trace).value) && |info.uuid| == 32
  }

  lemma SavedTextIsRead(env: Env, c: Client, w: World, id: Id)
    requires Hex.NEWLINE !in c.name && KeysText(env, c, w, id).Some?
    ensures var info := FileHandler.ParseMeInfo(KeysText(env, c, w, id).value);
            info.name == c.name && Hex.Unhex(info.uuid) == Some(id) && |info.uuid| == 32
  {
    hide Hex.Unhex; hide FileHandler.ParseMeInfo; hide FileHandler.MeInfoText;
    FileHandler.MeInfoRoundTrip(c.name, id, env.base64(env.keys(|w.trace|).1));
  }

  lemma RegisterTextIsRead(env: Env, c: Client, disk: World)
    requires Hex.NEWLINE !in c.name && RegisterText(env, c, Opened(disk)).Some?
    ensures HoldsIdOf(env, c, Register(env, c, Opened(disk)).1, RegisterText(env, c, Opened(disk)).value)
  {
    hide Connect; hide Register; hide KeysText; hide IdOf; hide SessionSafe; hide Hex.Unhex;
    hide FileHandler.ParseMeInfo;
    RegisterIsSafe(env, c, disk);
    var (answer, id, w1) := Connect(env, c, Opened(disk), REGISTRATION);
    SavedTextIsRead(env, c, w1, id);
  }

  lemma ReconnectTextIsRead(env: Env, c: Client, disk: World)
    requires Hex.NEWLINE !in c.name && ReconnectText(env, c, Opened(disk)).Some?
    ensures HoldsIdOf(env, c, Reconnect(env, c, Opened(disk)).1, ReconnectText(env, c, Opened(disk)).value)
  {
    hide Connect; hide Reconnect; hide KeysText; hide IdOf; hide SessionSafe; hide Hex.Unhex;
    hide FileHandler.ParseMeInfo;
    ReconnectIsSafe(env, c, disk);
    var (answer, id, w1) := Connect(env, c, Opened(disk), RECONNECT);
    if answer.code == RECONNECT_REJECTED {
      var (answer', id', w2) := Connect(env, c, w1, REGISTRATION);
      SavedTextIsRead(env, c, w2, id');
    } else {
      SavedTextIsRead(env, c, w1, id);
    }
  }

  // What the two connections of a run write into me.info.

  function FirstText(env1: Env, disk: World, connected1: bool, transfer: FileHandler.TransferRead): Option<bytes> {
    if transfer.Good? && disk.meInfo.Some? && connected1
    then ReconnectText(env1, KnownClient(disk.meInfo.value, transfer.info), Opened(disk))
    else None
  }

  function SecondText(env2: Env, run: Run, transfer: FileHandler.TransferRead): Option<bytes> {
    if transfer.Good? && run.second.trace != []
    then RegisterText(env2, NewClient(transfer.info), Opened(run.first))
    else None
  }

  // me.info after a run is what the second connection wrote if it wrote, else
  // what the first one wrote, else what it was. What a connection wrote reads
  // back as its client's name and the id its requests carried.
  lemma MeInfoAfterRun(env1: Env, env2: Env, disk: World, connected1: bool, connected2: bool,
                       file: Option<bytes>, stoi: bytes -> Option<int>)
    ensures var transfer := FileHandler.TransferInfoOf(file, stoi);
            var run := HandleClient(env1, env2, disk, connected1, connected2, transfer);
            var text1, text2 := FirstText(env1, disk, connected1, transfer), SecondText(env2, run, transfer);
            && run.second.meInfo == Over(text2, Over(text1, disk.meInfo))
            && (text1.Some? ==> HoldsIdOf(env1, KnownClient(disk.meInfo.value, transfer.info), run.first, text1.value))
            && (text2.Some? ==> HoldsIdOf(env2, NewClient(transfer.info), run.second, text2.value))
  {
    var transfer := FileHandler.TransferInfoOf(file, stoi);
    hide FileHandler.TransferInfoOf; hide Reconnect; hide Register; hide After; hide IdsAgree; hide AllShaped;
    hide InStep;
    hide Count; hide Sends; hide SavedFor; hide HoldsIdOf; hide IdOf; hide FileHandler.GetLine; hide Confirmed;
    hide RegisterText; hide ReconnectText;
    if transfer.Good? {
      var c2 := NewClient(transfer.info);
      if disk.meInfo.Some? && connected1 {
        var c1 := KnownClient(disk.meInfo.value, transfer.info);
        var attempt := Reconnect(env1, c1, Opened(disk));
        ReconnectSaves(env1, c1, Opened(disk));
        if ReconnectText(env1, c1, Opened(disk)).Some? {
          ReconnectTextIsRead(env1, c1, disk);
        }
        SecondSaves(env2, c2, attempt.1);
      }
      SecondSaves(env2, c2, Opened(disk));
    }
  }

  lemma SecondSaves(env: Env, c: Client, disk: World)
    requires Hex.NEWLINE !in c.name
    ensures var text, w := RegisterText(env, c, Opened(disk)), Register(env, c, Opened(disk)).1;
            && w.trace != []
            && w.meInfo == Over(text, disk.meInfo)
            && (text.Some? ==> HoldsIdOf(env, c, w, text.value))
  {
    hide Register; hide After; hide IdsAgree; hide AllShaped; hide InStep; hide Count; hide Sends; hide SavedFor;
    hide HoldsIdOf; hide IdOf; hide Confirmed; hide RegisterText;
    RegisterIsSafe(env, c, disk);
    RegisterSaves(env, c, Opened(disk));
    if RegisterText(env, c, Opened(disk)).Some? {
      RegisterTextIsRead(env, c, disk);
    }
  }

  // The name checked by readTransferInfo reaches the server whole unless it
  // has a NUL in it.
  lemma CheckedNameArrives(file: Option<bytes>, stoi: bytes -> Option<int>)
    ensures var transfer := FileHandler.TransferInfoOf(file, stoi);
            transfer.Good? ==>
              (CStr(Payloads.NamePayload(transfer.info.name)) == transfer.info.name <==> 0 !in transfer.info.name)
  {
    hide FileHandler.GetLine; hide CStr; hide Payloads.NamePayload;
    var transfer := FileHandler.TransferInfoOf(file, stoi);
    if transfer.Good? {
      Payloads.NamePayloadExact(transfer.info.name);
    }
  }
}
