// Sessions and runs in terms of the files they start from, the files they leave
// and the bytes they exchange.
module RunFiles {
  import opened Bytes
  import opened Wire
  import opened Network
  import opened Session
  import opened Language
  import opened Retry
  import opened SessionTheorems
  import opened ClientRuns
  import FileHandler
  import Hex
  import Payloads

  // ---------------------------------------------------------------------
  // Codes, in numbers and on the wire.

  lemma MaySendCodes(p: Phase, code: nat, max: nat)
    requires MaySend(p, code, max)
    ensures 1025 <= code <= 1031
  {}

  // What a request with one of the seven codes looks like: version '3', the code
  // with its low byte first, the id, and the payload that belongs to the code.
  ghost predicate LooksRight(env: Env, c: Client, f: bytes) {
    && |f| >= 24
    && f[16] == 51 && f[19] == 4 && 1 <= f[18] <= 7
    && (f[18] == 1 || f[18] == 3 ==> f[..16] == Fill(16, 0) && f[24..] == Payloads.NamePayload(c.name) && |f| == 279)
    && (f[18] == 2 ==> exists moment :: IsKeyPayload(env, c, f[24..], moment))
    && (f[18] == 4 ==> exists cipher :: IsFilePayload(c, f[24..], cipher))
    && (f[18] > 4 ==> exists moment :: IsPathPayload(env, c, f[24..], moment))
  }

  predicate IsKeyPayload(env: Env, c: Client, p: bytes, moment: nat) {
    var whole := Payloads.PublicKeyPayload(c.name, env.keys(moment).0);
    p == whole[..|whole| % 0x1_0000_0000]
  }

  predicate IsFilePayload(c: Client, p: bytes, cipher: bytes) {
    p == Payloads.SentFilePayload(c.filePath, Hex.HexOf(cipher))
  }

  predicate IsPathPayload(env: Env, c: Client, p: bytes, moment: nat) {
    p == PathPayload(env, moment, c.filePath)
  }

  lemma ShapedOnTheWire(env: Env, c: Client, t: seq<Event>, r: Request)
    requires Shaped(env, c, r) && CarriesId(env, t, r) && 1025 <= r.code <= 1031
    ensures LooksRight(env, c, Frame(r))
  {
    hide Payloads.NamePayload; hide Payloads.PublicKeyPayload; hide Payloads.SentFilePayload; hide PathPayload;
    hide Hex.HexOf; hide Frame;
    FrameBytes(r);
    Payloads.NamePayloadCut(c.name);
    if r.code == 1026 {
      var moment :| HoldsKey(env, c, r, moment);
      assert IsKeyPayload(env, c, Frame(r)[24..], moment);
    } else if r.code == 1028 {
      var cipher :| HoldsFile(c, r, cipher);
      assert IsFilePayload(c, Frame(r)[24..], cipher);
    } else if r.code > 1028 {
      var moment :| HoldsPath(env, c, r, moment);
      assert IsPathPayload(env, c, Frame(r)[24..], moment);
    }
  }

  lemma SentOnTheWire(env: Env, c: Client, start: Phase, before: Option<bytes>, w: World, outcome: Outcome, i: nat)
    requires start == MayReconnect || start == MustRegister
    requires SessionSafe(env, c, start, before, w, outcome)
    requires i < |w.trace| && w.trace[i].Sent?
    ensures w.trace[i].request.Valid() && LooksRight(env, c, Frame(w.trace[i].request))
  {
    var t, r := w.trace, w.trace[i].request;
    assert Shaped(env, c, r) && CarriesId(env, t[..i], r) && After(env, start, t, 3) != Bad;
    assert r.Valid();
    hide SessionSafe; hide Shaped; hide CarriesId; hide LooksRight; hide After; hide MaySend; hide Frame;
    AcceptedStep(env, start, t, i, 3);
    NextSent(env, After(env, start, t[..i], 3), t[i], i + 1, 3);
    MaySendCodes(After(env, start, t[..i], 3), r.code, 3);
    ShapedOnTheWire(env, c, t[..i], r);
  }

  // Every frame of a registration looks right,
  lemma RegistrationFrames(env: Env, c: Client, disk: World, i: nat)
    requires var t := Register(env, c, Opened(disk)).1.trace; i < |t| && t[i].Sent?
    ensures var r := Register(env, c, Opened(disk)).1.trace[i].request; r.Valid() && LooksRight(env, c, Frame(r))
  {
    hide Register; hide SessionSafe; hide LooksRight; hide Frame; hide RegisterId;
    RegisterIsSafe(env, c, disk);
    var (outcome, w) := Register(env, c, Opened(disk));
    SentOnTheWire(env, c, MustRegister, disk.meInfo, w, outcome, i);
  }

  // and of a reconnection.
  lemma ReconnectionFrames(env: Env, c: Client, disk: World, i: nat)
    requires var t := Reconnect(env, c, Opened(disk)).1.trace; i < |t| && t[i].Sent?
    ensures var r := Reconnect(env, c, Opened(disk)).1.trace[i].request; r.Valid() && LooksRight(env, c, Frame(r))
  {
    hide Reconnect; hide SessionSafe; hide LooksRight; hide Frame; hide ReconnectId;
    ReconnectIsSafe(env, c, disk);
    var (outcome, w) := Reconnect(env, c, Opened(disk));
    SentOnTheWire(env, c, MayReconnect, disk.meInfo, w, outcome, i);
  }

  // What the client takes each answer for, by the two code bytes of its header.
  lemma AnswerCodes(env: Env, w: World, v: byte, hi: byte, lo: byte, size: bytes, rest: bytes)
    requires |size| == 4 && w.incoming == [v, hi, lo] + size + rest && env.chunk(w.recvs) >= 7
    ensures var code := Answer(env, w).code;
            && (code == REGISTRATION_SUCCESS <==> hi == 8 && lo == 52)
            && (code == RECEIVED_PUBLIC_KEY_SEND_AES <==> hi == 8 && lo == 54)
            && (code == FILE_RECEIVED_CRC_OK <==> hi == 8 && lo == 55)
            && (code == CONFIRM_MSG <==> hi == 8 && lo == 56)
            && (code == APPROVE_RECONNECT_SEND_AES <==> hi == 8 && lo == 57)
            && (code == RECONNECT_REJECTED <==> hi == 8 && lo == 58)
  {
    hide Answer;
    assert [v, hi, lo] + size == [v, hi, lo, size[0], size[1], size[2], size[3]];
    AnswerOfBytes(env, w, v, hi, lo, size[0], size[1], size[2], size[3], rest);
  }

  // A report counts as confirmed when its answer's header says so, even if the
  // payload announced there is cut short.
  lemma ConfirmedByHeader(env: Env, c: Client, w: World, id: Id, code: nat, v: byte, hi: byte, lo: byte,
                          size: bytes, rest: bytes)
    requires code < 0x1_0000 && |size| == 4
    requires var w1 := Send(env, w, CrcStatusRequest(env, c, |w.trace|, id, code));
             w1.incoming == [v, hi, lo] + size + rest && env.chunk(w1.recvs) >= 7
    ensures ReportConfirmed(env, c, w, id, code) <==> hi == 8 && lo == 56
  {
    hide Answer; hide Send; hide CrcStatusRequest;
    AnswerCodes(env, Send(env, w, CrcStatusRequest(env, c, |w.trace|, id, code)), v, hi, lo, size, rest);
  }

  // ---------------------------------------------------------------------
  // Who the client is, from the texts of the two files.

  // Every file request of the trace names this path.
  ghost predicate FilesNamed(t: seq<Event>, path: bytes) {
    forall i | 0 <= i < |t| && Asked(t[i], 1028) :: exists cipher: bytes :: IsFilePayload(Client([], path),
                                                                                          t[i].request.payload, cipher)
  }

  lemma ShapedNames(env: Env, c: Client, t: seq<Event>)
    requires AllShaped(env, c, t)
    ensures FilesNamed(t, c.filePath)
  {
    hide Payloads.SentFilePayload; hide Hex.HexOf;
    forall i | 0 <= i < |t| && Asked(t[i], 1028)
      ensures exists cipher: bytes :: IsFilePayload(Client([], c.filePath), t[i].request.payload, cipher)
    {
      assert Shaped(env, c, t[i].request);
      var cipher :| HoldsFile(c, t[i].request, cipher);
      assert IsFilePayload(Client([], c.filePath), t[i].request.payload, cipher);
    }
  }

  lemma FirstRequest(env: Env, c: Client, start: Phase, before: Option<bytes>, w: World, outcome: Outcome)
    requires start == MayReconnect || start == MustRegister
    requires SessionSafe(env, c, start, before, w, outcome)
    ensures w.trace != [] && FilesNamed(w.trace, c.filePath)
    ensures Asked(w.trace[0], if start == MayReconnect then 1027 else 1025)
    ensures w.trace[0].request.payload == Payloads.NamePayload(c.name)
  {
    var t := w.trace;
    ShapedNames(env, c, t);
    hide After; hide Payloads.NamePayload; hide FilesNamed; hide InStep; hide IdsAgree; hide SavedFor; hide Confirmed;
    Alternates(env, start, t, 3);
    CodesFollow(env, start, t, 0, 3);
    assert Shaped(env, c, t[0].request);
  }

  // The client reconnects under the name on the first line of me.info, and
  // registers on a second connection under the one on the second line of
  // transfer.info. Every file request names the third line of transfer.info.
  lemma ClientsFromFiles(env1: Env, env2: Env, disk: World, connected1: bool, connected2: bool,
                         stoi: bytes -> Option<int>,
                         meInfo: bytes, known: bytes, afterKnown: bytes,
                         text: bytes, ip: bytes, port: bytes, afterAddress: bytes, name: bytes, afterName: bytes,
                         path: bytes, afterPath: bytes)
    requires FileHandler.IsLine(meInfo, known, afterKnown)
    requires disk.meInfo == Some(meInfo) || disk.meInfo == None
    requires FileHandler.IsLine(text, ip + [FileHandler.COLON] + port, afterAddress)
    requires FileHandler.IsLine(afterAddress, name, afterName)
    requires FileHandler.IsLine(afterName, path, afterPath)
    requires FileHandler.COLON !in ip && |name| <= 254 && stoi(port).Some?
    ensures var run := HandleClient(env1, env2, disk, connected1, connected2, FileHandler.TransferInfoOf(Some(text),
                                                                                                         stoi));
            var t1, t2 := run.first.trace, run.second.trace;
            && (disk.meInfo.Some? && connected1 ==> t1 != [])
            && (t1 != [] ==> Asked(t1[0], 1027) && t1[0].request.payload == Payloads.NamePayload(known))
            && (t2 != [] ==> Asked(t2[0], 1025) && t2[0].request.payload == Payloads.NamePayload(name))
            && FilesNamed(t1, path) && FilesNamed(t2, path)
  {
    hide FileHandler.TransferInfoOf; hide FileHandler.GetLine; hide Reconnect; hide Register; hide SessionSafe;
    hide FileHandler.IsLine; hide Payloads.NamePayload; hide RegisterId; hide ReconnectId; hide IsFilePayload;
    hide IdOf;
    var address := ip + [FileHandler.COLON] + port;
    FileHandler.TransferInfoParts(text, stoi, address, afterAddress, name, afterName, path, afterPath);
    FileHandler.LineFound(meInfo, known, afterKnown);
    var c1, c2 := Client(known, path), Client(name, path);
    ReconnectIsSafe(env1, c1, disk);
    var attempt := Reconnect(env1, c1, Opened(disk));
    FirstRequest(env1, c1, MayReconnect, disk.meInfo, attempt.1, attempt.0);
    Second(env2, c2, attempt.1);
    Second(env2, c2, Opened(disk));
  }

  lemma Second(env: Env, c: Client, disk: World)
    ensures var w := Register(env, c, Opened(disk)).1;
            && w.trace != [] && FilesNamed(w.trace, c.filePath)
            && Asked(w.trace[0], 1025) && w.trace[0].request.payload == Payloads.NamePayload(c.name)
  {
    hide Register; hide SessionSafe; hide Payloads.NamePayload; hide RegisterId; hide FilesNamed;
    RegisterIsSafe(env, c, disk);
    var fallback := Register(env, c, Opened(disk));
    FirstRequest(env, c, MustRegister, disk.meInfo, fallback.1, fallback.0);
  }

  // ---------------------------------------------------------------------
  // How a run ends when it does not end with a session.

  lemma RunEnds(env1: Env, env2: Env, disk: World, connected1: bool, connected2: bool,
                transfer: FileHandler.TransferRead)
    ensures var run := HandleClient(env1, env2, disk, connected1, connected2, transfer);
            var c1 := if transfer.Good? && disk.meInfo.Some? then KnownClient(disk.meInfo.value,
                                                                              transfer.info) else Client([], []);
            var stopped := disk.meInfo.None? || (connected1 && ReconnectStops(env1, c1, Opened(disk)));
            // a bad transfer.info is thrown before anything is sent
            && (transfer.BadFile? ==> run.outcome == RuntimeError)
            && (transfer.BadPort? ==> run.outcome == OtherError)
            && (!transfer.Good? ==> run.first.trace == [] && run.second.trace == [])
            // without a connection the run returns false
            && (transfer.Good? && disk.meInfo.Some? && !connected1 ==> run.outcome == Returned(false))
            && (transfer.Good? && stopped && !connected2 ==> run.outcome == Returned(false) && run.second.trace == [])
            // else it ends as the last session does
            && (transfer.Good? && disk.meInfo.Some? && connected1 && !stopped ==>
                  run.outcome == Reconnect(env1, c1, Opened(disk)).0)
            && (transfer.Good? && stopped && connected2 ==>
                  run.outcome == Register(env2, NewClient(transfer.info), Opened(run.first)).0)
  {
    hide Reconnect; hide Register; hide KnownClient; hide ReconnectStops;
    if transfer.Good? && disk.meInfo.Some? {
      ReconnectFails(env1, KnownClient(disk.meInfo.value, transfer.info), Opened(disk));
    }
  }

  // ---------------------------------------------------------------------
  // priv.key after a run.

  lemma {:induction false} LoopExtends(env: Env, c: Client, w: World, file: Request, id: Id, retries: int, max: int)
    requires file.Valid()
    ensures w.trace <= RetryLoop(env, c, w, file, id, retries, max).world.trace
    decreases max - retries
  {
    hide Talk; hide Reply; hide Matches; hide Request.Valid;
    if retries >= max {
    } else {
      var w1 := Talk(env, w, file);
      TalkTrace(env, w, file);
      TalkTrace(env, w1, CrcStatusRequest(env, c, |w1.trace|, id, CRC_CORRECT));
      TalkTrace(env, w1, CrcStatusRequest(env, c, |w1.trace|, id, CRC_INCORRECT_RESEND));
      LoopExtends(env, c, w1, file, id, retries + 1, max);
      LoopExtends(env, c, ReportCrc(env, c, w1, id, CRC_INCORRECT_RESEND), file, id, retries + 1, max);
    }
  }

  lemma UploadExtends(env: Env, c: Client, w: World, encryptedKey: bytes, privateKey: bytes, id: Id)
    ensures var w' := EncryptAndSend(env, c, w, encryptedKey, privateKey, id).1;
            w.trace <= w'.trace && w'.privateKey == w.privateKey
  {
    hide RetryLoop; hide Talk; hide FileRequest; hide Hex.HexOf; hide Request.Valid; hide CrcStatusRequest;
    var aesKey := env.rsaDecrypt(encryptedKey, privateKey);
    if aesKey.Some? && env.file(|w.trace|).Some? {
      var file := FileRequest(env, c, |w.trace|, id,
                              Hex.HexOf(env.aesEncrypt(env.file(|w.trace|).value, aesKey.value, |w.trace|)));
      LoopExtends(env, c, w, file, id, 0, 3);
      SendFileKeepsFiles(env, c, w, file, id, 3);
      var end := RetryLoop(env, c, w, file, id, 0, 3);
      TalkTrace(env, end.world, CrcStatusRequest(env, c, |end.world.trace|, id, CRC_INCORRECT_DONE));
    }
  }

  // The private half of the pair made at the moment n, if its file can be written.
  function KeyMade(env: Env, n: nat): Option<bytes> {
    if env.writable(n, PrivateKeyFile) then Some(env.keys(n).1) else None
  }

  // What follows a connection answer: the private key is saved, and if anything
  // is sent, a 1026 with the public half of the same pair.
  ghost predicate KeySaved(env: Env, c: Client, w: World, after: World) {
    var n := |w.trace|;
    && after.privateKey == Over(KeyMade(env, n), w.privateKey)
    && w.trace <= after.trace
    && (|after.trace| > n ==>
          && KeyMade(env, n).Some?
          && Asked(after.trace[n], 1026) && HoldsKey(env, c, after.trace[n].request, n))
  }

  lemma FinishKeepsKey(env: Env, c: Client, w: World, id: Id)
    ensures KeySaved(env, c, w, Finish(env, c, w, id).1)
  {
    hide Talk; hide Reply; hide FileHandler.MeInfoText; hide EncryptAndSend; hide Payloads.PublicKeyPayload;
    hide Request.Valid;
    var keys := env.keys(|w.trace|);
    var step := ExchangeKeys(env, c, w, id);
    var w2 := w.(privateKey := Some(keys.1), meInfo := Some(FileHandler.MeInfoText(c.name, id, env.base64(keys.1))));
    var r := PublicKeyRequest(env, c, |w.trace|, id, keys.0);
    TalkTrace(env, w2, r);
    if step.outcome.Some? && step.outcome.value.code == RECEIVED_PUBLIC_KEY_SEND_AES
        && |step.outcome.value.payload| >= 16 {
      UploadExtends(env, c, step.world, step.outcome.value.payload[16..], step.privateKey, id);
    }
  }

  function RegisterKey(env: Env, c: Client, w: World): Option<bytes> {
    var (answer, id, w1) := Connect(env, c, w, REGISTRATION);
    if answer.code == REGISTRATION_SUCCESS then KeyMade(env, |w1.trace|) else None
  }

  function ReconnectKey(env: Env, c: Client, w: World): Option<bytes> {
    var (answer, id, w1) := Connect(env, c, w, RECONNECT);
    if answer.code == RECONNECT_REJECTED then RegisterKey(env, c, w1)
    else if answer.code == APPROVE_RECONNECT_SEND_AES then KeyMade(env, |w1.trace|)
    else None
  }

  // Where a session asks for the AES key, its file holds the private half of the
  // pair it sent the public half of.
  ghost predicate PairKept(env: Env, c: Client, t: seq<Event>, key: Option<bytes>) {
    forall i | 0 <= i < |t| && Asked(t[i], 1026) ::
      HoldsKey(env, c, t[i].request, i) && key == Some(env.keys(i).1)
  }

  lemma ConnectKeeps(env: Env, c: Client, w: World, code: nat)
    requires code < 0x1_0000
    ensures var w1 := Connect(env, c, w, code).2;
            && w1.privateKey == w.privateKey && |w1.trace| == |w.trace| + 2 && w.trace <= w1.trace
            && Asked(w1.trace[|w.trace|], code) && w1.trace[|w.trace| + 1].Received?
  {
    hide Talk; hide Reply; hide Payloads.NamePayload;
    TalkTrace(env, w, ConnectionRequest(env, c, |w.trace|, code));
  }

  lemma PairAt(env: Env, c: Client, start: Phase, w: World, after: World)
    requires start == MayReconnect || start == MustRegister
    requires KeySaved(env, c, w, after) && After(env, start, after.trace, 3) != Bad
    requires forall i | 0 <= i < |w.trace| :: !Asked(w.trace[i], 1026)
    ensures PairKept(env, c, after.trace, KeyMade(env, |w.trace|))
  {
    hide After; hide HoldsKey;
    var t, n := after.trace, |w.trace|;
    assert forall i | 0 <= i < n :: t[i] == w.trace[i];
    forall i | 0 <= i < |t| && Asked(t[i], 1026)
      ensures HoldsKey(env, c, t[i].request, i) && KeyMade(env, n) == Some(env.keys(i).1)
    {
      if i > n {
        AfterKeyRequest(env, start, t, n, i, 3);
      }
    }
  }

  lemma RegisterKeepsKey(env: Env, c: Client, disk: World)
    ensures var (key, w) := (RegisterKey(env, c, Opened(disk)), Register(env, c, Opened(disk)).1);
            w.privateKey == Over(key, disk.privateKey) && PairKept(env, c, w.trace, key)
  {
    hide Connect; hide Finish; hide KeyMade; hide HoldsKey; hide KeySaved; hide RegisterId;
    var w0 := Opened(disk);
    var (answer, id, w1) := Connect(env, c, w0, REGISTRATION);
    ConnectKeeps(env, c, w0, REGISTRATION);
    if answer.code == REGISTRATION_SUCCESS {
      SessionAccepted(env, c, MustRegister, disk);
      FinishKeepsKey(env, c, w1, id);
      assert w1.trace == [w1.trace[0], w1.trace[1]];
      PairAt(env, c, MustRegister, w1, Finish(env, c, w1, id).1);
      SavedKey(env, c, w1, Finish(env, c, w1, id).1);
    } else {
      assert w1.trace == [w1.trace[0], w1.trace[1]];
    }
  }

  lemma ReconnectKeepsKey(env: Env, c: Client, disk: World)
    ensures var (key, w) := (ReconnectKey(env, c, Opened(disk)), Reconnect(env, c, Opened(disk)).1);
            w.privateKey == Over(key, disk.privateKey) && PairKept(env, c, w.trace, key)
  {
    hide Connect; hide Finish; hide KeyMade; hide HoldsKey; hide KeySaved; hide ReconnectId;
    var w0 := Opened(disk);
    var (answer, id, w1) := Connect(env, c, w0, RECONNECT);
    ConnectKeeps(env, c, w0, RECONNECT);
    assert w1.trace == [w1.trace[0], w1.trace[1]];
    if answer.code == RECONNECT_REJECTED {
      var (answer', id', w2) := Connect(env, c, w1, REGISTRATION);
      ConnectKeeps(env, c, w1, REGISTRATION);
      assert w2.trace == [w1.trace[0], w1.trace[1], w2.trace[2], w2.trace[3]];
      if answer'.code == REGISTRATION_SUCCESS {
        SessionAccepted(env, c, MayReconnect, disk);
        FinishKeepsKey(env, c, w2, id');
        PairAt(env, c, MayReconnect, w2, Finish(env, c, w2, id').1);
        SavedKey(env, c, w2, Finish(env, c, w2, id').1);
      }
    } else if answer.code == APPROVE_RECONNECT_SEND_AES {
      SessionAccepted(env, c, MayReconnect, disk);
      FinishKeepsKey(env, c, w1, id);
      PairAt(env, c, MayReconnect, w1, Finish(env, c, w1, id).1);
      SavedKey(env, c, w1, Finish(env, c, w1, id).1);
    }
  }

  lemma SavedKey(env: Env, c: Client, w: World, after: World)
    requires KeySaved(env, c, w, after)
    ensures after.privateKey == Over(KeyMade(env, |w.trace|), w.privateKey)
  {}

  lemma SessionAccepted(env: Env, c: Client, start: Phase, disk: World)
    requires start == MayReconnect || start == MustRegister
    ensures start == MustRegister ==> After(env, start, Register(env, c, Opened(disk)).1.trace, 3) != Bad
    ensures start == MayReconnect ==> After(env, start, Reconnect(env, c, Opened(disk)).1.trace, 3) != Bad
  {
    hide Register; hide Reconnect; hide After; hide RegisterId; hide ReconnectId; hide IdsAgree; hide AllShaped;
    hide InStep; hide SavedFor; hide Confirmed; hide IdOf; hide Count; hide Sends;
    RegisterIsSafe(env, c, disk);
    ReconnectIsSafe(env, c, disk);
  }

  // priv.key after a run is what the second connection wrote if it wrote, else
  // what the first one wrote, else what it was. On either connection a 1026
  // carried the public half of the pair whose private half that connection wrote.
  lemma PrivateKeyAfterRun(env1: Env, env2: Env, disk: World, connected1: bool, connected2: bool,
                           transfer: FileHandler.TransferRead)
    requires transfer.Good?
    ensures var run := HandleClient(env1, env2, disk, connected1, connected2, transfer);
            var c2 := NewClient(transfer.info);
            var key1 := if disk.meInfo.Some? && connected1
                        then ReconnectKey(env1, KnownClient(disk.meInfo.value, transfer.info), Opened(disk)) else None;
            var key2 := if run.second.trace != [] then RegisterKey(env2, c2, Opened(run.first)) else None;
            && run.second.privateKey == Over(key2, Over(key1, disk.privateKey))
            && (disk.meInfo.Some? ==> PairKept(env1, KnownClient(disk.meInfo.value, transfer.info), run.first.trace,
                                               key1))
            && (disk.meInfo.None? ==> run.first.trace == [])
            && PairKept(env2, c2, run.second.trace, key2)
  {
    hide Reconnect; hide Register; hide KnownClient; hide RegisterKey; hide ReconnectKey; hide HoldsKey;
    hide SessionSafe;
    hide RegisterId;
    var c2 := NewClient(transfer.info);
    if disk.meInfo.Some? && connected1 {
      var c1 := KnownClient(disk.meInfo.value, transfer.info);
      var attempt := Reconnect(env1, c1, Opened(disk));
      ReconnectKeepsKey(env1, c1, disk);
      RegisterKeepsKey(env2, c2, attempt.1);
      Second(env2, c2, attempt.1);
    }
    RegisterKeepsKey(env2, c2, Opened(disk));
    Second(env2, c2, Opened(disk));
  }
}
