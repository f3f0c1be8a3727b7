// Whole sessions and runs against a server that keeps to the protocol.
module ServedRuns {
  import opened Bytes
  import opened Wire
  import opened Network
  import opened Session
  import opened Language
  import opened FileChecksum
  import opened Composition
  import Checksum
  import CrcTheorems
  import FileHandler
  import Payloads

  // The server registers anyone under this id, with which its answer begins, and
  // wraps the AES key for the client's public key.
  ghost predicate Registers(env: Env, s: Server, id: Id, aesKey: bytes) {
    && (forall reqs: seq<Request> | reqs != [] && reqs[|reqs| - 1].code == REGISTRATION ::
          s.otherCode(reqs) == REGISTRATION_SUCCESS && id <= s.otherPayload(reqs))
    && (forall reqs: seq<Request> | reqs != [] && reqs[|reqs| - 1].code == SEND_PUBLIC_KEY ::
          && s.otherCode(reqs) == RECEIVED_PUBLIC_KEY_SEND_AES && |s.otherPayload(reqs)| >= 16
          && forall moment :: env.rsaDecrypt(s.otherPayload(reqs)[16..], env.keys(moment).1) == Some(aesKey))
    && (forall moment :: env.writable(moment, PrivateKeyFile) && env.writable(moment, MeInfoFile))
  }

  predicate NoUploadCodes(t: seq<Event>) {
    && Count(t, SEND_FILE) == 0 && Count(t, CRC_CORRECT) == 0
    && Count(t, CRC_INCORRECT_RESEND) == 0 && Count(t, CRC_INCORRECT_DONE) == 0
  }

  lemma SharedServes(env: Env, s: Server, c: Client, aesKey: bytes, contents: bytes, k: nat)
    requires Shared(env, s, c, aesKey, contents, k)
    ensures s.Valid() && Serves(env, s)
  {}

  lemma OpenedQuiet(disk: World)
    ensures Quiet(Opened(disk)) && NoUploadCodes(Opened(disk).trace)
  {
    ParseAllNothing();
  }

  lemma TalkSendsNoUploadCode(env: Env, w: World, r: Request)
    requires r.Valid() && r.code < SEND_FILE && NoUploadCodes(w.trace)
    ensures NoUploadCodes(Talk(env, w, r).trace)
  {
    hide Talk; hide Count;
    CountFour(env, w, r);
  }

  // A payload that begins with an id sets that id, whatever follows.
  lemma OverlayWhole(old_: Id, id: Id, payload: bytes)
    requires id <= payload
    ensures Overlay(old_, payload) == id
  {}

  lemma RespondOther(s: Server, reqs: seq<Request>)
    requires reqs != [] && reqs[|reqs| - 1].code < SEND_FILE
    ensures Respond(s, reqs) == Content(s.otherCode(reqs), s.otherPayload(reqs))
  {}

  // A connection request is answered as the server says.
  lemma Connected(env: Env, s: Server, c: Client, w: World, code: nat, id: Id)
    requires s.Valid() && Serves(env, s) && Quiet(w) && NoUploadCodes(w.trace) && code < SEND_FILE
    ensures var (answer, got, w1) := Connect(env, c, w, code);
            var reqs := Requests(w.trace) + [ConnectionRequest(env, c, |w.trace|, code)];
            && answer.code == s.otherCode(reqs)
            && (id <= s.otherPayload(reqs) ==> got == id)
            && Quiet(w1) && NoUploadCodes(w1.trace)
  {
    hide Talk; hide Reply; hide Quiet; hide NoUploadCodes; hide Respond; hide Serves; hide Server.Valid; hide Requests;
    hide Overlay; hide StackId; hide Payloads.NamePayload;
    var r := ConnectionRequest(env, c, |w.trace|, code);
    ServerAnswers(env, s, w, r);
    TalkSendsNoUploadCode(env, w, r);
    LastOf(Requests(w.trace), r);
    var reqs := Requests(w.trace) + [r];
    RespondOther(s, reqs);
    if id <= s.otherPayload(reqs) {
      OverlayWhole(StackId(env, |w.trace|), id, s.otherPayload(reqs));
    }
  }

  lemma Registered(env: Env, s: Server, c: Client, w: World, id: Id, aesKey: bytes)
    requires s.Valid() && Serves(env, s) && Registers(env, s, id, aesKey) && Quiet(w) && NoUploadCodes(w.trace)
    ensures var (answer, got, w1) := Connect(env, c, w, REGISTRATION);
            answer.code == REGISTRATION_SUCCESS && got == id && Quiet(w1) && NoUploadCodes(w1.trace)
  {
    hide Connect; hide Quiet; hide NoUploadCodes; hide Serves; hide Server.Valid; hide Requests;
    hide Payloads.NamePayload;
    Connected(env, s, c, w, REGISTRATION, id);
    LastOf(Requests(w.trace), ConnectionRequest(env, c, |w.trace|, REGISTRATION));
  }

  // A reconnection is approved, the answer beginning with this id, or rejected.
  ghost predicate Greets(s: Server, id: Id, approve: bool) {
    forall reqs: seq<Request> | reqs != [] && reqs[|reqs| - 1].code == RECONNECT ::
      if approve then s.otherCode(reqs) == APPROVE_RECONNECT_SEND_AES && id <= s.otherPayload(reqs)
      else s.otherCode(reqs) == RECONNECT_REJECTED
  }

  lemma Greeted(env: Env, s: Server, c: Client, w: World, id: Id, approve: bool)
    requires s.Valid() && Serves(env, s) && Greets(s, id, approve) && Quiet(w) && NoUploadCodes(w.trace)
    ensures var (answer, got, w1) := Connect(env, c, w, RECONNECT);
            && answer.code == (if approve then APPROVE_RECONNECT_SEND_AES else RECONNECT_REJECTED)
            && (approve ==> got == id)
            && Quiet(w1) && NoUploadCodes(w1.trace)
  {
    hide Connect; hide Quiet; hide NoUploadCodes; hide Serves; hide Server.Valid; hide Requests;
    hide Payloads.NamePayload;
    Connected(env, s, c, w, RECONNECT, id);
    LastOf(Requests(w.trace), ConnectionRequest(env, c, |w.trace|, RECONNECT));
  }

  lemma KeysExchanged(env: Env, s: Server, c: Client, w: World, id: Id, aesKey: bytes)
    requires s.Valid() && Serves(env, s) && Registers(env, s, id, aesKey) && Quiet(w) && NoUploadCodes(w.trace)
    ensures var step := ExchangeKeys(env, c, w, id);
            && step.outcome.Some? && step.outcome.value.code == RECEIVED_PUBLIC_KEY_SEND_AES
            && |step.outcome.value.payload| >= 16
            && env.rsaDecrypt(step.outcome.value.payload[16..], step.privateKey) == Some(aesKey)
            && Quiet(step.world) && NoUploadCodes(step.world.trace)
  {
    hide Talk; hide Reply; hide NoUploadCodes; hide Respond; hide Serves; hide Server.Valid; hide Requests;
    hide PublicKeyRequest; hide FileHandler.MeInfoText;
    var keys := env.keys(|w.trace|);
    var w2 := w.(privateKey := Some(keys.1), meInfo := Some(FileHandler.MeInfoText(c.name, id, env.base64(keys.1))));
    var r := PublicKeyRequest(env, c, |w.trace|, id, keys.0);
    assert r.code == SEND_PUBLIC_KEY by { PublicKeyCode(env, c, |w.trace|, id, keys.0); }
    ServerAnswers(env, s, w2, r);
    TalkSendsNoUploadCode(env, w2, r);
    LastOf(Requests(w.trace), r);
    RespondOther(s, Requests(w.trace) + [r]);
  }

  lemma PublicKeyCode(env: Env, c: Client, moment: nat, id: Id, publicKey: bytes)
    ensures PublicKeyRequest(env, c, moment, id, publicKey).code == SEND_PUBLIC_KEY
  {}

  // From the keys on, the file arrives exactly when fewer than three of its
  // deliveries are damaged.
  lemma FinishDecided(env: Env, s: Server, c: Client, w: World, id: Id, aesKey: bytes, contents: bytes, k: nat)
    requires Shared(env, s, c, aesKey, contents, k) && Registers(env, s, id, aesKey)
    requires Quiet(w) && NoUploadCodes(w.trace)
    ensures var (outcome, w') := Finish(env, c, w, id);
            outcome == Returned(k < 3) && Decided([], w'.trace, k < 3, k, 3)
  {
    hide Shared; hide EncryptAndSend; hide Decided; hide ExchangeKeys; hide Quiet; hide Count; hide Registers;
    assert s.Valid() && Serves(env, s) by { SharedServes(env, s, c, aesKey, contents, k); }
    var step := ExchangeKeys(env, c, w, id);
    KeysExchanged(env, s, c, w, id, aesKey);
    var key := step.outcome.value.payload[16..];
    EncryptAndSendDecided(env, s, c, step.world, key, step.privateKey, id, aesKey, contents, k);
    assert NoUploadCodes([]) by { NothingSent(); }
    NoneSent([], step.world.trace, EncryptAndSend(env, c, step.world, key, step.privateKey, id).1.trace, k);
  }

  lemma RegisterDecided(env: Env, s: Server, c: Client, w: World, id: Id, aesKey: bytes, contents: bytes, k: nat)
    requires Shared(env, s, c, aesKey, contents, k) && Registers(env, s, id, aesKey)
    requires Quiet(w) && NoUploadCodes(w.trace)
    ensures var (outcome, w') := Register(env, c, w);
            outcome == Returned(k < 3) && Decided([], w'.trace, k < 3, k, 3)
  {
    hide Shared; hide Decided; hide Connect; hide Finish; hide Quiet; hide NoUploadCodes; hide Registers;
    assert s.Valid() && Serves(env, s) by { SharedServes(env, s, c, aesKey, contents, k); }
    Registered(env, s, c, w, id, aesKey);
    FinishDecided(env, s, c, Connect(env, c, w, REGISTRATION).2, id, aesKey, contents, k);
  }

  lemma RegistrationDecided(env: Env, s: Server, c: Client, disk: World, id: Id, aesKey: bytes, contents: bytes, k: nat)
    requires Shared(env, s, c, aesKey, contents, k) && Registers(env, s, id, aesKey)
    ensures var (outcome, w) := Register(env, c, Opened(disk));
            outcome == Returned(k < 3) && Decided([], w.trace, k < 3, k, 3)
  {
    hide Shared; hide Decided; hide Register; hide Quiet; hide NoUploadCodes; hide Registers;
    OpenedQuiet(disk);
    RegisterDecided(env, s, c, Opened(disk), id, aesKey, contents, k);
  }

  // The same of a reconnection, whether the server knows the client or not.
  lemma ReconnectionDecided(env: Env, s: Server, c: Client, disk: World, id: Id, approve: bool,
                            aesKey: bytes, contents: bytes, k: nat)
    requires Shared(env, s, c, aesKey, contents, k) && Registers(env, s, id, aesKey) && Greets(s, id, approve)
    ensures var (outcome, w) := Reconnect(env, c, Opened(disk));
            outcome == Returned(k < 3) && Decided([], w.trace, k < 3, k, 3)
  {
    hide Shared; hide Decided; hide Connect; hide Finish; hide Register; hide Quiet; hide NoUploadCodes; hide Registers;
    hide Greets;
    assert s.Valid() && Serves(env, s) by { SharedServes(env, s, c, aesKey, contents, k); }
    OpenedQuiet(disk);
    Greeted(env, s, c, Opened(disk), id, approve);
    var w := Connect(env, c, Opened(disk), RECONNECT).2;
    if approve {
      FinishDecided(env, s, c, w, id, aesKey, contents, k);
    } else {
      RegisterDecided(env, s, c, w, id, aesKey, contents, k);
    }
  }

  // Whole runs: a client with a me.info, on its first connection,
  lemma KnownClientDecided(env1: Env, env2: Env, s: Server, disk: World, connected2: bool,
                           info: FileHandler.TransferInfo,
                           id: Id, approve: bool, aesKey: bytes, contents: bytes, k: nat)
    requires disk.meInfo.Some?
    requires Shared(env1, s, KnownClient(disk.meInfo.value, info), aesKey, contents, k)
    requires Registers(env1, s, id, aesKey) && Greets(s, id, approve)
    ensures var run := HandleClient(env1, env2, disk, true, connected2, FileHandler.Good(info));
            && run.outcome == Returned(k < 3)
            && run.second.trace == [] && Decided([], run.first.trace, k < 3, k, 3)
  {
    hide Shared; hide Decided; hide Reconnect; hide Register; hide Registers; hide Greets; hide KnownClient;
    ReconnectionDecided(env1, s, KnownClient(disk.meInfo.value, info), disk, id, approve, aesKey, contents, k);
  }

  // and one without, on its second.
  lemma NewClientDecided(env1: Env, env2: Env, s: Server, disk: World, connected1: bool, info: FileHandler.TransferInfo,
                         id: Id, aesKey: bytes, contents: bytes, k: nat)
    requires disk.meInfo.None?
    requires Shared(env2, s, NewClient(info), aesKey, contents, k) && Registers(env2, s, id, aesKey)
    ensures var run := HandleClient(env1, env2, disk, connected1, true, FileHandler.Good(info));
            && run.outcome == Returned(k < 3)
            && run.first.trace == [] && Decided([], run.second.trace, k < 3, k, 3)
  {
    hide Shared; hide Decided; hide Reconnect; hide Register; hide Registers; hide NewClient;
    RegistrationDecided(env2, s, NewClient(info), Opened(disk), id, aesKey, contents, k);
  }

  lemma NothingSent()
    ensures NoUploadCodes([])
  {}

  lemma NoneSent(t0: seq<Event>, t1: seq<Event>, t: seq<Event>, k: nat)
    requires NoUploadCodes(t0) && NoUploadCodes(t1) && Decided(t1, t, k < 3, k, 3)
    ensures Decided(t0, t, k < 3, k, 3)
  {
    hide Count;
  }

  // ---------------------------------------------------------------------
  // There are such servers: one that only ever damages a file's first byte.

  function FirstFlipped(s: bytes): bytes {
    if s == [] then s else [if s[0] == 0 then 1 else 0] + s[1..]
  }

  lemma FlipDamages(s: bytes)
    requires s != []
    ensures Damaged(FirstFlipped(s), s)
  {
    hide Checksum.BitsOf; hide FileCrc;
    var t := FirstFlipped(s);
    assert t[0] != s[0];
    var x, y, tail := Octets(s)[0], Octets(t)[0], Octets(s[1..]);
    assert Octets(s) == [x] + tail && Octets(t) == [y] + tail;
    Checksum.BitsOfConcat([x], tail);
    Checksum.BitsOfConcat([y], tail);
    assert |Checksum.BitsOf([x])| == |Checksum.BitsOf([y])| == 8;
    assert CrcTheorems.SameOutside(Checksum.BitsOf(Octets(t)), Checksum.BitsOf(Octets(s)), 0);
  }

  function FlippingServer(id: Id, approve: bool, k: nat): Server {
    Server(
      3,
      (x: bytes) => x,
      (j: nat, x: bytes) => if j < k then FirstFlipped(x) else x,
      (j: nat) => [],
      (reqs: seq<Request>) =>
        if reqs != [] && reqs[|reqs| - 1].code == REGISTRATION then REGISTRATION_SUCCESS
        else if reqs != [] && reqs[|reqs| - 1].code == RECONNECT then
          if approve then APPROVE_RECONNECT_SEND_AES else RECONNECT_REJECTED
        else RECEIVED_PUBLIC_KEY_SEND_AES,
      (reqs: seq<Request>) => id + [1, 2, 3],
      [])
  }

  lemma FlippingServerValid(id: Id, approve: bool, k: nat)
    ensures FlippingServer(id, approve, k).Valid()
  {}

  ghost function ServedBy(s: Server, contents: bytes): Env
    requires s.Valid()
  {
    Env(
      (received: bytes) => if s.Valid() then Output(s, received) else [],
      (i: nat) => 0x1_0000_0000,
      (i: nat) => Response(0, 0, 0, []),
      (i: nat) => 0,
      (i: nat) => [],
      (i: nat, n: nat) => 0,
      (i: nat) => 0,
      (i: nat) => ([], []),
      (x: bytes) => x,
      (c: bytes, key: bytes) => Some(Fill(16, 7)),
      (plain: bytes, key: bytes, i: nat) => plain,
      (i: nat) => Some(contents),
      (x: bytes) => FileCrc(x),
      (i: nat, f: File) => true)
  }

  lemma FlippingServerShares(c: Client, id: Id, approve: bool, contents: bytes, k: nat)
    requires contents != []
    requires 0 !in c.filePath && |c.filePath| <= 255 && 259 + 2 * |contents| < 0x1_0000_0000
    requires FlippingServer(id, approve, k).Valid()
    ensures var s := FlippingServer(id, approve, k); Shared(ServedBy(s, contents), s, c, Fill(16, 7), contents, k)
  {
    hide Damaged; hide FileCrc; hide Respond; hide EncodeResponse; hide Output; hide FirstFlipped; hide Server.Valid;
    FlipDamages(contents);
  }

  lemma FlippingServerRegisters(id: Id, approve: bool, contents: bytes, k: nat)
    requires FlippingServer(id, approve, k).Valid()
    ensures var s := FlippingServer(id, approve, k);
            Registers(ServedBy(s, contents), s, id, Fill(16, 7)) && Greets(s, id, approve)
  {
    hide FileCrc; hide Output; hide FirstFlipped; hide Server.Valid;
  }

  // So the statements above speak of something, for every number of damaged
  // deliveries and whether the server knows the client or not.
  lemma DamagingServersExist(c: Client, id: Id, approve: bool, contents: bytes, k: nat)
    returns (env: Env, s: Server, aesKey: bytes)
    requires contents != []
    requires 0 !in c.filePath && |c.filePath| <= 255 && 259 + 2 * |contents| < 0x1_0000_0000
    ensures Shared(env, s, c, aesKey, contents, k) && Registers(env, s, id, aesKey) && Greets(s, id, approve)
  {
    hide Shared; hide Registers; hide Greets; hide FlippingServer; hide ServedBy; hide Server.Valid;
    FlippingServerValid(id, approve, k);
    FlippingServerShares(c, id, approve, contents, k);
    FlippingServerRegisters(id, approve, contents, k);
    s := FlippingServer(id, approve, k);
    env, aesKey := ServedBy(s, contents), Fill(16, 7);
  }
}
