// What one connection's worth of client code does, as functions of the world.
// The class ProtocolHandler performs these steps; the theorems are about them.
module Session {
  import opened Bytes
  import opened Wire
  import opened Hex
  import opened Payloads
  import opened Network
  import FileHandler

  // Request codes.
  const REGISTRATION := 1025
  const SEND_PUBLIC_KEY := 1026
  const RECONNECT := 1027
  const SEND_FILE := 1028
  const CRC_CORRECT := 1029
  const CRC_INCORRECT_RESEND := 1030
  const CRC_INCORRECT_DONE := 1031

  // Response codes.
  const REGISTRATION_SUCCESS := 2100
  const RECEIVED_PUBLIC_KEY_SEND_AES := 2102
  const FILE_RECEIVED_CRC_OK := 2103
  const CONFIRM_MSG := 2104
  const APPROVE_RECONNECT_SEND_AES := 2105
  const RECONNECT_REJECTED := 2106

  const PROTOCOL_VERSION: byte := 51

  // The client name and the path of the file to send.
  datatype Client = Client(name: bytes, filePath: bytes)

  // How a handler ends: it returns, it throws a std::runtime_error, or it
  // throws something that is not one.
  datatype Outcome = Returned(status: bool) | RuntimeError | OtherError

  // A client id: sixteen bytes.
  type Id = s: bytes | |s| == 16 witness Fill(16, 0)

  // ---------------------------------------------------------------------
  // Requests.

  // The file path, its NUL, and whatever the buffer held after a NUL inside it.
  function PathPayload(env: Env, moment: nat, path: bytes): (p: bytes)
    ensures |p| < 0x1_0000_0000
  {
    PathBuffer(env, moment, path)[..(|path| + 1) % 0x1_0000_0000]
  }

  function PathBuffer(env: Env, moment: nat, path: bytes): (p: bytes)
    ensures |p| == |path| + 1
  {
    var text := CStr(path) + [0];
    text + HeapBytes(env, moment, |path| + 1)[|text|..]
  }

  // A path whose size can be told arrives as the C string it is.
  lemma PathText(env: Env, moment: nat, path: bytes)
    requires |path| + 1 < 0x1_0000_0000
    ensures |PathPayload(env, moment, path)| == |path| + 1 && CStr(PathPayload(env, moment, path)) == CStr(path)
  {
    hide CStr; hide HeapBytes;
    var rest := HeapBytes(env, moment, |path| + 1)[|CStr(path)| + 1..];
    var p := PathPayload(env, moment, path);
    assert p == PathBuffer(env, moment, path) == CStr(path) + [0] + rest;
    CStrStops(CStr(path), rest);
  }

  // The path arrives exactly when it has no NUL and its size can be told.
  lemma PathArrives(env: Env, moment: nat, path: bytes)
    ensures CStr(PathPayload(env, moment, path)) == path <==> 0 !in path && |path| + 1 < 0x1_0000_0000
  {
    hide CStr;
    if |path| + 1 >= 0x1_0000_0000 {
      ModShrinks(|path|);
    } else {
      hide PathPayload;
      PathText(env, moment, path);
      if 0 !in path {
        CStrWhole(path);
      }
    }
  }

  lemma {:induction false} CStrStops(c: bytes, rest: bytes)
    requires 0 !in c
    ensures CStr(c + [0] + rest) == c
    decreases |c|
  {
    if c == [] {
    } else {
      assert c[0] in c;
      assert (c + [0] + rest)[1..] == c[1..] + [0] + rest;
      CStrStops(c[1..], rest);
    }
  }

  lemma ModShrinks(n: nat)
    requires n + 1 >= 0x1_0000_0000
    ensures (n + 1) % 0x1_0000_0000 < n
  {}

  // A fresh buffer of n bytes.
  function HeapBytes(env: Env, moment: nat, n: nat): (p: bytes)
    ensures |p| == n
  {
    seq<byte>(n, i requires 0 <= i < n => env.heap(moment, i))
  }

  function CrcStatusRequest(env: Env, c: Client, moment: nat, id: Id, code: nat): (r: Request)
    requires code < 0x1_0000
    ensures r.Valid()
  {
    Request(id, PROTOCOL_VERSION, env.pad(moment), code, PathPayload(env, moment, c.filePath))
  }

  function ConnectionRequest(env: Env, c: Client, moment: nat, code: nat): (r: Request)
    requires code < 0x1_0000
    ensures r.Valid()
  {
    Request(Fill(16, 0), PROTOCOL_VERSION, env.pad(moment), code, NamePayload(c.name))
  }

  function PublicKeyRequest(env: Env, c: Client, moment: nat, id: Id, publicKey: bytes): (r: Request)
    ensures r.Valid()
  {
    var p := PublicKeyPayload(c.name, publicKey);
    Request(id, PROTOCOL_VERSION, env.pad(moment), SEND_PUBLIC_KEY, p[..|p| % 0x1_0000_0000])
  }

  function FileRequest(env: Env, c: Client, moment: nat, id: Id, content: bytes): (r: Request)
    ensures r.Valid()
  {
    Request(id, PROTOCOL_VERSION, env.pad(moment), SEND_FILE, SentFilePayload(c.filePath, content))
  }

  // ---------------------------------------------------------------------
  // sendCRCStatusRequest

  function ReportCrc(env: Env, c: Client, w: World, id: Id, code: nat): World
    requires code < 0x1_0000
  {
    Talk(env, w, CrcStatusRequest(env, c, |w.trace|, id, code))
  }

  function ReportConfirmed(env: Env, c: Client, w: World, id: Id, code: nat): bool
    requires code < 0x1_0000
  {
    Reply(env, w, CrcStatusRequest(env, c, |w.trace|, id, code)).code == CONFIRM_MSG
  }

  // ---------------------------------------------------------------------
  // handleRetrySendFile

  // Does the checksum at the end of this answer match the file's?
  predicate Matches(env: Env, moment: nat, r: Response) {
    TrailingCrc(env, moment, r.payload) == ReadCrc(env, env.file(moment))
  }

  // An answer matches exactly when its last four bytes, the lowest first, are
  // the file's checksum, or all zero when the file cannot be read.
  lemma MatchOfBytes(env: Env, moment: nat, r: Response, front: bytes, b0: byte, b1: byte, b2: byte, b3: byte)
    requires r.payload == front + [b0, b1, b2, b3]
    ensures Matches(env, moment, r)
       <==> b0 as nat + 0x100 * (b1 as nat) + 0x1_0000 * (b2 as nat) + 0x100_0000 * (b3 as nat)
            == if env.file(moment).Some? then env.checksum(env.file(moment).value) else 0
  {
    hide FromLe32;
    assert r.payload[|r.payload| - 4..] == [b0, b1, b2, b3];
    LittleEndian32(0, b0, b1, b2, b3);
  }

  datatype LoopEnd = LoopEnd(status: bool, retries: int, world: World)

  // The loop from `retries` on.
  function RetryLoop(env: Env, c: Client, w: World, file: Request, id: Id, retries: int, maxRetries: int): LoopEnd
    requires file.Valid()
    decreases maxRetries - retries
  {
    if retries >= maxRetries then LoopEnd(false, retries, w)
    else
      var answer := Reply(env, w, file);
      var w1 := Talk(env, w, file);
      if answer.code != FILE_RECEIVED_CRC_OK then
        RetryLoop(env, c, w1, file, id, retries + 1, maxRetries)
      else if Matches(env, |w1.trace|, answer) then
        LoopEnd(ReportConfirmed(env, c, w1, id, CRC_CORRECT), retries, ReportCrc(env, c, w1, id, CRC_CORRECT))
      else
        RetryLoop(env, c, ReportCrc(env, c, w1, id, CRC_INCORRECT_RESEND), file, id, retries + 1, maxRetries)
  }

  function SendFile(env: Env, c: Client, w: World, file: Request, id: Id, maxRetries: int): (bool, World)
    requires file.Valid()
  {
    var end := RetryLoop(env, c, w, file, id, 0, maxRetries);
    (end.status,
     if end.retries == maxRetries then ReportCrc(env, c, end.world, id, CRC_INCORRECT_DONE) else end.world)
  }

  // ---------------------------------------------------------------------
  // handleFileEncryptionAndSend

  function EncryptAndSend(env: Env, c: Client, w: World, encryptedKey: bytes, privateKey: bytes, id: Id)
    : (Outcome, World)
  {
    match env.rsaDecrypt(encryptedKey, privateKey)
    case None => (OtherError, w)
    case Some(aesKey) =>
      match env.file(|w.trace|)
      case None => (RuntimeError, w)
      case Some(contents) =>
        if |aesKey| != 16 then (OtherError, w)
        else
          var content := HexOf(env.aesEncrypt(contents, aesKey, |w.trace|));
          var (status, w1) := SendFile(env, c, w, FileRequest(env, c, |w.trace|, id, content), id, 3);
          (Returned(status), w1)
  }

  // ---------------------------------------------------------------------
  // handleConnectionRequest: the first sixteen bytes of the answer overwrite
  // the front of the client id.

  function Overlay(old_: Id, payload: bytes): Id {
    var n := Min(16, |payload|);
    payload[..n] + old_[n..]
  }

  // The sixteen bytes an uninitialised client id happens to hold.
  function StackId(env: Env, moment: nat): Id {
    var s := env.stack(moment);
    if |s| == 16 then s else Fill(16, 0)
  }

  function Connect(env: Env, c: Client, w: World, code: nat): (Response, Id, World)
    requires code < 0x1_0000
  {
    var r := ConnectionRequest(env, c, |w.trace|, code);
    var answer := Reply(env, w, r);
    (answer, Overlay(StackId(env, |w.trace|), answer.payload), Talk(env, w, r))
  }

  // ---------------------------------------------------------------------
  // handleRSARegistration

  datatype KeyStep = KeyStep(outcome: Option<Response>, privateKey: bytes, world: World)

  function ExchangeKeys(env: Env, c: Client, w: World, id: Id): KeyStep {
    var keys := env.keys(|w.trace|);
    if !env.writable(|w.trace|, PrivateKeyFile) then KeyStep(None, keys.1, w)
    else
      var w1 := w.(privateKey := Some(keys.1));
      if !env.writable(|w.trace|, MeInfoFile) then KeyStep(None, keys.1, w1)
      else
        var w2 := w1.(meInfo := Some(FileHandler.MeInfoText(c.name, id, env.base64(keys.1))));
        var r := PublicKeyRequest(env, c, |w.trace|, id, keys.0);
        KeyStep(Some(Reply(env, w2, r)), keys.1, Talk(env, w2, r))
  }

  // The common end of registration and reconnection.
  function Finish(env: Env, c: Client, w: World, id: Id): (Outcome, World) {
    var step := ExchangeKeys(env, c, w, id);
    match step.outcome
    case None => (RuntimeError, step.world)
    case Some(answer) =>
      if answer.code != RECEIVED_PUBLIC_KEY_SEND_AES then (Returned(false), step.world)
      else if |answer.payload| < 16 then (OtherError, step.world)
      else EncryptAndSend(env, c, step.world, answer.payload[16..], step.privateKey, id)
  }

  function Register(env: Env, c: Client, w: World): (Outcome, World) {
    var (answer, id, w1) := Connect(env, c, w, REGISTRATION);
    if answer.code != REGISTRATION_SUCCESS then (Returned(false), w1)
    else Finish(env, c, w1, id)
  }

  function Reconnect(env: Env, c: Client, w: World): (Outcome, World) {
    var (answer, id, w1) := Connect(env, c, w, RECONNECT);
    if answer.code == RECONNECT_REJECTED then Register(env, c, w1)
    else if answer.code != APPROVE_RECONNECT_SEND_AES then (Returned(false), w1)
    else Finish(env, c, w1, id)
  }

  // ---------------------------------------------------------------------
  // handleClient: two connections at most, each with its own server.

  function Opened(disk: World): World {
    World([], [], 0, [], disk.meInfo, disk.privateKey)
  }

  // attempt is how the client stood before any second connection.
  datatype Run = Run(outcome: Outcome, attempt: Outcome, first: World, second: World)

  // connected1 and connected2 tell whether handleConnection succeeds.
  function HandleClient(env1: Env, env2: Env, disk: World, connected1: bool, connected2: bool,
                        transfer: FileHandler.TransferRead): Run
  {
    var first := Opened(disk);
    match transfer
    case BadFile => Run(RuntimeError, RuntimeError, first, first)
    case BadPort => Run(OtherError, OtherError, first, first)
    case Good(info) =>
      var attempt: (Outcome, World) := match disk.meInfo
        case None => (RuntimeError, first)
        case Some(text) =>
          if connected1 then Reconnect(env1, KnownClient(text, info), first)
          else (Returned(false), first);
      var second := Opened(attempt.1);
      if attempt.0 != RuntimeError then Run(attempt.0, attempt.0, attempt.1, second)
      else if !connected2 then Run(Returned(false), attempt.0, attempt.1, second)
      else
        var fallback := Register(env2, NewClient(info), second);
        Run(fallback.0, attempt.0, attempt.1, fallback.1)
  }

  // The client named in me.info, and the one named in transfer.info.

  function KnownClient(meInfo: bytes, info: FileHandler.TransferInfo): Client {
    Client(FileHandler.ParseMeInfo(meInfo).name, info.filePath)
  }

  function NewClient(info: FileHandler.TransferInfo): Client {
    Client(info.name, info.filePath)
  }
}
