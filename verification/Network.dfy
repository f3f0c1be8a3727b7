// One connection to an arbitrary server, and the environment the client runs in.
module Network {
  import opened Bytes
  import opened Wire

  datatype Event = Sent(request: Request) | Received(response: Response)

  datatype File = PrivateKeyFile | MeInfoFile

  // Everything the client does not decide itself. The nat arguments are moments,
  // counted in events, so that nothing has to answer the same way twice.
  datatype Env = Env(
    reply: bytes -> bytes,               // what the server puts on the stream once it has received these bytes
    chunk: nat -> int,                   // at most so many bytes arrive in the i-th receive; negative: an error
    unset: nat -> Response,              // fields nobody assigned
    wild: nat -> nat,                    // four bytes read in front of an empty payload
    stack: nat -> bytes,                 // sixteen bytes of an uninitialised client id
    heap: (nat, nat) -> byte,            // byte i of a fresh buffer
    pad: nat -> byte,                    // the padding byte inside a Request made at that moment
    keys: nat -> (bytes, bytes),         // a fresh RSA key pair, public and private
    base64: bytes -> bytes,
    rsaDecrypt: (bytes, bytes) -> Option<bytes>,   // cipher text, private key; None: it throws
    aesEncrypt: (bytes, bytes, nat) -> bytes,      // plain text, key, moment (for the random IV)
    file: nat -> Option<bytes>,          // the file to transfer; None: it cannot be read
    checksum: bytes -> nat,              // what memcrc makes of a file
    writable: (nat, File) -> bool
  )

  datatype World = World(
    outgoing: bytes,            // sent so far
    incoming: bytes,            // arrived and not yet received
    recvs: nat,
    trace: seq<Event>,
    meInfo: Option<bytes>,
    privateKey: Option<bytes>
  )

  // sendRequest, the whole buffer going out.
  function Send(env: Env, w: World, r: Request): World
    requires r.Valid()
  {
    var out := w.outgoing + Frame(r);
    w.(outgoing := out, incoming := w.incoming + env.reply(out), trace := w.trace + [Sent(r)])
  }

  // How many of n bytes one receive yields; -1 is an error.
  function Arriving(env: Env, w: World, n: nat): (k: int)
    ensures -1 <= k <= n && k <= |w.incoming|
  {
    var k := env.chunk(w.recvs);
    if k < 0 then -1 else Min(Min(k, n), |w.incoming|)
  }

  function AfterReceive(env: Env, w: World, n: nat): World {
    var k := Arriving(env, w, n);
    w.(incoming := if k < 0 then w.incoming else w.incoming[k..], recvs := w.recvs + 1)
  }

  // getResponse: the header in one receive, the payload in a second one.
  function Answer(env: Env, w: World): Response {
    if Arriving(env, w, RESPONSE_HEADER_SIZE) != RESPONSE_HEADER_SIZE then
      env.unset(w.recvs).(payload := [])
    else
      var header := w.incoming[..RESPONSE_HEADER_SIZE];
      var w1 := AfterReceive(env, w, RESPONSE_HEADER_SIZE);
      var size := FromBe32(header[3..7]);
      var payload := if Arriving(env, w1, size) != size then [] else w1.incoming[..size];
      Response(VersionChar(header[0]), FromBe16(header[1..3]), size, payload)
  }

  function AfterAnswer(env: Env, w: World): World {
    var w1 := AfterReceive(env, w, RESPONSE_HEADER_SIZE);
    var w2 := if Arriving(env, w, RESPONSE_HEADER_SIZE) != RESPONSE_HEADER_SIZE then w1
              else AfterReceive(env, w1, FromBe32(w.incoming[3..7]));
    w2.(trace := w.trace + [Received(Answer(env, w))])
  }

  // A request and the answer to it.
  function Talk(env: Env, w: World, r: Request): World
    requires r.Valid()
  {
    AfterAnswer(env, Send(env, w, r))
  }

  function Reply(env: Env, w: World, r: Request): Response
    requires r.Valid()
  {
    Answer(env, Send(env, w, r))
  }

  lemma TalkTrace(env: Env, w: World, r: Request)
    requires r.Valid()
    ensures Talk(env, w, r).trace == w.trace + [Sent(r)] + [Received(Reply(env, w, r))]
    ensures Talk(env, w, r).meInfo == w.meInfo && Talk(env, w, r).privateKey == w.privateKey
  {}

  // ---------------------------------------------------------------------
  // The response stream.

  // A payload is empty or exactly the bytes that follow the header on the stream.
  lemma PayloadIsNext(env: Env, w: World)
    ensures var r := Answer(env, w);
            r.payload == []
            || (&& RESPONSE_HEADER_SIZE + r.payloadSize <= |w.incoming|
                && r.payloadSize == FromBe32(w.incoming[3..7])
                && r.payload == w.incoming[RESPONSE_HEADER_SIZE..RESPONSE_HEADER_SIZE + r.payloadSize]
                && AfterAnswer(env, w).incoming == w.incoming[RESPONSE_HEADER_SIZE + r.payloadSize..])
  {
    if Arriving(env, w, RESPONSE_HEADER_SIZE) == RESPONSE_HEADER_SIZE {
      var header := w.incoming[..RESPONSE_HEADER_SIZE];
      assert header[3..7] == w.incoming[3..7];
    }
  }

  // The i-th and the next receive yield all they are asked for when it is there.
  ghost predicate Complete(env: Env) {
    forall i: nat :: env.chunk(i) >= 0x1_0000_0000
  }

  // An encoded response in front of the stream is returned, and exactly its
  // bytes are consumed.
  lemma AnswerOfEncoded(env: Env, w: World, version: byte, code: nat, payload: bytes, rest: bytes)
    requires Complete(env)
    requires code < 0x1_0000 && |payload| < 0x1_0000_0000
    requires w.incoming == EncodeResponse(version, code, payload) + rest
    ensures Answer(env, w) == Response(VersionChar(version), code, |payload|, payload)
    ensures AfterAnswer(env, w).incoming == rest
  {
    hide EncodeResponse; hide FromBe16; hide FromBe32; hide VersionChar;
    HeaderOnStream(version, code, payload, rest);
    assert env.chunk(w.recvs) >= 0x1_0000_0000 && env.chunk(w.recvs + 1) >= 0x1_0000_0000;
    var w1 := AfterReceive(env, w, RESPONSE_HEADER_SIZE);
    assert w1.incoming == payload + rest;
    assert w1.incoming[..|payload|] == payload;
    assert w1.incoming[|payload|..] == rest;
  }

  lemma HeaderOnStream(version: byte, code: nat, payload: bytes, rest: bytes)
    requires code < 0x1_0000 && |payload| < 0x1_0000_0000
    ensures var x := EncodeResponse(version, code, payload) + rest;
            && x[..RESPONSE_HEADER_SIZE][0] == version
            && FromBe16(x[..RESPONSE_HEADER_SIZE][1..3]) == code
            && FromBe32(x[..RESPONSE_HEADER_SIZE][3..7]) == FromBe32(x[3..7]) == |payload|
            && x[RESPONSE_HEADER_SIZE..] == payload + rest
  {
    hide EncodeResponse; hide FromBe16; hide FromBe32;
    HeaderOfResponse(version, code, payload);
    var s := EncodeResponse(version, code, payload);
    var x := s + rest;
    assert x[..RESPONSE_HEADER_SIZE] == s[..RESPONSE_HEADER_SIZE];
    assert s[..RESPONSE_HEADER_SIZE][1..3] == s[1..3];
    assert s[..RESPONSE_HEADER_SIZE][3..7] == s[3..7];
    assert x[3..7] == s[3..7];
  }

  // What is read from a stream, byte by byte: the header's fields have the high
  // byte first and are kept even when the payload is cut short.
  lemma AnswerOfBytes(env: Env, w: World, v: byte, hi: byte, lo: byte, s3: byte, s2: byte, s1: byte, s0: byte,
                      rest: bytes)
    requires w.incoming == [v, hi, lo, s3, s2, s1, s0] + rest
    requires env.chunk(w.recvs) >= 7
    ensures var r := Answer(env, w);
            && r.version == (v as nat + 48) % 256
            && r.code == 0x100 * (hi as nat) + lo as nat
            && r.payloadSize
               == 0x100_0000 * (s3 as nat) + 0x1_0000 * (s2 as nat) + 0x100 * (s1 as nat) + s0 as nat
            && r.payload == if r.payloadSize <= |rest| && env.chunk(w.recvs + 1) >= r.payloadSize
                            then rest[..r.payloadSize] else []
  {
    hide FromBe16; hide FromBe32;
    var header := w.incoming[..7];
    assert header[1..3] == [hi, lo] && header[3..7] == [s3, s2, s1, s0];
    BigEndian16(0, hi, lo);
    BigEndian32(0, s3, s2, s1, s0);
    assert w.incoming[3..7] == header[3..7] && w.incoming[7..] == rest;
  }

  // Without a whole header nothing is read: whatever the fields held, and no
  // payload.
  lemma AnswerOfShortHeader(env: Env, w: World)
    requires env.chunk(w.recvs) < 7 || |w.incoming| < 7
    ensures Answer(env, w) == env.unset(w.recvs).(payload := [])
  {}

  function EncodeAll(rs: seq<(byte, nat, bytes)>): bytes
    requires forall r | r in rs :: r.1 < 0x1_0000 && |r.2| < 0x1_0000_0000
  {
    if rs == [] then [] else EncodeResponse(rs[0].0, rs[0].1, rs[0].2) + EncodeAll(rs[1..])
  }

  // What n successive calls of getResponse return.
  function Answers(env: Env, w: World, n: nat): (seq<Response>, World)
    decreases n
  {
    if n == 0 then ([], w)
    else
      var (rs, w') := Answers(env, AfterAnswer(env, w), n - 1);
      ([Answer(env, w)] + rs, w')
  }

  // Back-to-back responses come out in order and use up the stream.
  lemma {:induction false} AnswersInOrder(env: Env, w: World, rs: seq<(byte, nat, bytes)>)
    requires Complete(env)
    requires forall r | r in rs :: r.1 < 0x1_0000 && |r.2| < 0x1_0000_0000
    requires w.incoming == EncodeAll(rs)
    ensures var (got, w') := Answers(env, w, |rs|);
            && |got| == |rs|
            && (forall i | 0 <= i < |rs| :: got[i] == Response(VersionChar(rs[i].0), rs[i].1, |rs[i].2|, rs[i].2))
            && w'.incoming == []
    decreases |rs|
  {
    hide Answer; hide AfterAnswer; hide EncodeResponse; hide Complete; hide VersionChar;
    if rs == [] {
    } else {
      AnswerOfEncoded(env, w, rs[0].0, rs[0].1, rs[0].2, EncodeAll(rs[1..]));
      AnswersInOrder(env, AfterAnswer(env, w), rs[1..]);
    }
  }

  // ---------------------------------------------------------------------
  // The request stream.

  function Requests(trace: seq<Event>): seq<Request>
    decreases |trace|
  {
    if trace == [] then []
    else
      var n := |trace| - 1;
      Requests(trace[..n]) + match trace[n] case Sent(r) => [r] case Received(_) => []
  }

  // The bytes sent are the frames of the requests sent.
  ghost predicate InStep(w: World) {
    ParseAll(w.outgoing) == Some(Requests(w.trace))
  }

  lemma SendInStep(env: Env, w: World, r: Request)
    requires r.Valid() && InStep(w)
    ensures InStep(Send(env, w, r))
  {
    ParseAllAppend(w.outgoing, Requests(w.trace), r);
    assert (w.trace + [Sent(r)])[..|w.trace|] == w.trace;
  }

  lemma AnswerInStep(env: Env, w: World)
    requires InStep(w)
    ensures InStep(AfterAnswer(env, w))
  {
    hide Answer;
    RequestsAppend(w.trace, Received(Answer(env, w)));
    assert AfterAnswer(env, w).trace == w.trace + [Received(Answer(env, w))];
    assert Requests(w.trace) + [] == Requests(w.trace);
  }

  lemma RequestsAppend(trace: seq<Event>, e: Event)
    ensures Requests(trace + [e]) == Requests(trace) + match e case Sent(r) => [r] case Received(_) => []
  {
    assert (trace + [e])[..|trace|] == trace;
  }

  lemma TalkInStep(env: Env, w: World, r: Request)
    requires r.Valid() && InStep(w)
    ensures InStep(Talk(env, w, r))
  {
    SendInStep(env, w, r);
    AnswerInStep(env, Send(env, w, r));
  }

  // ---------------------------------------------------------------------
  // The checksum of a file.

  // readCrc: zero when the file cannot be read.
  function ReadCrc(env: Env, file: Option<bytes>): nat {
    match file
    case None => 0
    case Some(s) => env.checksum(s)
  }

  // The last four bytes of a payload, in the machine's byte order.
  function TrailingCrc(env: Env, moment: nat, payload: bytes): nat {
    if |payload| < 4 then env.wild(moment) % 0x1_0000_0000
    else FromLe32(payload[|payload| - 4..])
  }
}
