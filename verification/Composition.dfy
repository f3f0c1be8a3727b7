// The client against a server that keeps to the protocol: the channel may
// damage the file, and the checksum decides how the upload ends.
module Composition {
  import opened Bytes
  import opened Wire
  import opened Network
  import opened Session
  import opened Language
  import opened FileChecksum
  import Checksum
  import CrcTheorems
  import Hex
  import Payloads

  // A server knows the session's cipher; the channel is what the j-th delivery
  // does to the plain text on its way into the server's copy.
  datatype Server = Server(
    version: byte,
    decrypt: bytes -> bytes,
    channel: (nat, bytes) -> bytes,
    front: nat -> bytes,                        // what precedes the checksum in the j-th answer
    otherCode: seq<Request> -> nat,             // answers to everything else
    otherPayload: seq<Request> -> bytes,
    confirmation: bytes
  ) {
    ghost predicate Valid() {
      && (forall j :: |front(j)| + 4 < 0x1_0000_0000)
      && (forall reqs :: otherCode(reqs) < 0x1_0000)
      && (forall reqs :: |otherPayload(reqs)| < 0x1_0000_0000)
      && |confirmation| < 0x1_0000_0000
    }
  }

  // The file requests among these.
  function Deliveries(reqs: seq<Request>): nat
    decreases |reqs|
  {
    if reqs == [] then 0
    else Deliveries(reqs[..|reqs| - 1]) + if reqs[|reqs| - 1].code == SEND_FILE then 1 else 0
  }

  // What the server stores for the j-th file request, taken apart, decoded and
  // decrypted.
  function Copy(s: Server, j: nat, payload: bytes): Option<bytes> {
    match Payloads.ParseFilePayload(payload)
    case None => None
    case Some(parts) =>
      match Hex.Unhex(parts.1)
      case None => None
      case Some(cipher) => Some(s.channel(j, s.decrypt(cipher)))
  }

  datatype Content = Content(code: nat, payload: bytes)

  // The answer to the last of these requests.
  function Respond(s: Server, reqs: seq<Request>): Content
    requires reqs != []
  {
    var r := reqs[|reqs| - 1];
    var j := Deliveries(reqs[..|reqs| - 1]);
    if r.code == SEND_FILE && Copy(s, j, r.payload).Some? then
      Content(FILE_RECEIVED_CRC_OK, s.front(j) + Le32(FileCrc(Copy(s, j, r.payload).value) % 0x1_0000_0000))
    else if r.code == CRC_CORRECT then Content(CONFIRM_MSG, s.confirmation)
    else Content(s.otherCode(reqs), s.otherPayload(reqs))
  }

  // What it puts on the stream after having received these bytes.
  function Output(s: Server, received: bytes): bytes
    requires s.Valid()
  {
    match ParseAll(received)
    case None => []
    case Some(reqs) =>
      if reqs == [] then []
      else
        var a := Respond(s, reqs);
        EncodeResponse(s.version, a.code, a.payload)
  }

  ghost predicate Serves(env: Env, s: Server)
    requires s.Valid()
  {
    Complete(env) && forall received :: env.reply(received) == Output(s, received)
  }

  // ---------------------------------------------------------------------
  // Checksums as numbers.

  lemma OctetsInjective(a: bytes, b: bytes)
    requires Octets(a) == Octets(b)
    ensures a == b
  {
    forall i | 0 <= i < |a| ensures a[i] == b[i] {
      OctetInjective(a[i], b[i]);
      assert Octets(a)[i] == Octets(b)[i];
    }
    assert |a| == |Octets(a)| == |Octets(b)| == |b|;
  }

  lemma OctetInjective(x: byte, y: byte)
    requires x as bv8 == y as bv8
    ensures x == y
  {
    Checksum.ByteValue(x);
    Checksum.ByteValue(y);
  }

  lemma FileCrcBound(s: bytes)
    ensures FileCrc(s) < 0x1_0000_0000
  {}

  // A copy that differs within 32 consecutive bits only.
  ghost predicate Damaged(copy: bytes, contents: bytes) {
    && |copy| == |contents| && copy != contents
    && exists p: nat :: CrcTheorems.SameOutside(Checksum.BitsOf(Octets(copy)), Checksum.BitsOf(Octets(contents)), p)
  }

  lemma DamageNoticed(copy: bytes, contents: bytes)
    requires Damaged(copy, contents)
    ensures FileCrc(copy) != FileCrc(contents)
  {
    hide Octets; hide CrcTheorems.SameOutside; hide Checksum.Crc;
    var p: nat :| CrcTheorems.SameOutside(Checksum.BitsOf(Octets(copy)), Checksum.BitsOf(Octets(contents)), p);
    if Octets(copy) == Octets(contents) {
      OctetsInjective(copy, contents);
    }
    CrcTheorems.BurstDetected(Octets(copy), Octets(contents), p);
    if FileCrc(copy) == FileCrc(contents) {
      NumberInjective(Checksum.Crc(Octets(copy)), Checksum.Crc(Octets(contents)));
    }
  }

  // ---------------------------------------------------------------------
  // One exchange.

  lemma DeliveriesMore(reqs: seq<Request>, r: Request)
    ensures Deliveries(reqs + [r]) == Deliveries(reqs) + if r.code == SEND_FILE then 1 else 0
  {
    assert (reqs + [r])[..|reqs|] == reqs;
  }

  lemma CountMore(t: seq<Event>, e: Event, code: nat)
    ensures Count(t + [e], code) == Count(t, code) + if e.Sent? && e.request.code == code then 1 else 0
  {
    assert (t + [e])[..|t|] == t;
  }

  lemma {:induction false} DeliveriesCounted(t: seq<Event>)
    ensures Deliveries(Requests(t)) == Count(t, SEND_FILE)
    decreases |t|
  {
    if t == [] {
      NothingDelivered();
    } else {
      hide Deliveries; hide Count; hide Requests;
      var n := |t| - 1;
      var before := Requests(t[..n]);
      assert t == t[..n] + [t[n]];
      DeliveriesCounted(t[..n]);
      RequestsAppend(t[..n], t[n]);
      CountMore(t[..n], t[n], SEND_FILE);
      match t[n]
      case Sent(r) => DeliveriesMore(before, r);
      case Received(_) => assert before + [] == before;
    }
  }

  lemma NothingDelivered()
    ensures Deliveries(Requests([])) == Count([], SEND_FILE)
  {}

  lemma CountTalk(env: Env, w: World, r: Request, code: nat)
    requires r.Valid()
    ensures Count(Talk(env, w, r).trace, code) == Count(w.trace, code) + if r.code == code then 1 else 0
  {
    TalkTrace(env, w, r);
    hide Talk; hide Reply; hide Count;
    CountMore(w.trace, Sent(r), code);
    CountMore(w.trace + [Sent(r)], Received(Reply(env, w, r)), code);
  }

  // Caught up: every answer so far has been read.
  ghost predicate Quiet(w: World) {
    w.incoming == [] && InStep(w)
  }

  lemma RespondFits(s: Server, reqs: seq<Request>)
    requires s.Valid() && reqs != []
    ensures Respond(s, reqs).code < 0x1_0000 && |Respond(s, reqs).payload| < 0x1_0000_0000
  {
    hide Copy; hide FileCrc;
  }

  // The answer goes out as soon as the request has been sent.
  lemma ServerSends(env: Env, s: Server, w: World, r: Request)
    requires s.Valid() && Serves(env, s) && r.Valid() && Quiet(w)
    ensures var a := Respond(s, Requests(w.trace) + [r]);
            && a.code < 0x1_0000 && |a.payload| < 0x1_0000_0000
            && Send(env, w, r).incoming == EncodeResponse(s.version, a.code, a.payload) + []
            && InStep(Send(env, w, r))
  {
    hide Respond; hide EncodeResponse; hide Complete; hide ParseAll; hide Requests; hide Frame; hide Request.Valid;
    hide Server.Valid;
    var reqs := Requests(w.trace) + [r];
    RespondFits(s, reqs);
    SendInStep(env, w, r);
    RequestsAppend(w.trace, Sent(r));
    var out := Send(env, w, r).outgoing;
    assert ParseAll(out) == Some(reqs);
    assert env.reply(out) == Output(s, out);
  }

  lemma ServerAnswers(env: Env, s: Server, w: World, r: Request)
    requires s.Valid() && Serves(env, s) && r.Valid() && Quiet(w)
    ensures var a := Respond(s, Requests(w.trace) + [r]);
            Reply(env, w, r) == Response(VersionChar(s.version), a.code, |a.payload|, a.payload)
    ensures Quiet(Talk(env, w, r))
  {
    ServerSends(env, s, w, r);
    hide Respond; hide EncodeResponse; hide Answer; hide AfterAnswer; hide Complete; hide ParseAll; hide Send;
    hide Request.Valid; hide Server.Valid; hide Requests; hide VersionChar; hide InStep;
    var a := Respond(s, Requests(w.trace) + [r]);
    var w1 := Send(env, w, r);
    AnswerOfEncoded(env, w1, s.version, a.code, a.payload, []);
    AnswerInStep(env, w1);
  }

  // ---------------------------------------------------------------------
  // The upload.

  // The file request holds the file the client compares with; the channel
  // damages its first k deliveries and not the next one.
  ghost predicate Upload(env: Env, s: Server, file: Request, contents: bytes, k: nat) {
    && s.Valid() && Serves(env, s)
    && env.checksum(contents) == FileCrc(contents)
    && file.Valid() && file.code == SEND_FILE
    && (forall j :: Copy(s, j, file.payload) == Some(s.channel(j, contents)))
    && (forall moment :: env.file(moment) == Some(contents))
    && (forall j | 0 <= j < k :: Damaged(s.channel(j, contents), contents))
    && s.channel(k, contents) == contents
  }

  lemma LastOf<T>(s: seq<T>, x: T)
    ensures (s + [x])[|s + [x]| - 1] == x && (s + [x])[..|s + [x]| - 1] == s
  {}

  // The j-th delivery is answered with 2103, and matches exactly when it is the
  // undamaged one.
  lemma DeliveryAnswered(env: Env, s: Server, w: World, file: Request, contents: bytes, k: nat)
    requires Upload(env, s, file, contents, k) && Quiet(w)
    requires Count(w.trace, SEND_FILE) <= k
    ensures var answer := Reply(env, w, file);
            answer.code == FILE_RECEIVED_CRC_OK
            && forall moment :: Matches(env, moment, answer) <==> Count(w.trace, SEND_FILE) == k
    ensures Quiet(Talk(env, w, file))
  {
    hide Reply; hide Talk; hide Quiet; hide Damaged; hide FileCrc; hide Copy; hide Serves; hide Requests; hide Count;
    hide Le32;
    hide FromLe32; hide Server.Valid; hide Request.Valid; hide Deliveries;
    var reqs := Requests(w.trace) + [file];
    var j := Count(w.trace, SEND_FILE);
    ServerAnswers(env, s, w, file);
    DeliveriesCounted(w.trace);
    LastOf(Requests(w.trace), file);
    var copy := s.channel(j, contents);
    assert Copy(s, j, file.payload) == Some(copy);
    FileCrcBound(copy);
    FileCrcBound(contents);
    assert Respond(s, reqs) == Content(FILE_RECEIVED_CRC_OK, s.front(j) + Le32(FileCrc(copy)));
    var payload := s.front(j) + Le32(FileCrc(copy));
    Le32RoundTrip(FileCrc(copy));
    assert payload[|payload| - 4..] == Le32(FileCrc(copy));
    if j < k {
      DamageNoticed(copy, contents);
    }
  }

  lemma ReportAnswered(env: Env, s: Server, c: Client, w: World, id: Id, code: nat)
    requires s.Valid() && Serves(env, s) && Quiet(w)
    requires code == CRC_CORRECT || code == CRC_INCORRECT_RESEND || code == CRC_INCORRECT_DONE
    ensures Quiet(ReportCrc(env, c, w, id, code))
    ensures code == CRC_CORRECT ==> ReportConfirmed(env, c, w, id, code)
  {
    hide Reply; hide Talk; hide Quiet; hide Copy; hide Serves; hide Requests; hide Server.Valid;
    var r := CrcStatusRequest(env, c, |w.trace|, id, code);
    ServerAnswers(env, s, w, r);
    LastOf(Requests(w.trace), r);
  }

  lemma {:induction false} LoopDecided(env: Env, s: Server, c: Client, w: World, file: Request, id: Id, contents: bytes,
                                       k: nat, retries: nat, max: nat)
    requires Upload(env, s, file, contents, k) && Quiet(w)
    requires Count(w.trace, SEND_FILE) == retries <= k && retries <= max
    ensures var end := RetryLoop(env, c, w, file, id, retries, max);
            var t := end.world.trace;
            && (end.status <==> k < max) && end.retries == Min(k, max) && Quiet(end.world)
            && Count(t, SEND_FILE) == Min(k + 1, max)
            && Count(t, CRC_INCORRECT_RESEND) == Count(w.trace, CRC_INCORRECT_RESEND) + Min(k, max) - retries
            && Count(t, CRC_CORRECT) == Count(w.trace, CRC_CORRECT) + (if k < max then 1 else 0)
            && Count(t, CRC_INCORRECT_DONE) == Count(w.trace, CRC_INCORRECT_DONE)
    decreases max - retries
  {
    hide Reply; hide Talk; hide Quiet; hide Matches; hide Count; hide Upload; hide Request.Valid; hide CrcStatusRequest;
    assert file.Valid() && file.code == SEND_FILE && s.Valid() && Serves(env, s) by {
      UploadParts(env, s, file, contents, k);
    }
    if retries < max {
      var w1 := Talk(env, w, file);
      DeliveryAnswered(env, s, w, file, contents, k);
      CountFour(env, w, file);
      if retries == k {
        ReportAnswered(env, s, c, w1, id, CRC_CORRECT);
        CountFour(env, w1, CrcStatusRequest(env, c, |w1.trace|, id, CRC_CORRECT));
        StatusCode(env, c, |w1.trace|, id, CRC_CORRECT);
      } else {
        ReportAnswered(env, s, c, w1, id, CRC_INCORRECT_RESEND);
        CountFour(env, w1, CrcStatusRequest(env, c, |w1.trace|, id, CRC_INCORRECT_RESEND));
        StatusCode(env, c, |w1.trace|, id, CRC_INCORRECT_RESEND);
        LoopDecided(env, s, c, ReportCrc(env, c, w1, id, CRC_INCORRECT_RESEND), file, id, contents, k, retries + 1,
                    max);
      }
    }
  }

  lemma UploadParts(env: Env, s: Server, file: Request, contents: bytes, k: nat)
    requires Upload(env, s, file, contents, k)
    ensures file.Valid() && file.code == SEND_FILE && s.Valid() && Serves(env, s)
  {}

  lemma StatusCode(env: Env, c: Client, moment: nat, id: Id, code: nat)
    requires code < 0x1_0000
    ensures CrcStatusRequest(env, c, moment, id, code).code == code
  {}

  lemma CountFour(env: Env, w: World, r: Request)
    requires r.Valid()
    ensures var t, u := w.trace, Talk(env, w, r).trace;
            && Count(u, SEND_FILE) == Count(t, SEND_FILE) + (if r.code == SEND_FILE then 1 else 0)
            && Count(u, CRC_CORRECT) == Count(t, CRC_CORRECT) + (if r.code == CRC_CORRECT then 1 else 0)
            && Count(u, CRC_INCORRECT_RESEND) == Count(t, CRC_INCORRECT_RESEND)
                + (if r.code == CRC_INCORRECT_RESEND then 1 else 0)
            && Count(u, CRC_INCORRECT_DONE) == Count(t, CRC_INCORRECT_DONE)
                + (if r.code == CRC_INCORRECT_DONE then 1 else 0)
  {
    CountTalk(env, w, r, SEND_FILE);
    CountTalk(env, w, r, CRC_CORRECT);
    CountTalk(env, w, r, CRC_INCORRECT_RESEND);
    CountTalk(env, w, r, CRC_INCORRECT_DONE);
  }

  // How the number of damaged deliveries shows in the trace: with fewer than
  // maxRetries the upload succeeds after one more, otherwise it gives up.
  predicate Decided(t0: seq<Event>, t: seq<Event>, status: bool, k: nat, max: nat) {
    && (status <==> k < max)
    && Count(t, SEND_FILE) == Min(k + 1, max)
    && Count(t, CRC_INCORRECT_RESEND) == Count(t0, CRC_INCORRECT_RESEND) + Min(k, max)
    && Count(t, CRC_CORRECT) == Count(t0, CRC_CORRECT) + (if k < max then 1 else 0)
    && Count(t, CRC_INCORRECT_DONE) == Count(t0, CRC_INCORRECT_DONE) + (if k < max then 0 else 1)
    && |t| >= 2 && t[|t| - 2].Sent?
    && t[|t| - 2].request.code == if k < max then CRC_CORRECT else CRC_INCORRECT_DONE
  }

  lemma UploadDecided(env: Env, s: Server, c: Client, w: World, file: Request, id: Id, contents: bytes, k: nat,
                      max: nat)
    requires file.Valid() && Upload(env, s, file, contents, k) && Quiet(w) && Count(w.trace, SEND_FILE) == 0
    ensures var (status, w') := SendFile(env, c, w, file, id, max);
            Decided(w.trace, w'.trace, status, k, max)
  {
    hide Reply; hide Talk; hide Quiet; hide Count; hide Upload; hide Request.Valid; hide CrcStatusRequest;
    hide RetryLoop;
    LoopDecided(env, s, c, w, file, id, contents, k, 0, max);
    var end := RetryLoop(env, c, w, file, id, 0, max);
    if k >= max {
      var r := CrcStatusRequest(env, c, |end.world.trace|, id, CRC_INCORRECT_DONE);
      CountFour(env, end.world, r);
      TalkTrace(env, end.world, r);
      StatusCode(env, c, |end.world.trace|, id, CRC_INCORRECT_DONE);
    } else {
      LoopEndsWithReport(env, c, w, file, id, 0, max);
    }
  }

  lemma {:induction false} LoopEndsWithReport(env: Env, c: Client, w: World, file: Request, id: Id, retries: int,
                                              max: int)
    requires file.Valid()
    ensures var end := RetryLoop(env, c, w, file, id, retries, max);
            var t := end.world.trace;
            end.status ==> |t| >= 2 && t[|t| - 2].Sent? && t[|t| - 2].request.code == CRC_CORRECT
    decreases max - retries
  {
    hide Reply; hide Talk; hide Matches; hide Request.Valid;
    if retries >= max {
    } else {
      var w1 := Talk(env, w, file);
      TalkTrace(env, w1, CrcStatusRequest(env, c, |w1.trace|, id, CRC_CORRECT));
      LoopEndsWithReport(env, c, w1, file, id, retries + 1, max);
      LoopEndsWithReport(env, c, ReportCrc(env, c, w1, id, CRC_INCORRECT_RESEND), file, id, retries + 1, max);
    }
  }

  // ---------------------------------------------------------------------
  // From the encrypted key to the verdict.

  // The client and the server share a cipher for this file, and the file's
  // path fits its field. The channel damages the first k deliveries.
  ghost predicate Shared(env: Env, s: Server, c: Client, aesKey: bytes, contents: bytes, k: nat) {
    && s.Valid() && Serves(env, s)
    && env.checksum(contents) == FileCrc(contents)
    && |aesKey| == 16
    && 0 !in c.filePath && |c.filePath| <= 255
    && (forall moment :: env.file(moment) == Some(contents))
    && (forall moment :: var cipher := env.aesEncrypt(contents, aesKey, moment);
          s.decrypt(cipher) == contents && 259 + 2 * |cipher| < 0x1_0000_0000)
    && (forall j | 0 <= j < k :: Damaged(s.channel(j, contents), contents))
    && s.channel(k, contents) == contents
  }

  // What the server reads out of a file request is the file.
  lemma CopyOfFile(s: Server, path: bytes, cipher: bytes, j: nat)
    requires 0 !in path && |path| <= 255 && 259 + 2 * |cipher| < 0x1_0000_0000
    ensures Copy(s, j, Payloads.SentFilePayload(path, Hex.HexOf(cipher))) == Some(s.channel(j, s.decrypt(cipher)))
  {
    hide Payloads.SentFilePayload; hide Payloads.ParseFilePayload; hide Hex.HexOf; hide Hex.Unhex;
    Hex.HexRoundTrip(cipher);
    Payloads.FilePayloadRoundTrip(path, cipher);
  }

  lemma EncryptedUpload(env: Env, s: Server, c: Client, moment: nat, id: Id, aesKey: bytes, contents: bytes, k: nat)
    requires Shared(env, s, c, aesKey, contents, k)
    ensures Upload(env, s, FileRequest(env, c, moment, id, Hex.HexOf(env.aesEncrypt(contents, aesKey, moment))),
                   contents, k)
  {
    hide Copy; hide Damaged; hide Payloads.SentFilePayload; hide Hex.HexOf; hide Server.Valid; hide Serves;
    var cipher := env.aesEncrypt(contents, aesKey, moment);
    var file := FileRequest(env, c, moment, id, Hex.HexOf(cipher));
    forall j: nat ensures Copy(s, j, file.payload) == Some(s.channel(j, contents)) {
      CopyOfFile(s, c.filePath, cipher, j);
    }
  }

  lemma EncryptAndSendDecided(env: Env, s: Server, c: Client, w: World, encryptedKey: bytes, privateKey: bytes, id: Id,
                              aesKey: bytes, contents: bytes, k: nat)
    requires Shared(env, s, c, aesKey, contents, k) && Quiet(w) && Count(w.trace, SEND_FILE) == 0
    requires env.rsaDecrypt(encryptedKey, privateKey) == Some(aesKey)
    ensures var (outcome, w') := EncryptAndSend(env, c, w, encryptedKey, privateKey, id);
            outcome == Returned(k < 3) && Decided(w.trace, w'.trace, k < 3, k, 3)
  {
    assert |aesKey| == 16 && env.file(|w.trace|) == Some(contents);
    EncryptedUpload(env, s, c, |w.trace|, id, aesKey, contents, k);
    hide Shared; hide Upload; hide Quiet; hide SendFile; hide FileRequest; hide Hex.HexOf; hide Count; hide Decided;
    hide Request.Valid;
    var file := FileRequest(env, c, |w.trace|, id, Hex.HexOf(env.aesEncrypt(contents, aesKey, |w.trace|)));
    UploadDecided(env, s, c, w, file, id, contents, k, 3);
    DecidedStatus(w.trace, SendFile(env, c, w, file, id, 3).1.trace, SendFile(env, c, w, file, id, 3).0, k, 3);
  }

  lemma DecidedStatus(t0: seq<Event>, t: seq<Event>, status: bool, k: nat, max: nat)
    requires Decided(t0, t, status, k, max)
    ensures status == (k < max)
  {}
}
