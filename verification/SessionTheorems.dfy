// What holds of every session, that is of everything the client does on one
// connection: it stays inside the language, its requests hold what their codes
// call for and agree on the client id, and it returns true exactly when the
// server confirmed the checksum.
module SessionTheorems {
  import opened Bytes
  import opened Wire
  import opened Network
  import opened Session
  import opened Language
  import opened Retry
  import FileHandler
  import Hex
  import Payloads

  // ---------------------------------------------------------------------
  // The client id over a run.

  predicate IsConnection(code: nat) {
    code == REGISTRATION || code == RECONNECT
  }

  // The id assigned by the last connection answer in the trace.
  function IdOf(env: Env, t: seq<Event>): Option<Id>
    decreases |t|
  {
    if |t| < 2 then None
    else
      var n := |t| - 1;
      if t[n].Received? && t[n - 1].Sent? && IsConnection(t[n - 1].request.code)
      then Some(Overlay(StackId(env, n - 1), t[n].response.payload))
      else IdOf(env, t[..n])
  }

  // Connection requests carry no id, all others the one last assigned.
  predicate CarriesId(env: Env, t: seq<Event>, r: Request) {
    if IsConnection(r.code) then r.clientId == Fill(16, 0)
    else IdOf(env, t).Some? && IdOf(env, t).value == r.clientId
  }

  ghost predicate IdsAgree(env: Env, t: seq<Event>) {
    forall i | 0 <= i < |t| && t[i].Sent? :: CarriesId(env, t[..i], t[i].request)
  }

  lemma IdsAgreeStep(env: Env, t: seq<Event>, e: Event)
    requires IdsAgree(env, t)
    requires e.Sent? ==> CarriesId(env, t, e.request)
    ensures IdsAgree(env, t + [e])
  {
    hide CarriesId;
    var u := t + [e];
    forall i | 0 <= i < |u| && u[i].Sent? ensures CarriesId(env, u[..i], u[i].request) {
      if i < |t| {
        assert u[i] == t[i] && u[..i] == t[..i];
      } else {
        assert u[..i] == t;
      }
    }
  }

  lemma IdAfterTalk(env: Env, t: seq<Event>, r: Request, answer: Response)
    ensures IdOf(env, t + [Sent(r)] + [Received(answer)]) ==
      if IsConnection(r.code) then Some(Overlay(StackId(env, |t|), answer.payload)) else IdOf(env, t)
  {
    hide Overlay; hide StackId;
    var u := t + [Sent(r)];
    var v := u + [Received(answer)];
    assert v[..|u|] == u && u[..|t|] == t;
    if !IsConnection(r.code) {
      assert IdOf(env, v) == IdOf(env, u);
      assert IdOf(env, u) == IdOf(env, t);
    }
  }

  predicate ConnectionAnswer(t: seq<Event>, j: nat)
    requires 0 < j < |t|
  {
    t[j].Received? && t[j - 1].Sent? && IsConnection(t[j - 1].request.code)
  }

  lemma {:induction false} IdSince(env: Env, t: seq<Event>, j: nat, n: nat)
    requires 0 < j < n <= |t| && ConnectionAnswer(t, j)
    requires forall m | j < m < n :: !ConnectionAnswer(t, m)
    ensures IdOf(env, t[..n]) == Some(Overlay(StackId(env, j - 1), t[j].response.payload))
    decreases n
  {
    hide Overlay; hide StackId;
    var u := t[..n];
    assert u[n - 1] == t[n - 1] && u[n - 2] == t[n - 2];
    if n > j + 1 {
      IdSince(env, t, j, n - 1);
      assert u[..n - 1] == t[..n - 1];
      assert !ConnectionAnswer(t, n - 1);
    }
  }

  // Until the next connection answer, every request carries what this one left
  // in the client id: its first sixteen bytes or fewer, in their places, and
  // after them what the stack held.
  lemma RequestsCarryAnswer(env: Env, t: seq<Event>, j: nat, i: nat)
    requires IdsAgree(env, t) && 0 < j < i < |t| && ConnectionAnswer(t, j)
    requires forall m | j < m < i :: !ConnectionAnswer(t, m)
    requires t[i].Sent? && !IsConnection(t[i].request.code)
    ensures var p, id := t[j].response.payload, t[i].request.clientId;
            && |id| == 16
            && forall b | 0 <= b < 16 :: id[b] == if b < |p| then p[b] else StackId(env, j - 1)[b]
  {
    IdSince(env, t, j, i);
    OverlayBytes(StackId(env, j - 1), t[j].response.payload);
    hide Overlay; hide StackId;
    assert CarriesId(env, t[..i], t[i].request);
  }

  lemma OverlayBytes(old_: Id, p: bytes)
    ensures forall b | 0 <= b < 16 :: Overlay(old_, p)[b] == if b < |p| then p[b] else old_[b]
  {}

  // What is carried does not depend on the stack exactly when the answer had
  // sixteen bytes or more.
  lemma StackLeftOut(payload: bytes)
    ensures (forall x: Id, y: Id :: Overlay(x, payload) == Overlay(y, payload)) <==> |payload| >= 16
  {
    if |payload| < 16 {
      assert Overlay(Fill(16, 0), payload)[15] == 0 && Overlay(Fill(16, 1), payload)[15] == 1;
    }
  }

  // ---------------------------------------------------------------------
  // What the requests hold.

  // The payload that belongs to each code.
  ghost predicate Shaped(env: Env, c: Client, r: Request) {
    && r.Valid()
    && r.version == PROTOCOL_VERSION
    && (IsConnection(r.code) ==> r.payload == Payloads.NamePayload(c.name))
    && (r.code == SEND_PUBLIC_KEY ==> exists moment :: HoldsKey(env, c, r, moment))
    && (r.code == SEND_FILE ==> exists cipher :: HoldsFile(c, r, cipher))
    && (r.code > SEND_FILE ==> exists moment :: HoldsPath(env, c, r, moment))
  }

  // The name and a key generated by then.
  predicate HoldsKey(env: Env, c: Client, r: Request, moment: nat) {
    var whole := Payloads.PublicKeyPayload(c.name, env.keys(moment).0);
    r.payload == whole[..|whole| % 0x1_0000_0000]
  }

  predicate HoldsFile(c: Client, r: Request, cipher: bytes) {
    r.payload == Payloads.SentFilePayload(c.filePath, Hex.HexOf(cipher))
  }

  predicate HoldsPath(env: Env, c: Client, r: Request, moment: nat) {
    r.payload == PathPayload(env, moment, c.filePath)
  }

  ghost predicate AllShaped(env: Env, c: Client, t: seq<Event>) {
    forall i | 0 <= i < |t| && t[i].Sent? :: Shaped(env, c, t[i].request)
  }

  lemma ShapedStep(env: Env, c: Client, t: seq<Event>, r: Request, answer: Response)
    requires AllShaped(env, c, t) && Shaped(env, c, r)
    ensures AllShaped(env, c, t + [Sent(r)] + [Received(answer)])
  {
    hide Shaped;
  }

  lemma ConnectionShaped(env: Env, c: Client, moment: nat, code: nat)
    requires IsConnection(code)
    ensures Shaped(env, c, ConnectionRequest(env, c, moment, code))
  {}

  lemma KeyShaped(env: Env, c: Client, moment: nat, id: Id)
    ensures Shaped(env, c, PublicKeyRequest(env, c, moment, id, env.keys(moment).0))
  {
    hide Payloads.PublicKeyPayload;
    assert HoldsKey(env, c, PublicKeyRequest(env, c, moment, id, env.keys(moment).0), moment);
  }

  lemma FileShaped(env: Env, c: Client, moment: nat, id: Id, cipher: bytes)
    ensures Shaped(env, c, FileRequest(env, c, moment, id, Hex.HexOf(cipher)))
  {
    hide Payloads.SentFilePayload; hide Hex.HexOf;
    assert HoldsFile(c, FileRequest(env, c, moment, id, Hex.HexOf(cipher)), cipher);
  }

  lemma StatusShaped(env: Env, c: Client, moment: nat, id: Id, code: nat)
    requires SEND_FILE < code < 0x1_0000
    ensures Shaped(env, c, CrcStatusRequest(env, c, moment, id, code))
  {
    hide PathPayload;
    assert HoldsPath(env, c, CrcStatusRequest(env, c, moment, id, code), moment);
  }

  // ---------------------------------------------------------------------
  // Where a connection stands: its phase and the id assigned, its requests in
  // agreement on ids and its bytes in step with them.

  ghost predicate At(env: Env, c: Client, start: Phase, w: World, max: nat, p: Phase, id: Option<Id>) {
    && start != Bad
    && p != Bad
    && After(env, start, w.trace, max) == p
    && IdsAgree(env, w.trace)
    && AllShaped(env, c, w.trace)
    && IdOf(env, w.trace) == id
    && InStep(w)
  }

  lemma AtOpened(env: Env, c: Client, start: Phase, disk: World, max: nat)
    requires start != Bad
    ensures At(env, c, start, Opened(disk), max, start, None)
  {
    assert ParseAll([]) == Some([]) by { ParseAllNothing(); }
  }

  // Files on disk play no part.
  lemma AtFiles(env: Env, c: Client, start: Phase, w: World, w': World, max: nat, p: Phase, id: Option<Id>)
    requires At(env, c, start, w, max, p, id) && w'.trace == w.trace && w'.outgoing == w.outgoing
    ensures At(env, c, start, w', max, p, id)
  {}

  lemma JudgeNotBad(env: Env, p: Phase, code: nat, moment: nat, r: Response, max: nat)
    requires MaySend(p, code, max)
    ensures Judge(env, p, code, moment, r) != Bad
  {}

  function IdAfter(env: Env, moment: nat, code: nat, answer: Response, id: Option<Id>): Option<Id> {
    if IsConnection(code) then Some(Overlay(StackId(env, moment), answer.payload)) else id
  }

  lemma TalkAt(env: Env, c: Client, start: Phase, w: World, max: nat, p: Phase, id: Option<Id>, r: Request)
    requires At(env, c, start, w, max, p, id)
    requires r.Valid() && MaySend(p, r.code, max) && CarriesId(env, w.trace, r) && Shaped(env, c, r)
    ensures var answer := Reply(env, w, r);
            At(env, c, start, Talk(env, w, r), max, Judge(env, p, r.code, |w.trace| + 2, answer),
               IdAfter(env, |w.trace|, r.code, answer, id))
  {
    var answer := Reply(env, w, r);
    TalkTrace(env, w, r);
    TalkInStep(env, w, r);
    hide Talk; hide Reply; hide Judge; hide MaySend; hide InStep; hide CarriesId; hide IdsAgree; hide After; hide IdOf;
    hide Overlay; hide StackId; hide Request.Valid; hide Shaped; hide AllShaped;
    JudgeNotBad(env, p, r.code, |w.trace| + 2, answer, max);
    AfterStep(env, start, w.trace, Sent(r), max);
    AfterStep(env, start, w.trace + [Sent(r)], Received(answer), max);
    IdsAgreeStep(env, w.trace, Sent(r));
    ShapedStep(env, c, w.trace, r, answer);
    IdsAgreeStep(env, w.trace + [Sent(r)], Received(answer));
    IdAfterTalk(env, w.trace, r, answer);
  }

  lemma CarriesOwnId(env: Env, c: Client, start: Phase, w: World, max: nat, p: Phase, id: Id, r: Request)
    requires At(env, c, start, w, max, p, Some(id)) && !IsConnection(r.code) && r.clientId == id
    ensures CarriesId(env, w.trace, r)
  {}

  // ---------------------------------------------------------------------
  // The upload.

  lemma ReportAt(env: Env, c: Client, start: Phase, w: World, max: nat, p: Phase, id: Id, code: nat)
    requires At(env, c, start, w, max, p, Some(id)) && MaySend(p, code, max)
    requires code == CRC_CORRECT || code == CRC_INCORRECT_RESEND || code == CRC_INCORRECT_DONE
    ensures var r := CrcStatusRequest(env, c, |w.trace|, id, code);
            At(env, c, start, ReportCrc(env, c, w, id, code), max,
               Judge(env, p, code, |w.trace| + 2, Reply(env, w, r)), Some(id))
  {
    hide At; hide Talk; hide Reply; hide Judge; hide MaySend; hide CarriesId; hide Shaped; hide PathPayload;
    var r := CrcStatusRequest(env, c, |w.trace|, id, code);
    CarriesOwnId(env, c, start, w, max, p, id, r);
    StatusShaped(env, c, |w.trace|, id, code);
    TalkAt(env, c, start, w, max, p, Some(id), r);
  }

  lemma {:induction false} LoopAt(env: Env, c: Client, start: Phase, w: World, file: Request, id: Id, retries: nat,
                                  max: nat)
    requires file.Valid() && file.code == SEND_FILE && file.clientId == id && Shaped(env, c, file) && retries <= max
    requires At(env, c, start, w, max, Ready(retries), Some(id))
    ensures var end := RetryLoop(env, c, w, file, id, retries, max);
            At(env, c, start, end.world, max, if end.retries == max then Ready(max) else Finished, Some(id))
    decreases max - retries
  {
    hide At; hide Talk; hide Reply; hide CarriesId; hide Matches; hide ReportCrc; hide ReportConfirmed;
    hide Request.Valid;
    hide Shaped;
    if retries < max {
      var answer := Reply(env, w, file);
      var w1 := Talk(env, w, file);
      CarriesOwnId(env, c, start, w, max, Ready(retries), id, file);
      TalkAt(env, c, start, w, max, Ready(retries), Some(id), file);
      assert |w1.trace| == |w.trace| + 2 by { TalkTrace(env, w, file); }
      if answer.code != FILE_RECEIVED_CRC_OK {
        LoopAt(env, c, start, w1, file, id, retries + 1, max);
      } else if Matches(env, |w1.trace|, answer) {
        ReportAt(env, c, start, w1, max, Matched(retries), id, CRC_CORRECT);
      } else {
        ReportAt(env, c, start, w1, max, Mismatched(retries), id, CRC_INCORRECT_RESEND);
        LoopAt(env, c, start, ReportCrc(env, c, w1, id, CRC_INCORRECT_RESEND), file, id, retries + 1, max);
      }
    }
  }

  lemma SendFileAt(env: Env, c: Client, start: Phase, w: World, file: Request, id: Id, max: nat)
    requires file.Valid() && file.code == SEND_FILE && file.clientId == id && Shaped(env, c, file)
    requires At(env, c, start, w, max, Ready(0), Some(id))
    ensures At(env, c, start, SendFile(env, c, w, file, id, max).1, max, Finished, Some(id))
  {
    hide At; hide RetryLoop; hide ReportCrc; hide Reply; hide Shaped;
    LoopAt(env, c, start, w, file, id, 0, max);
    var end := RetryLoop(env, c, w, file, id, 0, max);
    if end.retries == max {
      ReportAt(env, c, start, end.world, max, Ready(max), id, CRC_INCORRECT_DONE);
    }
  }

  lemma {:induction false} LoopKeepsFiles(env: Env, c: Client, w: World, file: Request, id: Id, retries: int, max: int)
    requires file.Valid()
    ensures var w' := RetryLoop(env, c, w, file, id, retries, max).world;
            w'.meInfo == w.meInfo && w'.privateKey == w.privateKey
    decreases max - retries
  {
    hide Talk; hide Reply; hide Matches; hide Request.Valid;
    if retries >= max {
    } else {
      var w1 := Talk(env, w, file);
      TalkTrace(env, w, file);
      LoopKeepsFiles(env, c, w1, file, id, retries + 1, max);
      TalkTrace(env, w1, CrcStatusRequest(env, c, |w1.trace|, id, CRC_CORRECT));
      TalkTrace(env, w1, CrcStatusRequest(env, c, |w1.trace|, id, CRC_INCORRECT_RESEND));
      LoopKeepsFiles(env, c, ReportCrc(env, c, w1, id, CRC_INCORRECT_RESEND), file, id, retries + 1, max);
    }
  }

  lemma SendFileKeepsFiles(env: Env, c: Client, w: World, file: Request, id: Id, max: int)
    requires file.Valid()
    ensures var w' := SendFile(env, c, w, file, id, max).1;
            w'.meInfo == w.meInfo && w'.privateKey == w.privateKey
  {
    hide Talk; hide RetryLoop;
    LoopKeepsFiles(env, c, w, file, id, 0, max);
    var w1 := RetryLoop(env, c, w, file, id, 0, max).world;
    TalkTrace(env, w1, CrcStatusRequest(env, c, |w1.trace|, id, CRC_INCORRECT_DONE));
  }

  // ---------------------------------------------------------------------
  // From the keys to the end.

  // The me.info file is as before or holds this name and this id.
  ghost predicate SavedFor(before: Option<bytes>, w: World, c: Client, id: Option<Id>) {
    || w.meInfo == before
    || (id.Some? && exists keyText: bytes :: w.meInfo == Some(FileHandler.MeInfoText(c.name, id.value, keyText)))
  }

  // Where each outcome leaves a connection. A runtime error can only come
  // before the first file.
  predicate Leaves(outcome: Outcome, p: Phase) {
    match outcome
    case Returned(_) => p == Finished
    case RuntimeError => p == Identified || p == Ready(0)
    case OtherError => p == Ready(0)
  }

  ghost predicate Ended(env: Env, c: Client, start: Phase, before: Option<bytes>, w: World, outcome: Outcome,
                        id: Option<Id>) {
    && (exists p :: At(env, c, start, w, 3, p, id) && SavedFor(before, w, c, id) && Leaves(outcome, p))
    && (outcome == Returned(true) <==> Confirmed(env, w.trace))
  }

  lemma EndedAt(env: Env, c: Client, start: Phase, before: Option<bytes>, w: World, outcome: Outcome, p: Phase,
                id: Option<Id>)
    requires At(env, c, start, w, 3, p, id) && SavedFor(before, w, c, id) && Leaves(outcome, p)
    requires outcome == Returned(true) <==> Confirmed(env, w.trace)
    ensures Ended(env, c, start, before, w, outcome, id)
  {}

  // A trace that ends otherwise than with a report of a match is not confirmed.
  lemma TalkNotConfirmed(env: Env, w: World, r: Request)
    requires r.Valid() && r.code != CRC_CORRECT
    ensures !Confirmed(env, Talk(env, w, r).trace)
  {
    TalkTrace(env, w, r);
    hide Talk; hide Reply; hide Verdict;
  }

  lemma {:induction false} CountedOnce(t: seq<Event>, code: nat, i: nat)
    requires i < |t| && Asked(t[i], code)
    ensures Count(t, code) > 0
    decreases |t|
  {
    var n := |t| - 1;
    if i < n {
      assert t[..n][i] == t[i];
      CountedOnce(t[..n], code, i);
    }
  }

  lemma EarlyNotConfirmed(env: Env, start: Phase, t: seq<Event>)
    requires IsStart(start)
    requires After(env, start, t, 3) == Identified || After(env, start, t, 3) == Ready(0)
    ensures !Confirmed(env, t)
  {
    hide After; hide TallyOf; hide Verdict;
    CountsFit(env, start, t, 3);
    NoCorrects(env, After(env, start, t, 3), t);
    if Confirmed(env, t) {
      CountedOnce(t, CRC_CORRECT, |t| - 2);
    }
  }

  lemma NoCorrects(env: Env, p: Phase, t: seq<Event>)
    requires Fits(p, TallyOf(env, t), 3) && (p == Identified || p == Ready(0))
    ensures Count(t, CRC_CORRECT) == 0
  {}

  lemma FileRequestHeader(env: Env, c: Client, moment: nat, id: Id, content: bytes)
    ensures FileRequest(env, c, moment, id, content).code == SEND_FILE
    ensures FileRequest(env, c, moment, id, content).clientId == id
  {}

  lemma PublicKeyRequestHeader(env: Env, c: Client, moment: nat, id: Id, publicKey: bytes)
    ensures PublicKeyRequest(env, c, moment, id, publicKey).code == SEND_PUBLIC_KEY
    ensures PublicKeyRequest(env, c, moment, id, publicKey).clientId == id
  {}

  lemma EncryptAndSendEnds(env: Env, c: Client, start: Phase, before: Option<bytes>, w: World,
                           encryptedKey: bytes, privateKey: bytes, id: Id)
    requires IsStart(start)
    requires At(env, c, start, w, 3, Ready(0), Some(id)) && SavedFor(before, w, c, Some(id))
    ensures var (outcome, w') := EncryptAndSend(env, c, w, encryptedKey, privateKey, id);
            Ended(env, c, start, before, w', outcome, Some(id))
  {
    assert After(env, start, w.trace, 3) == Ready(0);
    hide At; hide Ended; hide SendFile; hide FileRequest; hide Hex.HexOf; hide FileHandler.MeInfoText; hide Shaped;
    hide After; hide Confirmed; hide SameFile; hide TallyOf; hide Request.Valid;
    var (outcome, w') := EncryptAndSend(env, c, w, encryptedKey, privateKey, id);
    if outcome.Returned? {
      var contents := env.file(|w.trace|).value;
      var aesKey := env.rsaDecrypt(encryptedKey, privateKey).value;
      var content := Hex.HexOf(env.aesEncrypt(contents, aesKey, |w.trace|));
      var file := FileRequest(env, c, |w.trace|, id, content);
      FileRequestHeader(env, c, |w.trace|, id, content);
      FileShaped(env, c, |w.trace|, id, env.aesEncrypt(contents, aesKey, |w.trace|));
      SendFileAt(env, c, start, w, file, id, 3);
      SendFileKeepsFiles(env, c, w, file, id, 3);
      UploadOutcome(env, c, start, w, file, id, 3);
      EndedAt(env, c, start, before, w', outcome, Finished, Some(id));
    } else {
      EarlyNotConfirmed(env, start, w.trace);
      EndedAt(env, c, start, before, w, outcome, Ready(0), Some(id));
    }
  }

  lemma ExchangeKeysAt(env: Env, c: Client, start: Phase, before: Option<bytes>, w: World, id: Id)
    requires IsStart(start)
    requires At(env, c, start, w, 3, Identified, Some(id)) && SavedFor(before, w, c, Some(id))
    ensures var step := ExchangeKeys(env, c, w, id);
            && !Confirmed(env, step.world.trace)
            && SavedFor(before, step.world, c, Some(id))
            && At(env, c, start, step.world, 3,
                  if step.outcome.None? then Identified
                  else if step.outcome.value.code == RECEIVED_PUBLIC_KEY_SEND_AES then Ready(0) else Finished,
                  Some(id))
  {
    assert After(env, start, w.trace, 3) == Identified;
    hide At; hide Talk; hide Reply; hide CarriesId; hide PublicKeyRequest; hide FileHandler.MeInfoText; hide Shaped;
    hide After; hide Confirmed;
    var step := ExchangeKeys(env, c, w, id);
    var keys := env.keys(|w.trace|);
    if step.outcome.None? {
      EarlyNotConfirmed(env, start, w.trace);
      AtFiles(env, c, start, w, step.world, 3, Identified, Some(id));
    } else {
      var w2 := w.(privateKey := Some(keys.1), meInfo := Some(FileHandler.MeInfoText(c.name, id, env.base64(keys.1))));
      var r := PublicKeyRequest(env, c, |w.trace|, id, keys.0);
      PublicKeyRequestHeader(env, c, |w.trace|, id, keys.0);
      KeyShaped(env, c, |w.trace|, id);
      AtFiles(env, c, start, w, w2, 3, Identified, Some(id));
      CarriesOwnId(env, c, start, w2, 3, Identified, id, r);
      TalkAt(env, c, start, w2, 3, Identified, Some(id), r);
      TalkTrace(env, w2, r);
      TalkNotConfirmed(env, w2, r);
    }
  }

  lemma FinishEnds(env: Env, c: Client, start: Phase, before: Option<bytes>, w: World, id: Id)
    requires IsStart(start)
    requires At(env, c, start, w, 3, Identified, Some(id)) && SavedFor(before, w, c, Some(id))
    ensures var (outcome, w') := Finish(env, c, w, id);
            Ended(env, c, start, before, w', outcome, Some(id))
  {
    hide At; hide Ended; hide ExchangeKeys; hide EncryptAndSend; hide SavedFor; hide Confirmed;
    var step := ExchangeKeys(env, c, w, id);
    var (outcome, w') := Finish(env, c, w, id);
    ExchangeKeysAt(env, c, start, before, w, id);
    if step.outcome.None? {
      EndedAt(env, c, start, before, w', outcome, Identified, Some(id));
    } else if step.outcome.value.code != RECEIVED_PUBLIC_KEY_SEND_AES {
      EndedAt(env, c, start, before, w', outcome, Finished, Some(id));
    } else if |step.outcome.value.payload| < 16 {
      EndedAt(env, c, start, before, w', outcome, Ready(0), Some(id));
    } else {
      EncryptAndSendEnds(env, c, start, before, step.world, step.outcome.value.payload[16..], step.privateKey, id);
    }
  }

  lemma ConnectAt(env: Env, c: Client, start: Phase, w: World, p: Phase, id0: Option<Id>, code: nat)
    requires At(env, c, start, w, 3, p, id0) && IsConnection(code) && MaySend(p, code, 3)
    ensures var (answer, id, w') := Connect(env, c, w, code);
            && At(env, c, start, w', 3, Judge(env, p, code, |w.trace| + 2, answer), Some(id))
            && SavedFor(w.meInfo, w', c, Some(id))
            && !Confirmed(env, w'.trace)
  {
    hide At; hide Talk; hide Reply; hide Judge; hide MaySend; hide Overlay; hide StackId; hide Shaped; hide Confirmed;
    var r := ConnectionRequest(env, c, |w.trace|, code);
    ConnectionShaped(env, c, |w.trace|, code);
    TalkAt(env, c, start, w, 3, p, id0, r);
    TalkTrace(env, w, r);
    TalkNotConfirmed(env, w, r);
  }

  lemma ConnectKeepsFiles(env: Env, c: Client, w: World, code: nat)
    requires code < 0x1_0000
    ensures Connect(env, c, w, code).2.meInfo == w.meInfo
  {
    TalkTrace(env, w, ConnectionRequest(env, c, |w.trace|, code));
  }

  // The id a session ends with.

  function RegisterId(env: Env, c: Client, w: World): Id {
    Connect(env, c, w, REGISTRATION).1
  }

  function ReconnectId(env: Env, c: Client, w: World): Id {
    var (answer, id, w1) := Connect(env, c, w, RECONNECT);
    if answer.code == RECONNECT_REJECTED then RegisterId(env, c, w1) else id
  }

  lemma RegisterEnds(env: Env, c: Client, start: Phase, w: World, id0: Option<Id>)
    requires IsStart(start) && At(env, c, start, w, 3, MustRegister, id0)
    ensures var (outcome, w') := Register(env, c, w);
            Ended(env, c, start, w.meInfo, w', outcome, Some(RegisterId(env, c, w)))
  {
    hide At; hide Ended; hide Connect; hide Finish; hide SavedFor; hide Confirmed;
    var (answer, id, w1) := Connect(env, c, w, REGISTRATION);
    ConnectAt(env, c, start, w, MustRegister, id0, REGISTRATION);
    if answer.code != REGISTRATION_SUCCESS {
      EndedAt(env, c, start, w.meInfo, w1, Returned(false), Finished, Some(id));
    } else {
      FinishEnds(env, c, start, w.meInfo, w1, id);
    }
  }

  lemma ReconnectEnds(env: Env, c: Client, start: Phase, w: World, id0: Option<Id>)
    requires IsStart(start) && At(env, c, start, w, 3, MayReconnect, id0)
    ensures var (outcome, w') := Reconnect(env, c, w);
            Ended(env, c, start, w.meInfo, w', outcome, Some(ReconnectId(env, c, w)))
  {
    hide At; hide Ended; hide Connect; hide Finish; hide Register; hide SavedFor; hide Confirmed;
    var (answer, id, w1) := Connect(env, c, w, RECONNECT);
    ConnectAt(env, c, start, w, MayReconnect, id0, RECONNECT);
    ConnectKeepsFiles(env, c, w, RECONNECT);
    if answer.code == RECONNECT_REJECTED {
      RegisterEnds(env, c, start, w1, Some(id));
    } else if answer.code != APPROVE_RECONNECT_SEND_AES {
      EndedAt(env, c, start, w.meInfo, w1, Returned(false), Finished, Some(id));
    } else {
      FinishEnds(env, c, start, w.meInfo, w1, id);
    }
  }

  // ---------------------------------------------------------------------
  // One connection, whatever the server does.

  ghost predicate SessionSafe(env: Env, c: Client, start: Phase, before: Option<bytes>, w: World, outcome: Outcome) {
    // every event is one the automaton allows, and the last request was answered
    && After(env, start, w.trace, 3) != Bad && !After(env, start, w.trace, 3).Waiting?
    // each request holds what its code calls for
    && AllShaped(env, c, w.trace)
    // the requests agree on the id, and so do they with me.info
    && IdsAgree(env, w.trace) && SavedFor(before, w, c, IdOf(env, w.trace))
    // a reader of the stream gets exactly these requests
    && InStep(w)
    // bounds
    && Sends(w.trace) <= 9 + Base(start) && Count(w.trace, SEND_FILE) <= 3
    // a runtime error comes before the first file, after three requests at most
    && (outcome == RuntimeError ==> Count(w.trace, SEND_FILE) == 0 && Sends(w.trace) <= 2 + Base(start))
    && (outcome == OtherError ==> Count(w.trace, SEND_FILE) == 0)
    // true exactly when a matching checksum was reported and confirmed
    && (outcome == Returned(true) <==> Confirmed(env, w.trace))
    // a session always says something
    && w.trace != []
  }

  lemma EndedIsSafe(env: Env, c: Client, start: Phase, before: Option<bytes>, w: World, outcome: Outcome,
                    id: Option<Id>)
    requires start == MayReconnect || start == MustRegister
    requires Ended(env, c, start, before, w, outcome, id)
    ensures SessionSafe(env, c, start, before, w, outcome) && IdOf(env, w.trace) == id
  {
    hide After; hide IdsAgree; hide AllShaped; hide IdOf; hide InStep; hide Sends; hide Count; hide SavedFor;
    hide Limit;
    hide Fits;
    hide TallyOf; hide Confirmed;
    AfterNothing(env, start, 3);
    var p :| At(env, c, start, w, 3, p, id) && SavedFor(before, w, c, id) && Leaves(outcome, p);
    AtMostTenRequests(env, start, w.trace);
    SendsBounded(env, start, w.trace, 3);
    CountsFit(env, start, w.trace, 3);
    TallyFiles(env, w.trace);
    EarlyPhase(p, TallyOf(env, w.trace), Base(start));
  }

  lemma EarlyPhase(p: Phase, c: Tally, base: nat)
    requires Fits(p, c, 3)
    ensures p == Identified || p == Ready(0) ==> c.files == 0 && Limit(p, base, 3) <= 2 + base
  {}

  lemma RegisterIsSafe(env: Env, c: Client, disk: World)
    ensures var (outcome, w) := Register(env, c, Opened(disk));
            SessionSafe(env, c, MustRegister, disk.meInfo, w, outcome)
            && IdOf(env, w.trace) == Some(RegisterId(env, c, Opened(disk)))
  {
    hide RegisterId; hide At; hide Ended; hide SessionSafe; hide Register;
    AtOpened(env, c, MustRegister, disk, 3);
    RegisterEnds(env, c, MustRegister, Opened(disk), None);
    var (outcome, w) := Register(env, c, Opened(disk));
    EndedIsSafe(env, c, MustRegister, disk.meInfo, w, outcome, Some(RegisterId(env, c, Opened(disk))));
  }

  lemma ReconnectIsSafe(env: Env, c: Client, disk: World)
    ensures var (outcome, w) := Reconnect(env, c, Opened(disk));
            SessionSafe(env, c, MayReconnect, disk.meInfo, w, outcome)
            && IdOf(env, w.trace) == Some(ReconnectId(env, c, Opened(disk)))
  {
    hide ReconnectId; hide At; hide Ended; hide SessionSafe; hide Reconnect;
    AtOpened(env, c, MayReconnect, disk, 3);
    ReconnectEnds(env, c, MayReconnect, Opened(disk), None);
    var (outcome, w) := Reconnect(env, c, Opened(disk));
    EndedIsSafe(env, c, MayReconnect, disk.meInfo, w, outcome, Some(ReconnectId(env, c, Opened(disk))));
  }
}
