// The upload loop against an arbitrary server, for any number of attempts.
module Retry {
  import opened Bytes
  import opened Wire
  import opened Network
  import opened Session
  import opened Language

  predicate Asked(e: Event, code: nat) {
    e.Sent? && e.request.code == code
  }

  predicate Answered(e: Event, code: nat) {
    e.Received? && e.response.code == code
  }

  // The trace ends with a matching checksum, reported and confirmed.
  predicate Confirmed(env: Env, t: seq<Event>) {
    && |t| >= 4
    && Verdict(env, t, |t| - 3, true)
    && Asked(t[|t| - 2], CRC_CORRECT)
    && Answered(t[|t| - 1], CONFIRM_MSG)
  }

  // Every file request from position n on is this one.
  predicate SameFile(t: seq<Event>, n: nat, file: Request) {
    forall i | n <= i < |t| && Asked(t[i], SEND_FILE) :: t[i].request == file
  }

  lemma SameFileStep(t: seq<Event>, n: nat, file: Request, e: Event)
    requires SameFile(t, n, file) && (Asked(e, SEND_FILE) ==> e.request == file)
    ensures SameFile(t + [e], n, file)
  {}

  lemma SameFileTalk(env: Env, w: World, n: nat, file: Request, r: Request)
    requires r.Valid() && SameFile(w.trace, n, file) && (r.code == SEND_FILE ==> r == file)
    ensures SameFile(Talk(env, w, r).trace, n, file)
  {
    TalkTrace(env, w, r);
    hide SameFile; hide Talk; hide Reply;
    SameFileStep(w.trace, n, file, Sent(r));
    SameFileStep(w.trace + [Sent(r)], n, file, Received(Reply(env, w, r)));
  }

  lemma TalkAfter(env: Env, start: Phase, w: World, max: nat, r: Request)
    requires r.Valid() && MaySend(After(env, start, w.trace, max), r.code, max)
    ensures After(env, start, Talk(env, w, r).trace, max)
         == Judge(env, After(env, start, w.trace, max), r.code, |w.trace| + 2, Reply(env, w, r))
  {
    TalkTrace(env, w, r);
    hide Talk; hide Reply; hide Judge; hide MaySend; hide After;
    AfterStep(env, start, w.trace, Sent(r), max);
    AfterStep(env, start, w.trace + [Sent(r)], Received(Reply(env, w, r)), max);
  }

  // The loop's trace, its last events, and where they leave the client.
  ghost predicate LoopSound(env: Env, start: Phase, t0: seq<Event>, file: Request, retries: nat, max: nat,
                            end: LoopEnd) {
    var t := end.world.trace;
    && t0 <= t
    && retries <= end.retries <= max
    && After(env, start, t, max) == (if end.retries == max then Ready(max) else Finished)
    && SameFile(t, |t0|, file)
    && (end.retries == max ==> !end.status)
    && (end.retries < max ==> Reported(env, t, end.status))
  }

  predicate Reported(env: Env, t: seq<Event>, status: bool) {
    && |t| >= 4
    && Verdict(env, t, |t| - 3, true)
    && Asked(t[|t| - 2], CRC_CORRECT)
    && t[|t| - 1].Received?
    && (status <==> t[|t| - 1].response.code == CONFIRM_MSG)
  }

  lemma {:induction false} LoopIsSound(env: Env, c: Client, start: Phase, w: World, n: nat, file: Request, id: Id,
                                       retries: nat, max: nat)
    requires file.Valid() && file.code == SEND_FILE && retries <= max
    requires n <= |w.trace| && SameFile(w.trace, n, file)
    requires After(env, start, w.trace, max) == Ready(retries)
    ensures LoopSound(env, start, w.trace[..n], file, retries, max,
                      RetryLoop(env, c, w, file, id, retries, max))
    decreases max - retries
  {
    hide Talk; hide Reply; hide Matches; hide ReportCrc; hide ReportConfirmed; hide Request.Valid; hide After;
    hide SameFile;
    hide Reported;
    var end := RetryLoop(env, c, w, file, id, retries, max);
    if retries < max {
      var answer := Reply(env, w, file);
      var w1 := Talk(env, w, file);
      TalkTrace(env, w, file);
      TalkAfter(env, start, w, max, file);
      SameFileTalk(env, w, n, file, file);
      if answer.code != FILE_RECEIVED_CRC_OK {
        LoopIsSound(env, c, start, w1, n, file, id, retries + 1, max);
      } else if Matches(env, |w1.trace|, answer) {
        LoopReports(env, c, start, w, n, file, id, retries, max);
      } else {
        ResendKeeps(env, c, start, w1, n, file, id, retries, max);
        LoopIsSound(env, c, start, ReportCrc(env, c, w1, id, CRC_INCORRECT_RESEND), n, file, id, retries + 1, max);
      }
    }
  }

  lemma ResendKeeps(env: Env, c: Client, start: Phase, w: World, n: nat, file: Request, id: Id, retries: nat, max: nat)
    requires n <= |w.trace| && SameFile(w.trace, n, file)
    requires After(env, start, w.trace, max) == Mismatched(retries)
    ensures var w' := ReportCrc(env, c, w, id, CRC_INCORRECT_RESEND);
            && n <= |w'.trace| && w'.trace[..n] == w.trace[..n] && SameFile(w'.trace, n, file)
            && After(env, start, w'.trace, max) == Ready(retries + 1)
  {
    hide Talk; hide Reply; hide SameFile; hide After;
    var r := CrcStatusRequest(env, c, |w.trace|, id, CRC_INCORRECT_RESEND);
    TalkTrace(env, w, r);
    TalkAfter(env, start, w, max, r);
    SameFileTalk(env, w, n, file, r);
  }

  // A matching answer: report it and leave.
  lemma LoopReports(env: Env, c: Client, start: Phase, w: World, n: nat, file: Request, id: Id, retries: nat, max: nat)
    requires file.Valid() && file.code == SEND_FILE && retries < max
    requires n <= |w.trace| && SameFile(w.trace, n, file)
    requires After(env, start, w.trace, max) == Ready(retries)
    requires Reply(env, w, file).code == FILE_RECEIVED_CRC_OK
    requires Matches(env, |Talk(env, w, file).trace|, Reply(env, w, file))
    ensures LoopSound(env, start, w.trace[..n], file, retries, max,
                      RetryLoop(env, c, w, file, id, retries, max))
  {
    hide Talk; hide Reply; hide Matches; hide SameFile; hide Request.Valid; hide After;
    var w1 := Talk(env, w, file);
    TalkTrace(env, w, file);
    TalkAfter(env, start, w, max, file);
    SameFileTalk(env, w, n, file, file);
    var r := CrcStatusRequest(env, c, |w1.trace|, id, CRC_CORRECT);
    TalkTrace(env, w1, r);
    TalkAfter(env, start, w1, max, r);
    SameFileTalk(env, w1, n, file, r);
    var t := Talk(env, w1, r).trace;
    assert t[|t| - 4] == Sent(file) && t[|t| - 3] == Received(Reply(env, w, file));
    assert Reported(env, t, ReportConfirmed(env, c, w1, id, CRC_CORRECT));
  }

  // handleRetrySendFile, for every server and every maxRetries >= 0. The world
  // is any in which the automaton is ready for the first file, such as one
  // without a history.
  lemma UploadOutcome(env: Env, c: Client, start: Phase, w: World, file: Request, id: Id, max: nat)
    requires IsStart(start) && file.Valid() && file.code == SEND_FILE
    requires After(env, start, w.trace, max) == Ready(0)
    ensures var (status, w') := SendFile(env, c, w, file, id, max);
            var t, n := w'.trace, TallyOf(env, w'.trace);
            && (status <==> Confirmed(env, t))
            && n.corrects == n.matches <= 1
            && n.dones <= 1 && (n.dones == 1 <==> n.matches == 0)
            && (n.dones == 1 ==> !status && n.files == max && |t| >= 2 && Asked(t[|t| - 2], CRC_INCORRECT_DONE))
            && (n.corrects == 1 ==> |t| >= 2 && Asked(t[|t| - 2], CRC_CORRECT))
            && n.resends == n.mismatches
            && n.files <= max
            && SameFile(t, |w.trace|, file)
  {
    hide TallyOf; hide Talk; hide Reply; hide After; hide RetryLoop; hide SameFile; hide Verdict; hide Judge;
    hide Matches;
    hide Fits;
    SameFileSelf(w.trace, file);
    assert w.trace[..|w.trace|] == w.trace;
    LoopIsSound(env, c, start, w, |w.trace|, file, id, 0, max);
    var end := RetryLoop(env, c, w, file, id, 0, max);
    var (status, w') := SendFile(env, c, w, file, id, max);
    if end.retries == max {
      var r := CrcStatusRequest(env, c, |end.world.trace|, id, CRC_INCORRECT_DONE);
      TalkTrace(env, end.world, r);
      TalkAfter(env, start, end.world, max, r);
      SameFileTalk(env, end.world, |w.trace|, file, r);
      DoneJudged(env, max, |end.world.trace| + 2, Reply(env, end.world, r));
      CountsFit(env, start, end.world.trace, max);
      CountsFit(env, start, w'.trace, max);
      DoneTally(env, end.world.trace, Sent(r), Received(Reply(env, end.world, r)), max);
    } else {
      CountsFit(env, start, w'.trace, max);
      CorrectTally(env, w'.trace, max);
    }
  }

  lemma SameFileSelf(t: seq<Event>, file: Request)
    ensures SameFile(t, |t|, file)
  {}

  lemma DoneJudged(env: Env, max: nat, moment: nat, r: Response)
    ensures Judge(env, Ready(max), CRC_INCORRECT_DONE, moment, r) == Finished
  {}

  lemma DoneTally(env: Env, t: seq<Event>, sent: Event, received: Event, max: nat)
    requires Asked(sent, CRC_INCORRECT_DONE) && received.Received?
    requires Fits(Ready(max), TallyOf(env, t), max)
    ensures var c := TallyOf(env, t + [sent] + [received]);
            c.dones == 1 && c.matches == 0 && c.corrects == 0 && c.files == max && c.resends == c.mismatches
  {
    hide Verdict; hide TallyOf;
    var u := t + [sent];
    var v := u + [received];
    assert v[..|u|] == u && u[..|t|] == t && v[|u|] == received && v[|u| - 1] == sent;
    TallyStep(env, u);
    TallyStep(env, v);
    NoVerdict(env, v, |u|);
  }

  lemma NoVerdict(env: Env, t: seq<Event>, i: nat)
    requires 0 < i < |t| && t[i - 1].Sent? && t[i - 1].request.code != SEND_FILE
    ensures !Verdict(env, t, i, true) && !Verdict(env, t, i, false)
  {}

  lemma CorrectTally(env: Env, t: seq<Event>, max: nat)
    requires Fits(Finished, TallyOf(env, t), max)
    requires |t| >= 2 && Asked(t[|t| - 2], CRC_CORRECT)
    ensures var c := TallyOf(env, t);
            c.corrects == 1 && c.matches == 1 && c.dones == 0 && c.resends == c.mismatches && c.files <= max
  {
    assert Count(t[..|t| - 1], CRC_CORRECT) >= 1 by {
      assert t[..|t| - 1][|t| - 2] == t[|t| - 2];
    }
  }

  // A negative limit sends nothing, not even the final report.
  lemma NegativeLimit(env: Env, c: Client, w: World, file: Request, id: Id, max: int)
    requires file.Valid()
    ensures SendFile(env, c, w, file, id, max) == (false, w) <==> max < 0
  {
    hide Talk; hide Reply; hide Matches;
    if max >= 0 {
      LoopGrows(env, c, w, file, id, 0, max);
      var end := RetryLoop(env, c, w, file, id, 0, max);
      TalkTrace(env, end.world, CrcStatusRequest(env, c, |end.world.trace|, id, CRC_INCORRECT_DONE));
    }
  }

  lemma {:induction false} LoopGrows(env: Env, c: Client, w: World, file: Request, id: Id, retries: int, max: int)
    requires file.Valid()
    ensures var end := RetryLoop(env, c, w, file, id, retries, max);
            |end.world.trace| >= |w.trace| && (retries < max ==> |end.world.trace| > |w.trace|)
            && (retries >= max ==> end.world == w && end.retries == retries)
    decreases max - retries
  {
    hide Talk; hide Reply; hide Matches; hide Request.Valid;
    if retries >= max {
    } else {
      var w1 := Talk(env, w, file);
      TalkTrace(env, w, file);
      TalkTrace(env, w1, CrcStatusRequest(env, c, |w1.trace|, id, CRC_CORRECT));
      TalkTrace(env, w1, CrcStatusRequest(env, c, |w1.trace|, id, CRC_INCORRECT_RESEND));
      LoopGrows(env, c, w1, file, id, retries + 1, max);
      LoopGrows(env, c, ReportCrc(env, c, w1, id, CRC_INCORRECT_RESEND), file, id, retries + 1, max);
    }
  }
}
