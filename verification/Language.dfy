// The language of one connection: an automaton over the events sent and
// received, and what follows for every trace it does not reject.
module Language {
  import opened Bytes
  import opened Wire
  import opened Network
  import opened Session

  // Where the client stands after a trace. The numbers count the files sent
  // and already judged.
  datatype Phase =
    | MayReconnect
    | MustRegister
    | Identified
    | Ready(judged: nat)
    | Matched(judged: nat)          // the last answer's checksum matches
    | Mismatched(judged: nat)       // it does not
    | Finished
    | Waiting(from: Phase, code: nat)
    | Bad

  predicate MaySend(p: Phase, code: nat, maxRetries: nat) {
    match p
    case MayReconnect => code == RECONNECT
    case MustRegister => code == REGISTRATION
    case Identified => code == SEND_PUBLIC_KEY
    case Ready(n) => if n < maxRetries then code == SEND_FILE else n == maxRetries && code == CRC_INCORRECT_DONE
    case Matched(n) => code == CRC_CORRECT
    case Mismatched(n) => code == CRC_INCORRECT_RESEND
    case _ => false
  }

  // The phase after the answer r to a request with this code.
  function Judge(env: Env, p: Phase, code: nat, moment: nat, r: Response): Phase {
    match p
    case MayReconnect =>
      if r.code == RECONNECT_REJECTED then MustRegister
      else if r.code == APPROVE_RECONNECT_SEND_AES then Identified else Finished
    case MustRegister => if r.code == REGISTRATION_SUCCESS then Identified else Finished
    case Identified => if r.code == RECEIVED_PUBLIC_KEY_SEND_AES then Ready(0) else Finished
    case Ready(n) =>
      if code == CRC_INCORRECT_DONE then Finished
      else if r.code != FILE_RECEIVED_CRC_OK then Ready(n + 1)
      else if Matches(env, moment, r) then Matched(n) else Mismatched(n)
    case Matched(_) => Finished
    case Mismatched(n) => Ready(n + 1)
    case _ => Bad
  }

  function Next(env: Env, p: Phase, e: Event, moment: nat, maxRetries: nat): Phase {
    match e
    case Sent(r) => if MaySend(p, r.code, maxRetries) then Waiting(p, r.code) else Bad
    case Received(r) => if p.Waiting? then Judge(env, p.from, p.code, moment, r) else Bad
  }

  // The phase after a trace that begins in phase `start`.
  function After(env: Env, start: Phase, t: seq<Event>, maxRetries: nat): Phase
    decreases |t|
  {
    if t == [] then start
    else Next(env, After(env, start, t[..|t| - 1], maxRetries), t[|t| - 1], |t|, maxRetries)
  }

  lemma AfterStep(env: Env, start: Phase, t: seq<Event>, e: Event, maxRetries: nat)
    ensures After(env, start, t + [e], maxRetries)
         == Next(env, After(env, start, t, maxRetries), e, |t| + 1, maxRetries)
  {
    assert (t + [e])[..|t|] == t;
  }

  // A trace that is accepted has only accepted prefixes.
  lemma {:induction false} PrefixClosed(env: Env, start: Phase, t: seq<Event>, n: nat, maxRetries: nat)
    requires n <= |t| && start != Bad
    requires After(env, start, t, maxRetries) != Bad
    ensures After(env, start, t[..n], maxRetries) != Bad
    decreases |t|
  {
    if n < |t| {
      PrefixClosed(env, start, t[..|t| - 1], n, maxRetries);
      assert t[..|t| - 1][..n] == t[..n];
    } else {
      assert t[..n] == t;
    }
  }

  // ---------------------------------------------------------------------
  // Counting.

  function Count(t: seq<Event>, code: nat): nat
    decreases |t|
  {
    if t == [] then 0
    else
      var n := |t| - 1;
      Count(t[..n], code) + if t[n].Sent? && t[n].request.code == code then 1 else 0
  }

  function Sends(t: seq<Event>): nat
    decreases |t|
  {
    if t == [] then 0
    else Sends(t[..|t| - 1]) + if t[|t| - 1].Sent? then 1 else 0
  }

  // Event i is a 2103 answer to SEND_FILE whose checksum matches (or does not).
  predicate Verdict(env: Env, t: seq<Event>, i: nat, matching: bool)
    requires i < |t|
  {
    && i > 0 && t[i - 1].Sent? && t[i - 1].request.code == SEND_FILE
    && t[i].Received? && t[i].response.code == FILE_RECEIVED_CRC_OK
    && Matches(env, i + 1, t[i].response) == matching
  }

  function Verdicts(env: Env, t: seq<Event>, matching: bool): nat
    decreases |t|
  {
    if t == [] then 0
    else Verdicts(env, t[..|t| - 1], matching) + if Verdict(env, t, |t| - 1, matching) then 1 else 0
  }

  datatype Tally = Tally(files: nat, resends: nat, corrects: nat, dones: nat, matches: nat, mismatches: nat)

  function TallyOf(env: Env, t: seq<Event>): Tally {
    Tally(Count(t, SEND_FILE), Count(t, CRC_INCORRECT_RESEND), Count(t, CRC_CORRECT), Count(t, CRC_INCORRECT_DONE),
          Verdicts(env, t, true), Verdicts(env, t, false))
  }

  // What the counts must be in each phase.
  predicate Fits(p: Phase, c: Tally, maxRetries: nat) {
    match p
    case MayReconnect => c == Tally(0, 0, 0, 0, 0, 0)
    case MustRegister => c == Tally(0, 0, 0, 0, 0, 0)
    case Identified => c == Tally(0, 0, 0, 0, 0, 0)
    case Ready(n) => n <= maxRetries && c == Tally(n, c.mismatches, 0, 0, 0, c.mismatches) && c.mismatches <= n
    case Matched(n) => n < maxRetries && c == Tally(n + 1, c.mismatches, 0, 0, 1, c.mismatches) && c.mismatches <= n
    case Mismatched(n) =>
      && n < maxRetries && 0 < c.mismatches <= n + 1
      && c == Tally(n + 1, c.mismatches - 1, 0, 0, 0, c.mismatches)
    case Finished =>
      || c == Tally(0, 0, 0, 0, 0, 0)
      || (c == Tally(c.files, c.mismatches, 1, 0, 1, c.mismatches) && 0 < c.files <= maxRetries
          && c.mismatches < c.files)
      || (c == Tally(maxRetries, c.mismatches, 0, 1, 0, c.mismatches) && c.mismatches <= maxRetries)
    case Waiting(q, code) =>
      && MaySend(q, code, maxRetries)
      && !q.Waiting?
      && (code == SEND_FILE ==> c.files > 0 && Fits(q, c.(files := c.files - 1), maxRetries))
      && (code == CRC_INCORRECT_RESEND ==> c.resends > 0 && Fits(q, c.(resends := c.resends - 1), maxRetries))
      && (code == CRC_CORRECT ==> c.corrects > 0 && Fits(q, c.(corrects := c.corrects - 1), maxRetries))
      && (code == CRC_INCORRECT_DONE ==> c.dones > 0 && Fits(q, c.(dones := c.dones - 1), maxRetries))
      && (code < SEND_FILE ==> Fits(q, c, maxRetries))
    case Bad => true
  }

  // A waiting phase says what was sent last.
  lemma WaitingFor(env: Env, start: Phase, t: seq<Event>, maxRetries: nat)
    requires !start.Waiting? && After(env, start, t, maxRetries).Waiting?
    ensures t != [] && t[|t| - 1].Sent? && t[|t| - 1].request.code == After(env, start, t, maxRetries).code
  {}

  ghost predicate IsStart(p: Phase) {
    p == MayReconnect || p == MustRegister || p == Ready(0)
  }

  lemma {:induction false} CountsFit(env: Env, start: Phase, t: seq<Event>, maxRetries: nat)
    requires IsStart(start)
    ensures Fits(After(env, start, t, maxRetries), TallyOf(env, t), maxRetries)
    decreases |t|
  {
    hide TallyOf; hide Fits; hide Judge; hide MaySend; hide Matches;
    if t == [] {
      StartFits(env, start, maxRetries);
    } else {
      var n := |t| - 1;
      CountsFit(env, start, t[..n], maxRetries);
      var p, c := After(env, start, t[..n], maxRetries), TallyOf(env, t[..n]);
      TallyStep(env, t);
      if t[n].Sent? {
        if MaySend(p, t[n].request.code, maxRetries) {
          FitsSent(p, c, t[n].request.code, maxRetries);
        } else {
          BadFits(TallyOf(env, t), maxRetries);
        }
      } else if !p.Waiting? {
        BadFits(TallyOf(env, t), maxRetries);
      } else {
        WaitingFor(env, start, t[..n], maxRetries);
        assert t[..n][n - 1] == t[n - 1];
        FitsReceived(env, p, c, |t|, t[n].response, maxRetries);
      }
    }
  }

  lemma StartFits(env: Env, start: Phase, maxRetries: nat)
    requires IsStart(start)
    ensures Fits(start, TallyOf(env, []), maxRetries)
  {}

  lemma BadFits(c: Tally, maxRetries: nat)
    ensures Fits(Bad, c, maxRetries)
  {}

  function AddSent(c: Tally, code: nat): Tally {
    if code == SEND_FILE then c.(files := c.files + 1)
    else if code == CRC_INCORRECT_RESEND then c.(resends := c.resends + 1)
    else if code == CRC_CORRECT then c.(corrects := c.corrects + 1)
    else if code == CRC_INCORRECT_DONE then c.(dones := c.dones + 1)
    else c
  }

  lemma TallyStep(env: Env, t: seq<Event>)
    requires t != []
    ensures var n := |t| - 1;
            var c := TallyOf(env, t[..n]);
            TallyOf(env, t) ==
              if t[n].Sent? then AddSent(c, t[n].request.code)
              else if Verdict(env, t, n, true) then c.(matches := c.matches + 1)
              else if Verdict(env, t, n, false) then c.(mismatches := c.mismatches + 1)
              else c
  {}

  lemma FitsSent(p: Phase, c: Tally, code: nat, maxRetries: nat)
    requires Fits(p, c, maxRetries) && MaySend(p, code, maxRetries)
    ensures Fits(Waiting(p, code), AddSent(c, code), maxRetries)
  {}

  lemma FitsReceived(env: Env, p: Phase, c: Tally, moment: nat, r: Response, maxRetries: nat)
    requires p.Waiting? && Fits(p, c, maxRetries)
    ensures var verdict := p.code == SEND_FILE && r.code == FILE_RECEIVED_CRC_OK;
            var c' := if verdict && Matches(env, moment, r) then c.(matches := c.matches + 1)
                      else if verdict then c.(mismatches := c.mismatches + 1)
                      else c;
            Fits(Judge(env, p.from, p.code, moment, r), c', maxRetries)
  {}

  // ---------------------------------------------------------------------
  // What holds of every accepted trace.

  // Each request is followed by exactly one answer before the next request.
  lemma {:induction false} Alternates(env: Env, start: Phase, t: seq<Event>, maxRetries: nat)
    requires IsStart(start) && After(env, start, t, maxRetries) != Bad
    ensures forall i | 0 <= i < |t| :: t[i].Sent? <==> i % 2 == 0
    ensures After(env, start, t, maxRetries).Waiting? <==> |t| % 2 == 1
    decreases |t|
  {
    hide Judge;
    if t == [] {
    } else {
      var n := |t| - 1;
      Alternates(env, start, t[..n], maxRetries);
      forall i | 0 <= i < |t| ensures t[i].Sent? <==> i % 2 == 0 {
        if i < n { assert t[i] == t[..n][i]; }
      }
      if t[n].Received? { JudgeSettles(env, After(env, start, t[..n], maxRetries), |t|, t[n].response); }
    }
  }

  lemma JudgeSettles(env: Env, p: Phase, moment: nat, r: Response)
    requires p.Waiting?
    ensures !Judge(env, p.from, p.code, moment, r).Waiting?
  {}

  // How many requests can have been sent, `base` of them before registering.
  function Limit(p: Phase, base: nat, maxRetries: nat): nat {
    match p
    case MayReconnect => 0
    case MustRegister => base
    case Identified => base + 1
    case Ready(n) => base + 2 + 2 * n
    case Matched(n) => base + 3 + 2 * n
    case Mismatched(n) => base + 3 + 2 * n
    case Finished => base + 3 + 2 * maxRetries
    case Waiting(q, _) => Limit(q, base, maxRetries) + 1
    case Bad => 0
  }

  function Base(start: Phase): nat {
    if start == MayReconnect then 1 else 0
  }

  lemma {:induction false} SendsBounded(env: Env, start: Phase, t: seq<Event>, maxRetries: nat)
    requires start == MayReconnect || start == MustRegister
    requires After(env, start, t, maxRetries) != Bad
    ensures Sends(t) <= Limit(After(env, start, t, maxRetries), Base(start), maxRetries)
    decreases |t|
  {
    hide Judge; hide Fits; hide TallyOf; hide Limit; hide MaySend;
    if t == [] {
      LimitAtStart(start, maxRetries);
    } else {
      var n := |t| - 1;
      var p := After(env, start, t[..n], maxRetries);
      PrefixClosed(env, start, t, n, maxRetries);
      SendsBounded(env, start, t[..n], maxRetries);
      CountsFit(env, start, t[..n], maxRetries);
      if t[n].Sent? {
        LimitWaiting(p, t[n].request.code, Base(start), maxRetries);
      } else {
        ReconnectsFirst(env, start, t[..n], maxRetries);
        LimitJudged(env, p, TallyOf(env, t[..n]), |t|, t[n].response, Base(start), maxRetries);
      }
    }
  }

  // Asking to reconnect is only ever the first thing said.
  lemma ReconnectsFirst(env: Env, start: Phase, t: seq<Event>, maxRetries: nat)
    requires start == MayReconnect || start == MustRegister
    ensures var p := After(env, start, t, maxRetries);
            p == MayReconnect || (p.Waiting? && p.from == MayReconnect) ==> start == MayReconnect
  {
    if t != [] {
      ReconnectsFirst(env, start, t[..|t| - 1], maxRetries);
    }
  }

  lemma LimitAtStart(start: Phase, maxRetries: nat)
    requires start == MayReconnect || start == MustRegister
    ensures Limit(start, Base(start), maxRetries) == 0
  {}

  lemma LimitWaiting(p: Phase, code: nat, base: nat, maxRetries: nat)
    ensures Limit(Waiting(p, code), base, maxRetries) == Limit(p, base, maxRetries) + 1
  {}

  lemma LimitJudged(env: Env, p: Phase, c: Tally, moment: nat, r: Response, base: nat, maxRetries: nat)
    requires p.Waiting? && Fits(p, c, maxRetries)
    requires p.from == MayReconnect ==> base == 1
    ensures Limit(p, base, maxRetries) <= Limit(Judge(env, p.from, p.code, moment, r), base, maxRetries)
  {}

  // A session that may reconnect sends at most ten requests, one that has to
  // register at most nine.
  lemma AtMostTenRequests(env: Env, start: Phase, t: seq<Event>)
    requires start == MayReconnect || start == MustRegister
    requires After(env, start, t, 3) != Bad
    ensures Sends(t) <= 9 + Base(start)
    ensures Count(t, SEND_FILE) <= 3
  {
    hide Limit; hide Fits; hide TallyOf; hide Count;
    SendsBounded(env, start, t, 3);
    CountsFit(env, start, t, 3);
    FitsCaps(After(env, start, t, 3), TallyOf(env, t), Base(start));
    assert TallyOf(env, t).files == Count(t, SEND_FILE) by { TallyFiles(env, t); }
  }

  lemma TallyFiles(env: Env, t: seq<Event>)
    ensures TallyOf(env, t).files == Count(t, SEND_FILE)
  {}

  lemma FitsCaps(p: Phase, c: Tally, base: nat)
    requires p != Bad && Fits(p, c, 3) && base <= 1
    ensures Limit(p, base, 3) <= 9 + base && c.files <= 3
  {}

  // The server's key answer is on record: a SEND_PUBLIC_KEY answered by 2102.
  ghost predicate KeyAnswered(t: seq<Event>) {
    exists j | 0 < j < |t| :: KeyAnswerAt(t, j)
  }

  predicate KeyAnswerAt(t: seq<Event>, j: nat)
    requires 0 < j < |t|
  {
    && t[j - 1].Sent? && t[j - 1].request.code == SEND_PUBLIC_KEY
    && t[j].Received? && t[j].response.code == RECEIVED_PUBLIC_KEY_SEND_AES
  }

  predicate BeyondKeys(p: Phase) {
    match p
    case Ready(_) => true
    case Matched(_) => true
    case Mismatched(_) => true
    case Waiting(q, _) => BeyondKeys(q)
    case _ => false
  }

  lemma KeyAnswerKept(t: seq<Event>, n: nat)
    requires n <= |t| && KeyAnswered(t[..n])
    ensures KeyAnswered(t)
  {
    var j :| 0 < j < n && KeyAnswerAt(t[..n], j);
    assert KeyAnswerAt(t, j);
  }

  lemma {:induction false} KeysFirst(env: Env, start: Phase, t: seq<Event>, maxRetries: nat)
    requires start == MayReconnect || start == MustRegister
    ensures BeyondKeys(After(env, start, t, maxRetries)) ==> KeyAnswered(t)
    decreases |t|
  {
    if t != [] {
      var n := |t| - 1;
      var p := After(env, start, t[..n], maxRetries);
      KeysFirst(env, start, t[..n], maxRetries);
      if KeyAnswered(t[..n]) {
        KeyAnswerKept(t, n);
      } else if BeyondKeys(After(env, start, t, maxRetries)) {
        BeyondKeysStep(env, p, t[n], |t|, maxRetries);
        WaitingFor(env, start, t[..n], maxRetries);
        assert t[..n][n - 1] == t[n - 1];
        FromIdentified(env, start, t[..n], maxRetries);
        assert KeyAnswerAt(t, n);
      }
    }
  }

  lemma BeyondKeysStep(env: Env, p: Phase, e: Event, moment: nat, maxRetries: nat)
    requires !BeyondKeys(p) && BeyondKeys(Next(env, p, e, moment, maxRetries))
    ensures e.Received? && p.Waiting? && p.from == Identified && e.response.code == RECEIVED_PUBLIC_KEY_SEND_AES
  {}

  lemma FromIdentified(env: Env, start: Phase, t: seq<Event>, maxRetries: nat)
    requires !start.Waiting?
    ensures var p := After(env, start, t, maxRetries);
            p.Waiting? && p.from == Identified ==> p.code == SEND_PUBLIC_KEY
  {}

  // No file is sent before the server's key answer.
  lemma NoFileBeforeKeys(env: Env, start: Phase, t: seq<Event>, i: nat, maxRetries: nat)
    requires start == MayReconnect || start == MustRegister
    requires After(env, start, t, maxRetries) != Bad
    requires i < |t| && t[i].Sent? && t[i].request.code == SEND_FILE
    ensures KeyAnswered(t[..i])
  {
    PrefixClosed(env, start, t, i + 1, maxRetries);
    assert t[..i + 1][..i] == t[..i];
    KeysFirst(env, start, t[..i], maxRetries);
  }

  // Whatever reports the end of the upload is the last request.
  lemma LastWord(env: Env, start: Phase, t: seq<Event>, i: nat, j: nat, maxRetries: nat)
    requires IsStart(start) && After(env, start, t, maxRetries) != Bad
    requires i < j < |t| && t[i].Sent? && (t[i].request.code == CRC_CORRECT || t[i].request.code == CRC_INCORRECT_DONE)
    ensures t[j].Received? && j == i + 1
  {
    hide Judge; hide MaySend;
    var p, code := After(env, start, t[..i], maxRetries), t[i].request.code;
    AcceptedStep(env, start, t, i, maxRetries);
    AcceptedStep(env, start, t, i + 1, maxRetries);
    ReportsEnd(env, p, code, t[i + 1], i + 2, maxRetries);
    if i + 2 < |t| {
      AcceptedStep(env, start, t, i + 2, maxRetries);
      FinishedEnds(env, t[i + 2], i + 3, maxRetries);
    }
  }

  // One step of an accepted trace.
  lemma AcceptedStep(env: Env, start: Phase, t: seq<Event>, i: nat, maxRetries: nat)
    requires i < |t| && start != Bad && After(env, start, t, maxRetries) != Bad
    ensures After(env, start, t[..i + 1], maxRetries)
         == Next(env, After(env, start, t[..i], maxRetries), t[i], i + 1, maxRetries)
    ensures After(env, start, t[..i + 1], maxRetries) != Bad
  {
    hide Next;
    PrefixClosed(env, start, t, i + 1, maxRetries);
    assert t[..i + 1] == t[..i] + [t[i]];
    AfterStep(env, start, t[..i], t[i], maxRetries);
  }

  lemma ReportsEnd(env: Env, p: Phase, code: nat, e: Event, moment: nat, maxRetries: nat)
    requires MaySend(p, code, maxRetries) && (code == CRC_CORRECT || code == CRC_INCORRECT_DONE)
    requires Next(env, Waiting(p, code), e, moment, maxRetries) != Bad
    ensures e.Received? && Next(env, Waiting(p, code), e, moment, maxRetries) == Finished
  {}

  lemma FinishedEnds(env: Env, e: Event, moment: nat, maxRetries: nat)
    ensures Next(env, Finished, e, moment, maxRetries) == Bad
  {}

  // Which request code may follow which: 1027? 1025? 1026, any number of
  // 1028 or 1028 1030, and at the end 1028 1029 or 1031.
  predicate Follows(code: nat, next: nat) {
    || (code == RECONNECT && next in {REGISTRATION, SEND_PUBLIC_KEY})
    || (code == REGISTRATION && next == SEND_PUBLIC_KEY)
    || (code == SEND_PUBLIC_KEY && next == SEND_FILE)
    || (code == SEND_FILE && next in {SEND_FILE, CRC_CORRECT, CRC_INCORRECT_RESEND, CRC_INCORRECT_DONE})
    || (code == CRC_INCORRECT_RESEND && next in {SEND_FILE, CRC_INCORRECT_DONE})
  }

  lemma CodesFollow(env: Env, start: Phase, t: seq<Event>, i: nat, maxRetries: nat)
    requires (start == MayReconnect || start == MustRegister) && maxRetries > 0
    requires After(env, start, t, maxRetries) != Bad && i < |t| && t[i].Sent?
    ensures i == 0 ==> t[i].request.code == if start == MayReconnect then RECONNECT else REGISTRATION
    ensures i + 2 < |t| ==> t[i + 2].Sent? && Follows(t[i].request.code, t[i + 2].request.code)
  {
    hide MaySend; hide Judge; hide Follows; hide Next; hide After;
    Alternates(env, start, t, maxRetries);
    AcceptedStep(env, start, t, i, maxRetries);
    var p, code := After(env, start, t[..i], maxRetries), t[i].request.code;
    NextSent(env, p, t[i], i + 1, maxRetries);
    if i == 0 {
      AfterNothing(env, start, maxRetries);
      assert t[..0] == [];
      FirstCode(start, code, maxRetries);
    }
    if i + 2 < |t| {
      AcceptedStep(env, start, t, i + 1, maxRetries);
      AcceptedStep(env, start, t, i + 2, maxRetries);
      NextReceived(env, p, code, t[i + 1], i + 2, maxRetries);
      NextSent(env, Judge(env, p, code, i + 2, t[i + 1].response), t[i + 2], i + 3, maxRetries);
      FollowsStep(env, p, code, i + 2, t[i + 1].response, t[i + 2].request.code, maxRetries);
    }
  }

  lemma AfterNothing(env: Env, start: Phase, maxRetries: nat)
    ensures After(env, start, [], maxRetries) == start
  {}

  lemma NextSent(env: Env, p: Phase, e: Event, moment: nat, maxRetries: nat)
    requires e.Sent? && Next(env, p, e, moment, maxRetries) != Bad
    ensures MaySend(p, e.request.code, maxRetries)
    ensures Next(env, p, e, moment, maxRetries) == Waiting(p, e.request.code)
  {}

  lemma NextReceived(env: Env, p: Phase, code: nat, e: Event, moment: nat, maxRetries: nat)
    requires e.Received?
    ensures Next(env, Waiting(p, code), e, moment, maxRetries) == Judge(env, p, code, moment, e.response)
  {}

  lemma FirstCode(start: Phase, code: nat, maxRetries: nat)
    requires MaySend(start, code, maxRetries) && (start == MayReconnect || start == MustRegister)
    ensures code == if start == MayReconnect then RECONNECT else REGISTRATION
  {}

  lemma FollowsStep(env: Env, p: Phase, code: nat, moment: nat, r: Response, next: nat, maxRetries: nat)
    requires MaySend(p, code, maxRetries) && MaySend(Judge(env, p, code, moment, r), next, maxRetries)
    requires maxRetries > 0
    ensures Follows(code, next)
  {}

  // Once the public key is sent, only uploading and its reports are left.
  lemma {:induction false} AfterKeyRequest(env: Env, start: Phase, t: seq<Event>, i: nat, j: nat, maxRetries: nat)
    requires (start == MayReconnect || start == MustRegister) && maxRetries > 0
    requires After(env, start, t, maxRetries) != Bad && i < j < |t|
    requires t[i].Sent? && t[i].request.code == SEND_PUBLIC_KEY && t[j].Sent?
    ensures t[j].request.code >= SEND_FILE
    decreases j
  {
    hide After;
    Alternates(env, start, t, maxRetries);
    CodesFollow(env, start, t, j - 2, maxRetries);
    if j == i + 2 {
    } else {
      AfterKeyRequest(env, start, t, i, j - 2, maxRetries);
    }
  }
}
