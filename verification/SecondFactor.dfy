/**
 * The second login step under concurrency: any number of `verifySecondFactor` calls on
 * one challenge, interleaved command by command, with the challenge expiring at any time.
 */
module SecondFactor {
  import opened Prelude

  const SECOND_FACTOR_MAX_ATTEMPTS: nat := 5

  // ---- The challenge in Redis ----

  /** An attempt on a challenge: one more while it exists, and what the caller is told; -1 when it is gone. */
  function Count(attempts: Option<nat>): (after: (Option<nat>, int))
    ensures attempts.None? <==> after.0.None?
  {
    if attempts.None? then (None, -1) else (Some(attempts.value + 1), attempts.value + 1)
  }

  class Redis {
    /** The challenge's attempts, while it exists. */
    var attempts: Option<nat>

    constructor ()
      ensures attempts == None
    {
      attempts := None;
    }

    method SetChallenge()
      modifies this
      ensures attempts == Some(0)
    {
      attempts := Some(0);
    }

    method GetChallenge() returns (found: bool)
      ensures found == attempts.Some?
    {
      found := attempts.Some?;
    }

    method CountAttempt() returns (count: int)
      modifies this
      ensures (attempts, count) == Count(old(attempts))
      ensures count == -1 <==> old(attempts).None?
      ensures old(attempts).None? ==> attempts.None?
      ensures old(attempts).Some? ==> attempts == Some(count) && count == old(attempts).value + 1
    {
      if attempts.None? {
        return -1;
      }
      attempts := Some(attempts.value + 1);
      count := attempts.value;
    }

    /** End the challenge; true only for the caller that ended it. */
    method TakeChallenge() returns (taken: bool)
      modifies this
      ensures taken == old(attempts).Some? && attempts == None
    {
      taken := attempts.Some?;
      attempts := None;
    }
  }

  // ---- The calls ----

  /** Where a call is: its next command. */
  datatype Call =
    | Getting
    | AskingThrottle
    | Counting
    | AskingRevoked(attempt: nat)
    | LoadingKeys(attempt: nat)
    | Checking(attempt: nat)
    | Taking
    | CreatingSession
    | Ending
    | Over

  /** What a command outside the challenge answers: go on, no, or it throws. */
  datatype Answer = Yes | No | Throws

  /** The challenge, the calls, and what happened: codes counted, which of them were checked, sessions created. */
  datatype State = State(challenge: Option<nat>, calls: seq<Call>, counted: nat, checked: seq<nat>, sessions: nat)

  function Moved(s: State, i: nat, call: Call): State
    requires i < |s.calls|
  {
    s.(calls := s.calls[i := call])
  }

  /** One command of one call. A check that throws may have compared the code already: it counts as checked. */
  function Next(s: State, i: nat, answer: Answer): State
    requires i < |s.calls|
  {
    if answer.Throws? then Moved(if s.calls[i].Checking? then s.(checked := s.checked + [s.calls[i].attempt]) else s, i, Over)
    else
      match s.calls[i]
      case Getting => Moved(s, i, if s.challenge.Some? then AskingThrottle else Over)
      case AskingThrottle => Moved(s, i, if answer.Yes? then Counting else Over)
      case Counting =>
        var (challenge, attempts) := Count(s.challenge);
        var counted := s.(challenge := challenge, counted := s.counted + (if challenge.Some? then 1 else 0));
        Moved(counted, i, if attempts < 0 || attempts > SECOND_FACTOR_MAX_ATTEMPTS then Ending else AskingRevoked(attempts))
      case AskingRevoked(attempt) => Moved(s, i, if answer.Yes? then Ending else LoadingKeys(attempt))
      case LoadingKeys(attempt) => Moved(s, i, Checking(attempt))
      case Checking(attempt) =>
        var spent := s.(checked := s.checked + [attempt]);
        Moved(spent, i, if answer.Yes? then Taking else if attempt >= SECOND_FACTOR_MAX_ATTEMPTS then Ending else Over)
      case Taking => Moved(s.(challenge := None), i, if s.challenge.Some? then CreatingSession else Over)
      case CreatingSession => Moved(s.(sessions := s.sessions + 1), i, Over)
      case Ending => Moved(s.(challenge := None), i, Over)
      case Over => s
  }

  ghost predicate Step(s: State, next: State) {
    || (exists i: nat, answer :: i < |s.calls| && next == Next(s, i, answer))
    || next == s.(challenge := None)
  }

  /** From a fresh challenge and any number of calls. */
  ghost predicate Run(states: seq<State>) {
    && |states| > 0
    && states[0].challenge == Some(0) && states[0].counted == 0 && states[0].checked == [] && states[0].sessions == 0
    && (forall i :: 0 <= i < |states[0].calls| ==> states[0].calls[i] == Getting)
    && (forall i :: 0 <= i < |states| - 1 ==> Step(states[i], states[i + 1]))
  }

  // ---- The invariant ----

  predicate Holds(call: Call) {
    call.AskingRevoked? || call.LoadingKeys? || call.Checking?
  }

  /** An attempt is one of the counted ones within the cap. */
  predicate Counted(s: State, attempt: nat) {
    1 <= attempt <= s.counted && attempt <= SECOND_FACTOR_MAX_ATTEMPTS
  }

  /** Every attempt is held by one call, or was checked once. */
  ghost predicate AttemptsOnce(s: State) {
    && (s.challenge.Some? ==> s.challenge.value == s.counted)
    && (forall i :: 0 <= i < |s.calls| && Holds(s.calls[i]) ==> Counted(s, s.calls[i].attempt) && s.calls[i].attempt !in s.checked)
    && (forall i, j :: 0 <= i < j < |s.calls| && Holds(s.calls[i]) && Holds(s.calls[j]) ==> s.calls[i].attempt != s.calls[j].attempt)
    && (forall k :: 0 <= k < |s.checked| ==> Counted(s, s.checked[k]))
    && (forall k, m :: 0 <= k < m < |s.checked| ==> s.checked[k] != s.checked[m])
  }

  /** The challenge is there, or one call took it, or a session was created: one of them at most. */
  ghost predicate TakenOnce(s: State) {
    && s.sessions <= 1
    && (s.challenge.Some? || s.sessions == 1 ==> forall i :: 0 <= i < |s.calls| ==> !s.calls[i].CreatingSession?)
    && (s.challenge.Some? ==> s.sessions == 0)
    && (forall i, j :: 0 <= i < j < |s.calls| ==> !(s.calls[i].CreatingSession? && s.calls[j].CreatingSession?))
  }

  /** A call that gives its attempt up, or carries it on, leaves the attempts distinct. */
  lemma {:induction false} MoveKeepsAttempts(s: State, i: nat, call: Call)
    requires i < |s.calls| && AttemptsOnce(s)
    requires Holds(call) ==> Holds(s.calls[i]) && call.attempt == s.calls[i].attempt
    ensures AttemptsOnce(Moved(s, i, call))
  {
  }

  lemma {:induction false} CountKeepsAttempts(s: State, i: nat)
    requires i < |s.calls| && AttemptsOnce(s) && s.calls[i].Counting?
    ensures AttemptsOnce(Next(s, i, Yes))
  {
    var counted := s.(challenge := Count(s.challenge).0, counted := s.counted + (if s.challenge.Some? then 1 else 0));
    assert AttemptsOnce(counted);
  }

  lemma {:induction false} CheckKeepsAttempts(s: State, i: nat, call: Call)
    requires i < |s.calls| && AttemptsOnce(s) && s.calls[i].Checking? && !Holds(call)
    ensures AttemptsOnce(Moved(s.(checked := s.checked + [s.calls[i].attempt]), i, call))
  {
    var next := Moved(s.(checked := s.checked + [s.calls[i].attempt]), i, call);
    forall j | 0 <= j < |next.calls| && Holds(next.calls[j])
      ensures next.calls[j].attempt !in next.checked
    {
      assert next.calls[j] == s.calls[j] && j != i;
    }
  }

  lemma {:induction false} NextKeepsAttempts(s: State, i: nat, answer: Answer)
    requires i < |s.calls| && AttemptsOnce(s)
    ensures AttemptsOnce(Next(s, i, answer))
  {
    var next := Next(s, i, answer);
    if !answer.Throws? && s.calls[i].Counting? {
      CountKeepsAttempts(s, i);
    } else if s.calls[i].Checking? {
      hide AttemptsOnce;
      CheckKeepsAttempts(s, i, next.calls[i]);
    } else {
      hide AttemptsOnce;
      GoneKeepsAttempts(s);
      MoveKeepsAttempts(s, i, next.calls[i]);
      MoveKeepsAttempts(s.(challenge := None), i, next.calls[i]);
      SessionsKeepAttempts(Moved(s, i, next.calls[i]), next.sessions);
    }
  }

  lemma {:induction false} GoneKeepsAttempts(s: State)
    requires AttemptsOnce(s)
    ensures AttemptsOnce(s.(challenge := None))
  {
  }

  lemma {:induction false} SessionsKeepAttempts(s: State, sessions: nat)
    requires AttemptsOnce(s)
    ensures AttemptsOnce(s.(sessions := sessions))
  {
  }

  /** A call that is not creating a session, before or after, changes nothing for the one that is. */
  lemma {:induction false} MoveKeepsTaken(s: State, i: nat, call: Call)
    requires i < |s.calls| && TakenOnce(s) && !call.CreatingSession?
    ensures TakenOnce(Moved(s, i, call))
    ensures s.calls[i].CreatingSession? ==> s.challenge.None? && TakenOnce(Moved(s.(sessions := s.sessions + 1), i, call))
  {
  }

  lemma {:induction false} NextKeepsTaken(s: State, i: nat, answer: Answer)
    requires i < |s.calls| && TakenOnce(s)
    ensures TakenOnce(Next(s, i, answer))
  {
    var next := Next(s, i, answer);
    if next.calls[i].CreatingSession? {
      assert s.calls[i].Taking? && s.challenge.Some?;
    } else {
      MoveKeepsTaken(s, i, next.calls[i]);
    }
  }

  lemma {:induction false} StepKeeps(s: State, next: State)
    requires AttemptsOnce(s) && TakenOnce(s) && Step(s, next)
    ensures AttemptsOnce(next) && TakenOnce(next)
    ensures s.challenge.None? ==> next.challenge.None?
  {
    if i: nat, answer :| i < |s.calls| && next == Next(s, i, answer) {
      NextKeepsAttempts(s, i, answer);
      NextKeepsTaken(s, i, answer);
    }
  }

  lemma {:induction false} RunKeeps(states: seq<State>, i: nat)
    requires Run(states) && i < |states|
    ensures AttemptsOnce(states[i]) && TakenOnce(states[i])
  {
    hide AttemptsOnce, TakenOnce, Step;
    if i == 0 {
      FreshKeeps(states[0]);
    } else {
      RunKeeps(states, i - 1);
      assert Step(states[i - 1], states[i - 1 + 1]);
      StepKeeps(states[i - 1], states[i]);
    }
  }

  lemma {:induction false} FreshKeeps(s: State)
    requires s.challenge == Some(0) && s.counted == 0 && s.checked == [] && s.sessions == 0
    requires forall i :: 0 <= i < |s.calls| ==> s.calls[i] == Getting
    ensures AttemptsOnce(s) && TakenOnce(s)
  {
  }

  /** Different numbers from 1 to a cap: no more of them than the cap. */
  lemma {:induction false} AtMost(checked: seq<nat>, cap: nat)
    requires forall k :: 0 <= k < |checked| ==> 1 <= checked[k] <= cap
    requires forall k, m :: 0 <= k < m < |checked| ==> checked[k] != checked[m]
    ensures |checked| <= cap
    decreases cap
  {
    if cap in checked {
      var k :| 0 <= k < |checked| && checked[k] == cap;
      var rest := checked[..k] + checked[k + 1..];
      forall m | 0 <= m < |rest|
        ensures rest[m] == checked[if m < k then m else m + 1]
      {
      }
      AtMost(rest, cap - 1);
    } else if checked != [] {
      assert 1 <= checked[0] <= cap;
      AtMost(checked, cap - 1);
    }
  }

  /**
   * In every interleaving at most `SECOND_FACTOR_MAX_ATTEMPTS` codes are checked and at
   * most one session is created.
   */
  lemma {:induction false} CodesAndSessions(states: seq<State>, i: nat)
    requires Run(states) && i < |states|
    ensures |states[i].checked| <= SECOND_FACTOR_MAX_ATTEMPTS
    ensures states[i].sessions <= 1
  {
    hide Run;
    RunKeeps(states, i);
    AtMost(states[i].checked, SECOND_FACTOR_MAX_ATTEMPTS);
  }

  /** A challenge that ended is never revived. */
  lemma {:induction false} NeverRevived(states: seq<State>, i: nat, j: nat)
    requires Run(states) && i <= j < |states| && states[i].challenge.None?
    ensures states[j].challenge.None?
    decreases j
  {
    hide AttemptsOnce, TakenOnce, Step;
    if i < j {
      NeverRevived(states, i, j - 1);
      RunKeeps(states, j - 1);
      assert Step(states[j - 1], states[j - 1 + 1]);
      StepKeeps(states[j - 1], states[j]);
    }
  }

  // ---- Whose session it is ----

  /** What moves a run: a command of a call with its answer, or the challenge expiring. */
  datatype Event = Command(i: nat, answer: Answer) | Expires

  ghost predicate Happens(s: State, next: State, event: Event) {
    match event
    case Command(i, answer) => i < |s.calls| && next == Next(s, i, answer)
    case Expires => next == s.(challenge := None)
  }

  /** A run with what moved it. */
  ghost predicate Traced(states: seq<State>, events: seq<Event>) {
    && Run(states) && |events| == |states| - 1
    && forall k, m :: 0 <= k < |events| && m == k + 1 ==> Happens(states[k], states[m], events[k])
  }

  /** Every run was moved by something. */
  lemma {:induction false} RunIsTraced(states: seq<State>) returns (events: seq<Event>)
    requires Run(states)
    ensures Traced(states, events)
  {
    events := [];
    for n := 0 to |states| - 1
      invariant |events| == n
      invariant forall k, m :: 0 <= k < n && m == k + 1 ==> Happens(states[k], states[m], events[k])
    {
      assert Step(states[n], states[n + 1]);
      var event := MovedBy(states[n], states[n + 1]);
      events := events + [event];
    }
  }

  lemma {:induction false} MovedBy(s: State, next: State) returns (event: Event)
    requires Step(s, next)
    ensures Happens(s, next, event)
  {
    if i: nat, answer :| i < |s.calls| && next == Next(s, i, answer) {
      event := Command(i, answer);
    } else {
      event := Expires;
    }
  }

  /** At this moment of a run the call's own check answers. */
  ghost predicate ChecksAt(states: seq<State>, events: seq<Event>, k: nat, i: nat, answer: Answer) {
    && k < |events| && k < |states| && events[k] == Command(i, answer)
    && i < |states[k].calls| && states[k].calls[i].Checking?
  }

  ghost predicate Passed(states: seq<State>, events: seq<Event>, m: nat, i: nat) {
    exists k :: 0 <= k < m && ChecksAt(states, events, k, i, Yes)
  }

  predicate BeyondCheck(call: Call) {
    call.Taking? || call.CreatingSession?
  }

  /** A step brings a call beyond its check only from there, or by a Yes at the check itself. */
  lemma {:induction false} StepBeyond(s: State, next: State, event: Event, i: nat)
    requires Happens(s, next, event) && i < |next.calls| && BeyondCheck(next.calls[i])
    ensures i < |s.calls| && (BeyondCheck(s.calls[i]) || (s.calls[i].Checking? && event == Command(i, Yes)))
  {
  }

  /** A step makes a session only by a call that is creating one. */
  lemma {:induction false} StepSession(s: State, next: State, event: Event)
    requires Happens(s, next, event) && next.sessions != s.sessions
    ensures event.Command? && event.i < |s.calls| && s.calls[event.i].CreatingSession?
  {
  }

  /** A call that takes the challenge or creates a session had its own code found right. */
  lemma {:induction false} TakesOnlyAfterYes(states: seq<State>, events: seq<Event>, m: nat, i: nat)
    requires Traced(states, events) && m < |states| && i < |states[m].calls| && BeyondCheck(states[m].calls[i])
    ensures Passed(states, events, m, i)
    decreases m
  {
    hide Next, BeyondCheck;
    if m == 0 {
      GettingIsBefore(states, i);
    } else {
      assert Happens(states[m - 1], states[m], events[m - 1]);
      hide Happens;
      StepBeyond(states[m - 1], states[m], events[m - 1], i);
      if BeyondCheck(states[m - 1].calls[i]) {
        TakesOnlyAfterYes(states, events, m - 1, i);
        var k :| 0 <= k < m - 1 && ChecksAt(states, events, k, i, Yes);
        assert ChecksAt(states, events, k, i, Yes);
      } else {
        assert ChecksAt(states, events, m - 1, i, Yes);
      }
    }
  }

  lemma {:induction false} GettingIsBefore(states: seq<State>, i: nat)
    requires Run(states) && i < |states[0].calls|
    ensures !BeyondCheck(states[0].calls[i])
  {
  }

  /** So there is no session without a code that was found right, by the call that created it. */
  lemma {:induction false} SessionNeedsYes(states: seq<State>, events: seq<Event>, m: nat)
    requires Traced(states, events) && m < |states| && states[m].sessions > 0
    ensures exists i :: Passed(states, events, m, i)
    decreases m
  {
    hide Next, Passed;
    if m > 0 {
      assert Happens(states[m - 1], states[m], events[m - 1]);
      hide Happens;
      if states[m - 1].sessions > 0 {
        SessionNeedsYes(states, events, m - 1);
        var i :| Passed(states, events, m - 1, i);
        PassedLater(states, events, m - 1, m, i);
      } else {
        StepSession(states[m - 1], states[m], events[m - 1]);
        var i := events[m - 1].i;
        TakesOnlyAfterYes(states, events, m - 1, i);
        PassedLater(states, events, m - 1, m, i);
      }
    }
  }

  lemma {:induction false} PassedLater(states: seq<State>, events: seq<Event>, m: nat, later: nat, i: nat)
    requires Passed(states, events, m, i) && m <= later
    ensures Passed(states, events, later, i)
  {
  }

  // ---- Let through ----

  predicate BeyondThrottle(call: Call) {
    call.Counting? || BeyondRevoked(call) || call.AskingRevoked?
  }

  predicate BeyondRevoked(call: Call) {
    call.LoadingKeys? || call.Checking? || BeyondCheck(call)
  }

  /** At this moment of a run the throttle lets the call go on. */
  ghost predicate ThrottleOpenAt(states: seq<State>, events: seq<Event>, k: nat, i: nat) {
    && k < |events| && k < |states| && events[k] == Command(i, Yes)
    && i < |states[k].calls| && states[k].calls[i].AskingThrottle?
  }

  /** At this moment of a run the call's login is found not revoked. */
  ghost predicate NotRevokedAt(states: seq<State>, events: seq<Event>, k: nat, i: nat) {
    && k < |events| && k < |states| && events[k] == Command(i, No)
    && i < |states[k].calls| && states[k].calls[i].AskingRevoked?
  }

  lemma {:induction false} StepLetThrough(s: State, next: State, event: Event, i: nat)
    requires Happens(s, next, event) && i < |next.calls|
    ensures i < |s.calls|
    ensures BeyondThrottle(next.calls[i]) ==> BeyondThrottle(s.calls[i]) || (s.calls[i].AskingThrottle? && event == Command(i, Yes))
    ensures BeyondRevoked(next.calls[i]) ==> BeyondRevoked(s.calls[i]) || (s.calls[i].AskingRevoked? && event == Command(i, No))
  {
  }

  /** No call checks a code, or goes further, unless the throttle let it and its login was not revoked. */
  lemma {:induction false} ChecksOnlyLetThrough(states: seq<State>, events: seq<Event>, m: nat, i: nat)
    requires Traced(states, events) && m < |states| && i < |states[m].calls|
    ensures BeyondThrottle(states[m].calls[i]) ==> exists k :: 0 <= k < m && ThrottleOpenAt(states, events, k, i)
    ensures BeyondRevoked(states[m].calls[i]) ==> exists k :: 0 <= k < m && NotRevokedAt(states, events, k, i)
    decreases m
  {
    hide Next, BeyondThrottle, BeyondRevoked;
    if m == 0 {
      FirstIsBefore(states, i);
    } else {
      assert Happens(states[m - 1], states[m], events[m - 1]);
      hide Happens;
      StepLetThrough(states[m - 1], states[m], events[m - 1], i);
      ChecksOnlyLetThrough(states, events, m - 1, i);
      if states[m - 1].calls[i].AskingThrottle? && events[m - 1] == Command(i, Yes) {
        assert ThrottleOpenAt(states, events, m - 1, i);
      }
      if states[m - 1].calls[i].AskingRevoked? && events[m - 1] == Command(i, No) {
        assert NotRevokedAt(states, events, m - 1, i);
      }
    }
  }

  lemma {:induction false} FirstIsBefore(states: seq<State>, i: nat)
    requires Run(states) && i < |states[0].calls|
    ensures !BeyondThrottle(states[0].calls[i]) && !BeyondRevoked(states[0].calls[i])
  {
  }

  // ---- A wrong code ----

  predicate Done(call: Call) {
    call.Ending? || call.Over?
  }

  lemma {:induction false} StepDone(s: State, next: State, event: Event, i: nat)
    requires Happens(s, next, event) && i < |s.calls|
    ensures i < |next.calls|
    ensures Done(s.calls[i]) ==> Done(next.calls[i])
    ensures s.calls[i].Checking? && event.Command? && event.i == i && event.answer != Yes ==> Done(next.calls[i])
  {
  }

  /** A wrong code, or a check that throws, never leads its call to the challenge or to a session. */
  lemma {:induction false} WrongCodeEnds(states: seq<State>, events: seq<Event>, k: nat, i: nat, answer: Answer, m: nat)
    requires Traced(states, events) && ChecksAt(states, events, k, i, answer) && answer != Yes && k < m < |states|
    ensures i < |states[m].calls| && Done(states[m].calls[i])
    decreases m
  {
    hide Next, Done;
    assert Happens(states[m - 1], states[m], events[m - 1]);
    hide Happens;
    if m - 1 > k {
      WrongCodeEnds(states, events, k, i, answer, m - 1);
    }
    StepDone(states[m - 1], states[m], events[m - 1], i);
  }

  // ---- A right code ----

  /** The commands of one call in turn. */
  function Alone(s: State, i: nat, answers: seq<Answer>): State
    requires i < |s.calls|
    ensures |Alone(s, i, answers).calls| == |s.calls|
  {
    if answers == [] then s else Next(Alone(s, i, answers[..|answers| - 1]), i, answers[|answers| - 1])
  }

  lemma {:induction false} OneMore(s: State, i: nat, answers: seq<Answer>, answer: Answer)
    requires i < |s.calls|
    ensures Alone(s, i, answers + [answer]) == Next(Alone(s, i, answers), i, answer)
  {
    hide Next;
    assert (answers + [answer])[..|answers|] == answers;
  }

  lemma {:induction false} MovedTwice(s: State, i: nat, call: Call, later: Call)
    requires i < |s.calls|
    ensures Moved(Moved(s, i, call), i, later) == Moved(s, i, later)
  {
    assert s.calls[i := call][i := later] == s.calls[i := later];
  }

  /** With an attempt counted, about to check its code. */
  function AtCheck(s: State, i: nat): State
    requires i < |s.calls| && s.challenge.Some?
  {
    Moved(s.(challenge := Some(s.challenge.value + 1), counted := s.counted + 1), i, Checking(s.challenge.value + 1))
  }

  lemma {:induction false} ReachesCounting(s: State, i: nat)
    requires i < |s.calls| && s.calls[i].Getting? && s.challenge.Some?
    ensures Alone(s, i, [Yes, Yes]) == Moved(s, i, Counting)
  {
    hide Alone, Moved;
    AloneNone(s, i);
    OneMore(s, i, [], Yes);
    assert [] + [Yes] == [Yes];
    assert Next(s, i, Yes) == Moved(s, i, AskingThrottle);
    MovedAt(s, i, AskingThrottle);
    OneMore(s, i, [Yes], Yes);
    assert [Yes] + [Yes] == [Yes, Yes];
    MovedTwice(s, i, AskingThrottle, Counting);
  }

  lemma {:induction false} AloneNone(s: State, i: nat)
    requires i < |s.calls|
    ensures Alone(s, i, []) == s
  {
  }

  lemma {:induction false} MovedAt(s: State, i: nat, call: Call)
    requires i < |s.calls|
    ensures var next := Moved(s, i, call);
            |next.calls| == |s.calls| && next.calls[i] == call
            && next.challenge == s.challenge && next.counted == s.counted && next.checked == s.checked && next.sessions == s.sessions
  {
  }

  lemma {:induction false} ReachesCheck(s: State, i: nat)
    requires i < |s.calls| && s.calls[i].Getting? && s.challenge.Some? && s.challenge.value < SECOND_FACTOR_MAX_ATTEMPTS
    ensures Alone(s, i, [Yes, Yes, Yes, No, Yes]) == AtCheck(s, i)
  {
    hide Alone;
    ReachesCounting(s, i);
    OneMore(s, i, [Yes, Yes], Yes);
    OneMore(s, i, [Yes, Yes, Yes], No);
    OneMore(s, i, [Yes, Yes, Yes, No], Yes);
    assert [Yes, Yes] + [Yes] == [Yes, Yes, Yes];
    assert [Yes, Yes, Yes] + [No] == [Yes, Yes, Yes, No];
    assert [Yes, Yes, Yes, No] + [Yes] == [Yes, Yes, Yes, No, Yes];
    var n := s.challenge.value + 1;
    var counted := s.(challenge := Some(n), counted := s.counted + 1);
    MovedTwice(counted, i, Counting, AskingRevoked(n));
    MovedTwice(counted, i, AskingRevoked(n), LoadingKeys(n));
    MovedTwice(counted, i, LoadingKeys(n), Checking(n));
    assert Alone(s, i, [Yes, Yes, Yes]) == Moved(counted, i, AskingRevoked(n));
    assert Alone(s, i, [Yes, Yes, Yes, No]) == Moved(counted, i, LoadingKeys(n));
  }

  /**
   * A call alone on a live challenge with an attempt left, let through by the throttle and
   * not revoked, checks its code; with the right one it gets a session and ends the
   * challenge.
   */
  lemma {:induction false} RightCodeGetsSession(s: State, i: nat)
    requires i < |s.calls| && s.calls[i].Getting? && s.challenge.Some? && s.challenge.value < SECOND_FACTOR_MAX_ATTEMPTS
    ensures var after := Alone(s, i, [Yes, Yes, Yes, No, Yes, Yes, Yes, Yes]);
            && |after.checked| == |s.checked| + 1 && after.sessions == s.sessions + 1
            && after.challenge.None? && after.calls[i].Over?
  {
    hide Alone;
    ReachesCheck(s, i);
    OneMore(s, i, [Yes, Yes, Yes, No, Yes], Yes);
    OneMore(s, i, [Yes, Yes, Yes, No, Yes, Yes], Yes);
    OneMore(s, i, [Yes, Yes, Yes, No, Yes, Yes, Yes], Yes);
    assert [Yes, Yes, Yes, No, Yes] + [Yes] == [Yes, Yes, Yes, No, Yes, Yes];
    assert [Yes, Yes, Yes, No, Yes, Yes] + [Yes] == [Yes, Yes, Yes, No, Yes, Yes, Yes];
    assert [Yes, Yes, Yes, No, Yes, Yes, Yes] + [Yes] == [Yes, Yes, Yes, No, Yes, Yes, Yes, Yes];
    assert Alone(s, i, [Yes, Yes, Yes, No, Yes, Yes]).calls[i].Taking?;
  }

  /** With a wrong code it gets none, and the challenge stays with one attempt more, unless that was the last. */
  lemma {:induction false} WrongCodeGetsNone(s: State, i: nat)
    requires i < |s.calls| && s.calls[i].Getting? && s.challenge.Some? && s.challenge.value < SECOND_FACTOR_MAX_ATTEMPTS
    ensures var after := Alone(s, i, [Yes, Yes, Yes, No, Yes, No, Yes]);
            && |after.checked| == |s.checked| + 1 && after.sessions == s.sessions && after.calls[i].Over?
            && after.challenge == (if s.challenge.value + 1 == SECOND_FACTOR_MAX_ATTEMPTS then None else Some(s.challenge.value + 1))
  {
    hide Alone;
    ReachesCheck(s, i);
    OneMore(s, i, [Yes, Yes, Yes, No, Yes], No);
    OneMore(s, i, [Yes, Yes, Yes, No, Yes, No], Yes);
    assert [Yes, Yes, Yes, No, Yes] + [No] == [Yes, Yes, Yes, No, Yes, No];
    assert [Yes, Yes, Yes, No, Yes, No] + [Yes] == [Yes, Yes, Yes, No, Yes, No, Yes];
  }
}
