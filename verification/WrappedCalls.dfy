/** Tool calls under a timeout, sharing the breaker of their tool and tenant. A step is one
    uninterrupted stretch of the source: up to the first await, a timer or abort callback, or
    what runs once the tool's own `execute` has settled. */
module WrappedCalls {
  import opened CircuitBreaker

  /** How the tool's `execute` settled; a result may be one `JSON.stringify` gives no text for. */
  datatype Settled = Returned(serializable: bool) | Threw

  /** The two readings of one `recordFailure`, and those of the up to two records of a call. */
  datatype Clock = Clock(checkedAt: nat, openedAt: nat)

  datatype Clocks = Clocks(first: Clock, second: Clock)

  function ClockAt(clocks: Clocks, i: nat): Clock {
    if i == 0 then clocks.first else clocks.second
  }

  datatype Action =
    | Admit
    | Reject
    | TimeoutFires(c: nat)
    | CallerAborts(c: nat)
    | Settle(c: nat, how: Settled, clocks: Clocks)

  datatype Step = Step(now: nat, action: Action)

  /** A call that was let in: whether its timer fired, its caller aborted, and it is over. */
  datatype Call = Call(timedOut: bool, aborted: bool, done: bool)

  datatype State = State(breaker: Breaker, calls: seq<Call>)

  datatype Outcome = Succeeded | TimedOut | Raised

  /** What a call records when `execute` settles. */
  function Verdict(timedOut: bool, aborted: bool, how: Settled): seq<Outcome> {
    match how
    case Returned(serializable) =>
      if timedOut then [TimedOut, TimedOut]
      else if serializable || aborted then [Succeeded]
      else [Succeeded, Raised]
    case Threw => if timedOut then [TimedOut] else if aborted then [] else [Raised]
  }

  function EventOf(o: Outcome, clock: Clock): Event {
    if o.Succeeded? then Success else Failure(clock.checkedAt, clock.openedAt)
  }

  function EventsOf(os: seq<Outcome>, clocks: Clocks): (h: seq<Event>)
    ensures |h| == |os|
  {
    seq(|os|, i requires 0 <= i < |os| => EventOf(os[i], ClockAt(clocks, i)))
  }

  predicate Enabled(s: State, step: Step) {
    match step.action
    case Admit => !IsOpen(s.breaker, step.now)
    case Reject => IsOpen(s.breaker, step.now)
    case TimeoutFires(c) => c < |s.calls| && !s.calls[c].done && !s.calls[c].timedOut
    case CallerAborts(c) => c < |s.calls| && !s.calls[c].done
    case Settle(c, _, _) => c < |s.calls| && !s.calls[c].done
  }

  /** What a step records. */
  function Outcomes(s: State, step: Step): seq<Outcome>
    requires Enabled(s, step)
  {
    match step.action
    case Settle(c, how, _) => Verdict(s.calls[c].timedOut, s.calls[c].aborted, how)
    case _ => []
  }

  /** The same as breaker events. */
  function Records(s: State, step: Step): seq<Event>
    requires Enabled(s, step)
  {
    if step.action.Settle? then EventsOf(Outcomes(s, step), step.action.clocks) else []
  }

  function NextCalls(s: State, step: Step): seq<Call>
    requires Enabled(s, step)
  {
    match step.action
    case Admit => s.calls + [Call(false, false, false)]
    case Reject => s.calls
    case TimeoutFires(c) => s.calls[c := s.calls[c].(timedOut := true)]
    case CallerAborts(c) => s.calls[c := s.calls[c].(aborted := true)]
    case Settle(c, _, _) => s.calls[c := s.calls[c].(done := true)]
  }

  function Do(cfg: Config, s: State, step: Step): State
    requires Enabled(s, step)
  {
    State(After(cfg, s.breaker, Records(s, step)), NextCalls(s, step))
  }

  const INITIAL := State(CLOSED, [])

  /** A run from a state: every step is possible when it is taken. */
  ghost predicate Runs(cfg: Config, s: State, run: seq<Step>)
    decreases |run|, 0
  {
    run == [] || (Runs(cfg, s, run[..|run| - 1]) && Enabled(Reached(cfg, s, run[..|run| - 1]), run[|run| - 1]))
  }

  ghost function Reached(cfg: Config, s: State, run: seq<Step>): State
    requires Runs(cfg, s, run)
    decreases |run|, 1
  {
    if run == [] then s else Do(cfg, Reached(cfg, s, run[..|run| - 1]), run[|run| - 1])
  }

  lemma {:induction false} RunsPrefix(cfg: Config, s: State, run: seq<Step>, n: nat)
    requires Runs(cfg, s, run) && n <= |run|
    ensures Runs(cfg, s, run[..n])
    decreases |run| - n
  {
    if n < |run| {
      RunsPrefix(cfg, s, run, n + 1);
      assert run[..n + 1][..n] == run[..n];
    } else {
      assert run[..n] == run;
    }
  }

  /** The outcomes recorded by the whole run, as breaker events. */
  ghost function History(cfg: Config, s: State, run: seq<Step>): seq<Event>
    requires Runs(cfg, s, run)
  {
    if run == [] then []
    else
      var front, step := run[..|run| - 1], run[|run| - 1];
      History(cfg, s, front) + Records(Reached(cfg, s, front), step)
  }

  /** The shared breaker is the fold of everything the calls recorded, in order. */
  lemma {:induction false} BreakerIsFold(cfg: Config, run: seq<Step>)
    requires Runs(cfg, INITIAL, run)
    ensures Reached(cfg, INITIAL, run).breaker == Fold(cfg, History(cfg, INITIAL, run))
  {
    if run != [] {
      var front, step := run[..|run| - 1], run[|run| - 1];
      BreakerIsFold(cfg, front);
      AfterConcat(cfg, CLOSED, History(cfg, INITIAL, front),
                  Records(Reached(cfg, INITIAL, front), step));
    }
  }

  // ----- No admission while open -----

  /** Step m records a success of a call that was already in when there were n calls. */
  ghost predicate EarlierCallSucceeds(cfg: Config, s: State, run: seq<Step>, n: nat, m: nat)
    requires Runs(cfg, s, run) && m < |run|
  {
    RunsPrefix(cfg, s, run, m);
    RunsPrefix(cfg, s, run, m + 1);
    assert run[..m + 1][..m] == run[..m];
    && run[m].action.Settle? && run[m].action.c < n
    && Succeeded in Outcomes(Reached(cfg, s, run[..m]), run[m])
  }

  /** Whatever the step reads of the clock to see whether the breaker is open is before then. */
  predicate ReadsBefore(step: Step, limit: nat) {
    && step.now < limit
    && (step.action.Settle? ==>
          step.action.clocks.first.checkedAt < limit && step.action.clocks.second.checkedAt < limit)
  }

  lemma OutcomesWithoutSuccess(cfg: Config, s: State, step: Step)
    requires Enabled(s, step) && Succeeded !in Outcomes(s, step)
    requires ReadsBefore(step, s.breaker.openUntil)
    ensures Do(cfg, s, step).breaker.openUntil == s.breaker.openUntil
  {
    var os := Outcomes(s, step);
    forall i | 0 <= i < |Records(s, step)|
      ensures Records(s, step)[i].Failure? && Records(s, step)[i].checkedAt < s.breaker.openUntil
    {
      assert os[i] in os;
    }
    FailuresKeepWindow(cfg, s.breaker, Records(s, step));
  }

  /** Until a call of before succeeds, the window stands and nobody is let in. */
  lemma {:induction false} WindowStands(cfg: Config, s: State, run: seq<Step>)
    requires Runs(cfg, s, run)
    requires forall k | 0 <= k < |run| :: ReadsBefore(run[k], s.breaker.openUntil)
    requires forall m | 0 <= m < |run| :: !EarlierCallSucceeds(cfg, s, run, |s.calls|, m)
    ensures Reached(cfg, s, run).breaker.openUntil == s.breaker.openUntil
    ensures |Reached(cfg, s, run).calls| == |s.calls|
  {
    if run != [] {
      var n := |run| - 1;
      var front, step := run[..n], run[n];
      forall m | 0 <= m < n ensures !EarlierCallSucceeds(cfg, s, front, |s.calls|, m) {
        assert front[..m] == run[..m];
        assert !EarlierCallSucceeds(cfg, s, run, |s.calls|, m);
      }
      WindowStands(cfg, s, front);
      assert !EarlierCallSucceeds(cfg, s, run, |s.calls|, n);
      OutcomesWithoutSuccess(cfg, Reached(cfg, s, front), step);
    }
  }

  /** From a state whose breaker is open until u, a call is let in before u only if some call
      that was in flight in that state has recorded a success in between. */
  lemma NoAdmissionWhileOpen(cfg: Config, s: State, run: seq<Step>, now: nat) returns (m: nat)
    requires Runs(cfg, s, run) && Enabled(Reached(cfg, s, run), Step(now, Admit))
    requires now < s.breaker.openUntil
    requires forall k | 0 <= k < |run| :: ReadsBefore(run[k], now + 1)
    ensures m < |run| && EarlierCallSucceeds(cfg, s, run, |s.calls|, m)
    ensures !s.calls[run[m].action.c].done
  {
    if forall k: nat | k < |run| :: !EarlierCallSucceeds(cfg, s, run, |s.calls|, k) {
      WindowStands(cfg, s, run);
    }
    m :| m < |run| && EarlierCallSucceeds(cfg, s, run, |s.calls|, m);
    RunsPrefix(cfg, s, run, m);
    RunsPrefix(cfg, s, run, m + 1);
    assert run[..m + 1][..m] == run[..m];
    if s.calls[run[m].action.c].done { DoneStays(cfg, s, run[..m], run[m].action.c); }
  }

  lemma {:induction false} DoneStays(cfg: Config, s: State, run: seq<Step>, c: nat)
    requires Runs(cfg, s, run) && c < |s.calls| && s.calls[c].done
    ensures c < |Reached(cfg, s, run).calls| && Reached(cfg, s, run).calls[c].done
  {
    if run != [] { DoneStays(cfg, s, run[..|run| - 1], c); }
  }

  /** The source's comment speaks of one probe after the window; in fact any number of calls is
      let in at once. */
  lemma {:induction false} ProbesUnlimited(cfg: Config, s: State, now: nat, n: nat) returns (run: seq<Step>)
    requires !IsOpen(s.breaker, now)
    ensures |run| == n && Runs(cfg, s, run) && forall k | 0 <= k < n :: run[k] == Step(now, Admit)
    ensures Reached(cfg, s, run).breaker == s.breaker
    ensures |Reached(cfg, s, run).calls| == |s.calls| + n
    ensures forall k | |s.calls| <= k < |s.calls| + n :: !Reached(cfg, s, run).calls[k].done
  {
    if n == 0 {
      run := [];
    } else {
      var front := ProbesUnlimited(cfg, s, now, n - 1);
      run := front + [Step(now, Admit)];
      assert run[..n - 1] == front;
    }
  }

  ghost predicate AllAdmit(run: seq<Step>, now: nat) {
    forall k | 0 <= k < |run| :: run[k] == Step(now, Admit)
  }

  /** Exactly when no more than one call is let in at one time: the breaker is open, and then
      none is. */
  lemma OneProbeExactly(cfg: Config, s: State, now: nat)
    ensures (forall run | Runs(cfg, s, run) && AllAdmit(run, now) :: |run| <= 1) <==> IsOpen(s.breaker, now)
    ensures IsOpen(s.breaker, now) ==> forall run | Runs(cfg, s, run) && AllAdmit(run, now) :: run == []
  {
    if IsOpen(s.breaker, now) {
      forall run | Runs(cfg, s, run) && AllAdmit(run, now) ensures run == [] {
        if run != [] {
          RunsPrefix(cfg, s, run, 1);
        }
      }
    } else {
      var run := ProbesUnlimited(cfg, s, now, 2);
      assert AllAdmit(run, now);
    }
  }

  // ----- What each call records -----

  /** Everything call c recorded during a run of a new breaker. */
  ghost function Recorded(cfg: Config, run: seq<Step>, c: nat): seq<Outcome>
    requires Runs(cfg, INITIAL, run)
  {
    if run == [] then []
    else
      var front, step := run[..|run| - 1], run[|run| - 1];
      Recorded(cfg, front, c)
      + (if step.action.Settle? && step.action.c == c then Outcomes(Reached(cfg, INITIAL, front), step) else [])
  }

  ghost predicate FiredBefore(run: seq<Step>, c: nat, i: int) {
    exists k | 0 <= k < |run| :: k < i && run[k].action == TimeoutFires(c)
  }

  ghost predicate AbortedBefore(run: seq<Step>, c: nat, i: int) {
    exists k | 0 <= k < |run| :: k < i && run[k].action == CallerAborts(c)
  }

  ghost predicate SettlesAt(run: seq<Step>, c: nat, i: nat) {
    i < |run| && run[i].action.Settle? && run[i].action.c == c
  }

  /** The flags of a call say what happened to it. */
  ghost predicate FlagsTell(s: State, run: seq<Step>, c: nat) {
    if c < |s.calls| then
      && s.calls[c].timedOut == FiredBefore(run, c, |run|)
      && s.calls[c].aborted == AbortedBefore(run, c, |run|)
      && (s.calls[c].done <==> exists i: nat :: SettlesAt(run, c, i))
    else
      && !FiredBefore(run, c, |run|) && !AbortedBefore(run, c, |run|)
      && forall i: nat :: !SettlesAt(run, c, i)
  }

  lemma FlagsStep(cfg: Config, s: State, front: seq<Step>, step: Step, c: nat)
    requires FlagsTell(s, front, c) && Enabled(s, step)
    ensures FlagsTell(Do(cfg, s, step), front + [step], c)
  {
    var run := front + [step];
    assert run[|front|] == step;
    assert forall k | 0 <= k < |front| :: run[k] == front[k];
    forall i: nat
      ensures SettlesAt(run, c, i)
              <==> SettlesAt(front, c, i) || (i == |front| && step.action.Settle? && step.action.c == c)
    {
    }
    assert FiredBefore(run, c, |run|) <==> FiredBefore(front, c, |front|) || step.action == TimeoutFires(c);
    assert AbortedBefore(run, c, |run|) <==> AbortedBefore(front, c, |front|) || step.action == CallerAborts(c);
    assert step.action.Settle? && step.action.c == c ==> SettlesAt(run, c, |front|);
  }

  lemma {:induction false} Flags(cfg: Config, run: seq<Step>, c: nat)
    requires Runs(cfg, INITIAL, run)
    ensures FlagsTell(Reached(cfg, INITIAL, run), run, c)
  {
    if run != [] {
      var front, step := run[..|run| - 1], run[|run| - 1];
      Flags(cfg, front, c);
      FlagsStep(cfg, Reached(cfg, INITIAL, front), front, step, c);
      assert run == front + [step];
    }
  }

  lemma {:induction false} NothingBeforeSettling(cfg: Config, run: seq<Step>, c: nat)
    requires Runs(cfg, INITIAL, run) && forall i: nat :: !SettlesAt(run, c, i)
    ensures Recorded(cfg, run, c) == []
  {
    if run != [] {
      var n := |run| - 1;
      assert !SettlesAt(run, c, n);
      forall i: nat ensures !SettlesAt(run[..n], c, i) {
        assert !SettlesAt(run, c, i);
      }
      NothingBeforeSettling(cfg, run[..n], c);
    }
  }

  /** A call records once it settles, and then exactly what its history prescribes: two timeouts
      for a result after the timer, a success and a failure for a result that cannot be
      serialised, nothing for a throw after its caller aborted but before the timer. */
  lemma {:induction false} RecordsExactly(cfg: Config, run: seq<Step>, c: nat, i: nat)
    requires Runs(cfg, INITIAL, run) && SettlesAt(run, c, i)
    ensures var late, aborted, how := FiredBefore(run, c, i), AbortedBefore(run, c, i), run[i].action.how;
            Recorded(cfg, run, c)
            == (if how.Threw? then if late then [TimedOut] else if aborted then [] else [Raised]
                else if late then [TimedOut] + [TimedOut]
                else if how.serializable || aborted then [Succeeded] else [Succeeded] + [Raised])
  {
    var n := |run| - 1;
    var front := run[..n];
    FlagsPrefix(run, n, c, i);
    assert run == front + [run[n]];
    if i == n {
      RecordsAtSettling(cfg, front, run[n], c);
    } else {
      assert SettlesAt(front, c, i);
      RecordsExactly(cfg, front, c, i);
      SettlesOnce(cfg, run, c, i);
      assert Recorded(cfg, run, c) == Recorded(cfg, front, c) + [];
    }
  }

  lemma FlagsPrefix(run: seq<Step>, n: nat, c: nat, i: nat)
    requires i <= n <= |run|
    ensures FiredBefore(run[..n], c, i) == FiredBefore(run, c, i)
    ensures AbortedBefore(run[..n], c, i) == AbortedBefore(run, c, i)
  {
    assert forall k | 0 <= k < n :: run[..n][k] == run[k];
  }

  lemma SettlesOnce(cfg: Config, run: seq<Step>, c: nat, i: nat)
    requires Runs(cfg, INITIAL, run) && SettlesAt(run, c, i) && i < |run| - 1
    ensures !SettlesAt(run, c, |run| - 1)
  {
    var front := run[..|run| - 1];
    assert SettlesAt(front, c, i);
    Flags(cfg, front, c);
  }

  lemma RecordsAtSettling(cfg: Config, front: seq<Step>, step: Step, c: nat)
    requires Runs(cfg, INITIAL, front + [step]) && step.action.Settle? && step.action.c == c
    requires (front + [step])[..|front|] == front
    ensures Recorded(cfg, front + [step], c)
            == Verdict(FiredBefore(front, c, |front|), AbortedBefore(front, c, |front|), step.action.how)
  {
    var s := Reached(cfg, INITIAL, front);
    Flags(cfg, front, c);
    FlagsOfLive(s, front, step, c);
    NothingBeforeSettling(cfg, front, c);
    assert Recorded(cfg, front + [step], c) == [] + Outcomes(s, step);
  }

  lemma FlagsOfLive(s: State, front: seq<Step>, step: Step, c: nat)
    requires FlagsTell(s, front, c) && Enabled(s, step) && step.action.Settle? && step.action.c == c
    ensures forall i: nat :: !SettlesAt(front, c, i)
    ensures Outcomes(s, step)
            == Verdict(FiredBefore(front, c, |front|), AbortedBefore(front, c, |front|), step.action.how)
  {
  }

  /** A call its caller cancelled before any timeout, and whose execute then throws, leaves no
      trace on the breaker. */
  lemma CancelledRecordsNothing(cfg: Config, run: seq<Step>, c: nat, i: nat)
    requires Runs(cfg, INITIAL, run) && SettlesAt(run, c, i) && run[i].action.how == Threw
    requires AbortedBefore(run, c, i) && !FiredBefore(run, c, i)
    ensures Recorded(cfg, run, c) == []
  {
    RecordsExactly(cfg, run, c, i);
  }

  /** Exactly one outcome is recorded unless the result came late, could not be serialised, or
      the call was cancelled. */
  lemma OneOutcomeExactly(cfg: Config, run: seq<Step>, c: nat, i: nat)
    requires Runs(cfg, INITIAL, run) && SettlesAt(run, c, i)
    ensures |Recorded(cfg, run, c)| == 1
            <==> match run[i].action.how
                 case Returned(ok) => !FiredBefore(run, c, i) && (ok || AbortedBefore(run, c, i))
                 case Threw => FiredBefore(run, c, i) || !AbortedBefore(run, c, i)
  {
    RecordsExactly(cfg, run, c, i);
  }

  lemma NoneRecorded(cfg: Config, b: Breaker, clocks: Clocks)
    ensures After(cfg, b, EventsOf([], clocks)) == b
  {
    assert EventsOf([], clocks) == [];
  }

  lemma OneRecorded(cfg: Config, b: Breaker, o: Outcome, clocks: Clocks)
    ensures After(cfg, b, EventsOf([o], clocks)) == Record(cfg, b, EventOf(o, clocks.first))
  {
    var e := EventOf(o, clocks.first);
    assert EventsOf([o], clocks) == [e] && [] + [e] == [e];
    AfterLast(cfg, b, [], e);
  }

  lemma TwoRecorded(cfg: Config, b: Breaker, o: Outcome, p: Outcome, clocks: Clocks)
    ensures After(cfg, b, EventsOf([o, p], clocks))
            == Record(cfg, Record(cfg, b, EventOf(o, clocks.first)), EventOf(p, clocks.second))
  {
    var e, f := EventOf(o, clocks.first), EventOf(p, clocks.second);
    assert EventsOf([o, p], clocks) == [e] + [f] && [] + [e] == [e];
    AfterLast(cfg, b, [e], f);
    AfterLast(cfg, b, [], e);
  }

  /** What a call that settles does to the breaker `b`, in terms of its two fields. A result in time
      closes it, and one that cannot be serialised then leaves one failure; a throw before the timer
      adds one failure, or none if the caller has aborted; after the timer a throw adds one failure
      and a result two. */
  lemma SettlingMeans(cfg: Config, b: Breaker, late: bool, aborted: bool, how: Settled, clocks: Clocks)
    ensures var t := After(cfg, b, EventsOf(Verdict(late, aborted, how), clocks));
            && (how.Returned? && !late && (how.serializable || aborted) ==> t.failures == 0 && t.openUntil == 0)
            && (how.Returned? && !late && !how.serializable && !aborted ==>
                  && t.failures == 1
                  && t.openUntil == if cfg.failureThreshold <= 1 then clocks.second.openedAt + cfg.openMs else 0)
            && (how.Threw? && !late && aborted ==> t.failures == b.failures && t.openUntil == b.openUntil)
            && (how.Threw? && (late || !aborted) ==>
                  && t.failures == b.failures + 1
                  && t.openUntil == if b.openUntil > clocks.first.checkedAt || t.failures < cfg.failureThreshold
                                    then b.openUntil else clocks.first.openedAt + cfg.openMs)
            && (how.Returned? && late ==> t.failures == b.failures + 2)
  {
    NoneRecorded(cfg, b, clocks);
    OneRecorded(cfg, b, Succeeded, clocks);
    OneRecorded(cfg, b, TimedOut, clocks);
    OneRecorded(cfg, b, Raised, clocks);
    TwoRecorded(cfg, b, Succeeded, Raised, clocks);
    TwoRecorded(cfg, b, TimedOut, TimedOut, clocks);
  }

  /** The same of a step of the machine, with the flags of its call. */
  lemma SettleStepMeans(cfg: Config, s: State, step: Step)
    requires Enabled(s, step) && step.action.Settle?
    ensures var call, how, clocks := s.calls[step.action.c], step.action.how, step.action.clocks;
            var b, t := s.breaker, Do(cfg, s, step).breaker;
            && (how.Returned? && !call.timedOut && (how.serializable || call.aborted) ==> t == Breaker(0, 0))
            && (how.Returned? && !call.timedOut && !how.serializable && !call.aborted ==> t.failures == 1)
            && (how.Threw? && !call.timedOut && call.aborted ==> t == b)
            && (how.Threw? && (call.timedOut || !call.aborted) ==> t.failures == b.failures + 1)
            && (how.Returned? && call.timedOut ==> t.failures == b.failures + 2)
  {
    var call := s.calls[step.action.c];
    SettlingMeans(cfg, s.breaker, call.timedOut, call.aborted, step.action.how, step.action.clocks);
  }

  /** A result that comes after the timer counts as two failures. */
  lemma LateResultCountsTwice(cfg: Config, s: State, step: Step)
    requires Enabled(s, step) && step.action.Settle? && step.action.how.Returned? && s.calls[step.action.c].timedOut
    ensures Do(cfg, s, step).breaker.failures == s.breaker.failures + 2
  {
    SettleStepMeans(cfg, s, step);
  }

  // ----- One call, as the source runs it -----

  /** One more outcome is one more record. */
  lemma Noted(cfg: Config, b: Breaker, os: seq<Outcome>, o: Outcome, clocks: Clocks) returns (more: seq<Outcome>)
    ensures more == os + [o]
    ensures After(cfg, b, EventsOf(more, clocks))
            == Record(cfg, After(cfg, b, EventsOf(os, clocks)), EventOf(o, ClockAt(clocks, |os|)))
  {
    more := os + [o];
    assert EventsOf(more, clocks) == EventsOf(os, clocks) + [EventOf(o, ClockAt(clocks, |os|))];
    AfterLast(cfg, b, EventsOf(os, clocks), EventOf(o, ClockAt(clocks, |os|)));
  }

  class WrappedCall {
    const breaker: BreakerHandle
    var timedOut: bool
    var aborted: bool
    var done: bool

    function Value(): Call
      reads this
    {
      Call(timedOut, aborted, done)
    }

    constructor (breaker: BreakerHandle)
      ensures this.breaker == breaker && Value() == Call(false, false, false)
    {
      this.breaker := breaker;
      timedOut, aborted, done := false, false, false;
    }

    method OnTimer()
      requires !done
      modifies this
      ensures Value() == old(Value()).(timedOut := true)
    {
      timedOut := true;
    }

    method OnAbort()
      modifies this
      ensures Value() == old(Value()).(aborted := true)
    {
      aborted := true;
    }

    /** What runs after `execute` has settled. */
    method OnSettled(how: Settled, clocks: Clocks)
      requires !done
      modifies this, breaker
      ensures Value() == old(Value()).(done := true)
      ensures var events := EventsOf(Verdict(old(timedOut), old(aborted), how), clocks);
              breaker.Value() == After(breaker.config, old(breaker.Value()), events)
      ensures var failures := old(breaker.Value()).failures;
              breaker.Value().failures
              == if how.Returned? then
                   if old(timedOut) then failures + 2 else if how.serializable || old(aborted) then 0 else 1
                 else if old(timedOut) || !old(aborted) then failures + 1 else failures
      ensures how.Returned? && !old(timedOut) && (how.serializable || old(aborted)) ==> breaker.Value().openUntil == 0
    {
      ghost var before := breaker.Value();
      ghost var os: seq<Outcome> := [];
      var clock := clocks.first;
      var raised := how.Threw?;
      if how.Returned? {
        if timedOut {
          os := Noted(breaker.config, before, os, TimedOut, clocks);
          breaker.RecordFailure(clock.checkedAt, clock.openedAt);
          raised := true;
        } else {
          os := Noted(breaker.config, before, os, Succeeded, clocks);
          breaker.RecordSuccess();
          raised := !how.serializable;
        }
        clock := clocks.second;
      }
      if raised {
        if timedOut {
          os := Noted(breaker.config, before, os, TimedOut, clocks);
          breaker.RecordFailure(clock.checkedAt, clock.openedAt);
        } else if !aborted {
          os := Noted(breaker.config, before, os, Raised, clocks);
          breaker.RecordFailure(clock.checkedAt, clock.openedAt);
        }
      }
      assert os == Verdict(timedOut, aborted, how);
      SettlingMeans(breaker.config, before, timedOut, aborted, how, clocks);
      done := true;
    }
  }

  /** The admission test: null stands for a ToolBreakerOpenError. */
  method Admitted(breaker: BreakerHandle, now: nat) returns (call: WrappedCall?)
    ensures call == null <==> IsOpen(breaker.Value(), now)
    ensures call != null ==> fresh(call) && call.breaker == breaker && call.Value() == Call(false, false, false)
  {
    if IsOpen(breaker.Value(), now) { return null; }
    call := new WrappedCall(breaker);
  }
}
