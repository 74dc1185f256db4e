/** The live event queue of one inline step: the agent pushes sub-events and the generator
    yields them, parking on a promise when there is nothing to yield. JavaScript runs each
    piece between two awaits or yields without interruption, so those pieces are the atomic
    actions here and a run is any interleaving of them. */
module StepEvents {
  /** A sub-event; the runner never looks into it. */
  type Event(==, !new, 0)

  /** Where the generator is: about to test its loop, suspended at a `yield`, waiting for
      `wake`, woken but not yet resumed, or past the loop. */
  datatype Pc = Ready | Yielding | Parked | Waking | Left

  datatype Settled = Pending | Resolved | Rejected

  /** `emitted`, `yielded` and `due` record history; `due` is what had been emitted when the
      step resolved. */
  datatype State = State(
    queue: seq<Event>, wake: bool, finished: bool, pc: Pc, settled: Settled,
    emitted: seq<Event>, yielded: seq<Event>, due: seq<Event>)

  function Init(): State {
    State([], false, false, Ready, Pending, [], [], [])
  }

  datatype Action =
    | Emit(event: Event)  // the agent calls onEvent
    | Resolve             // executeStep resolves
    | Reject              // executeStep rejects
    | Finish              // the `then` callback runs
    | Resume              // the generator runs on to its next suspension

  predicate Enabled(s: State, a: Action) {
    match a
    case Emit(_) => true
    case Resolve => s.settled.Pending?
    case Reject => s.settled.Pending?
    case Finish => s.settled.Resolved? && !s.finished
    case Resume => s.pc.Ready? || s.pc.Yielding? || s.pc.Waking?
  }

  /** `wake?.(); wake = null` */
  function Wake(s: State): State {
    s.(wake := false, pc := if s.wake && s.pc.Parked? then Waking else s.pc)
  }

  function Do(s: State, a: Action): State
    requires Enabled(s, a)
  {
    match a
    case Emit(e) => Wake(s.(queue := s.queue + [e], emitted := s.emitted + [e]))
    case Resolve => s.(settled := Resolved, due := s.emitted)
    case Reject => s.(settled := Rejected)
    case Finish => Wake(s.(finished := true))
    case Resume =>
      if s.queue != [] then
        s.(pc := Yielding, queue := s.queue[1..], yielded := s.yielded + [s.queue[0]])
      else if s.finished then s.(pc := Left)
      else s.(pc := Parked, wake := true)
  }

  predicate Runs(s: State, acts: seq<Action>)
    decreases |acts|
  {
    acts == [] || (Enabled(s, acts[0]) && Runs(Do(s, acts[0]), acts[1..]))
  }

  function After(s: State, acts: seq<Action>): State
    requires Runs(s, acts)
    decreases |acts|
  {
    if acts == [] then s else After(Do(s, acts[0]), acts[1..])
  }

  lemma {:induction false} RunsUpTo(s: State, acts: seq<Action>, i: nat)
    requires Runs(s, acts) && i < |acts|
    ensures Runs(s, acts[..i]) && Enabled(After(s, acts[..i]), acts[i])
    ensures Runs(s, acts[..i + 1]) && After(s, acts[..i + 1]) == Do(After(s, acts[..i]), acts[i])
    decreases |acts|
  {
    if i == 0 {
      assert acts[..1] == [acts[0]] && acts[..1][1..] == [];
    } else {
      RunsUpTo(Do(s, acts[0]), acts[1..], i - 1);
      assert acts[..i][1..] == acts[1..][..i - 1] && acts[..i + 1][1..] == acts[1..][..i];
    }
  }

  ghost predicate Inv(s: State) {
    && s.emitted == s.yielded + s.queue
    && (s.pc.Parked? <==> s.wake)
    && (s.pc.Parked? ==> s.queue == [] && !s.finished)
    && (s.finished ==> s.settled.Resolved?)
    && (s.settled.Resolved? ==> s.due <= s.emitted)
    && (s.pc.Left? ==> s.finished && s.due <= s.yielded)
  }

  lemma {:induction false} InvRun(s: State, acts: seq<Action>)
    requires Inv(s) && Runs(s, acts)
    ensures Inv(After(s, acts))
    ensures s.settled.Rejected? ==> After(s, acts).settled.Rejected?
    ensures s.settled.Resolved? ==> After(s, acts).settled.Resolved? && After(s, acts).due == s.due
    decreases |acts|
  {
    if acts != [] {
      var t := Do(s, acts[0]);
      if acts[0].Resume? && s.queue != [] {
        assert s.queue == [s.queue[0]] + s.queue[1..];
      }
      assert Inv(t);
      InvRun(t, acts[1..]);
    }
  }

  /** Once the generator moves on to `step-done`, the step has resolved and everything
      emitted before it did was yielded exactly once, in emission order; what was yielded
      besides came right after, in order. */
  lemma EveryDueEventYieldedOnce(acts: seq<Action>)
    requires Runs(Init(), acts) && After(Init(), acts).pc.Left?
    ensures var s := After(Init(), acts);
            s.settled.Resolved? && s.due <= s.yielded && s.yielded <= s.emitted
  {
    InvRun(Init(), acts);
  }

  /** No interleaving parks the generator while an event is queued or the step is finished,
      and a parked generator can always be woken. */
  lemma NoLostWakeUp(acts: seq<Action>)
    requires Runs(Init(), acts) && After(Init(), acts).pc.Parked?
    ensures var s := After(Init(), acts); s.queue == [] && !s.finished && s.wake
  {
    InvRun(Init(), acts);
  }

  // ----- Leaving the loop -----

  /** Moves of the runner that a state has left: a resume for each queued event, the callback
      with the resume after it, and the resume that is due. */
  function Distance(s: State): nat {
    |s.queue| + (if s.finished then 0 else 2)
    + (if s.pc.Ready? || s.pc.Yielding? || s.pc.Waking? then 1 else 0)
  }

  /** Actions of the runner. */
  function Moves(acts: seq<Action>): nat {
    if acts == [] then 0
    else (if acts[0].Resume? || acts[0].Finish? then 1 else 0) + Moves(acts[1..])
  }

  /** Events pushed by the agent. */
  function Emits(acts: seq<Action>): nat {
    if acts == [] then 0 else (if acts[0].Emit? then 1 else 0) + Emits(acts[1..])
  }

  /** An event gives the runner two moves at most: yielding it, and parking again. */
  lemma {:induction false} MovesRun(s: State, acts: seq<Action>)
    requires Inv(s) && Runs(s, acts)
    ensures Moves(acts) + Distance(After(s, acts)) <= Distance(s) + 2 * Emits(acts)
    ensures !s.settled.Pending? ==> |acts| == Moves(acts) + Emits(acts)
    decreases |acts|
  {
    if acts != [] {
      InvRun(s, [acts[0]]);
      assert [acts[0]][1..] == [];
      MovesRun(Do(s, acts[0]), acts[1..]);
    }
  }

  /** A resolved step is always left: from any reachable state the runner makes a bounded
      number of moves, two more for each event still pushed, and when it has none left the
      loop is left. */
  lemma ResolvedStepIsLeft(acts: seq<Action>, more: seq<Action>)
    requires Runs(Init(), acts) && After(Init(), acts).settled.Resolved?
    requires Runs(After(Init(), acts), more)
    ensures var s, t := After(Init(), acts), After(After(Init(), acts), more);
            && |more| == Moves(more) + Emits(more)
            && Moves(more) <= Distance(s) + 2 * Emits(more) <= |s.queue| + 3 + 2 * Emits(more)
            && (!Enabled(t, Resume) && !Enabled(t, Finish) ==> t.pc.Left?)
  {
    InvRun(Init(), acts);
    MovesRun(After(Init(), acts), more);
    InvRun(After(Init(), acts), more);
  }

  /** `events` one after the other, each pushed to the parked generator. */
  function OneByOne(events: seq<Event>): seq<Action> {
    if events == [] then [Finish] + ([Resume] + [])
    else [Emit(events[0])] + ([Resume] + ([Resume] + OneByOne(events[1..])))
  }

  /** `acts` leaves the loop from `s` with so many events and moves. */
  ghost predicate Leaves(s: State, acts: seq<Action>, emits: nat, moves: nat) {
    Runs(s, acts) && After(s, acts).pc.Left? && Emits(acts) == emits && Moves(acts) == moves
  }

  lemma LeavesAfter(s: State, a: Action, rest: seq<Action>, emits: nat, moves: nat)
    requires Enabled(s, a) && Leaves(Do(s, a), rest, emits, moves)
    ensures a.Emit? ==> Leaves(s, [a] + rest, emits + 1, moves)
    ensures a.Resume? || a.Finish? ==> Leaves(s, [a] + rest, emits, moves + 1)
  {
    assert ([a] + rest)[1..] == rest;
  }

  lemma {:induction false} OneByOneLeaves(s: State, events: seq<Event>)
    requires Inv(s) && s.pc.Parked? && s.settled.Resolved?
    ensures Leaves(s, OneByOne(events), |events|, 2 * |events| + 2)
    decreases |events|
  {
    if events == [] {
      var woken := Do(s, Finish);
      LeavesAfter(woken, Resume, [], 0, 0);
      LeavesAfter(s, Finish, [Resume] + [], 0, 1);
    } else {
      var woken := Do(s, Emit(events[0]));
      var yielding := Do(woken, Resume);
      var parked := Do(yielding, Resume);
      var n, rest := |events| - 1, OneByOne(events[1..]);
      assert yielding.queue == [] && Inv(parked);
      OneByOneLeaves(parked, events[1..]);
      LeavesAfter(yielding, Resume, rest, n, 2 * n + 2);
      LeavesAfter(woken, Resume, [Resume] + rest, n, 2 * n + 3);
      LeavesAfter(s, Emit(events[0]), [Resume] + ([Resume] + rest), n, 2 * n + 4);
    }
  }

  /** The bound is reached, whatever the events are. */
  lemma LeavingBoundIsReached(events: seq<Event>) returns (more: seq<Action>)
    ensures Runs(Init(), [Resume, Resolve]) && Runs(After(Init(), [Resume, Resolve]), more)
    ensures After(After(Init(), [Resume, Resolve]), more).pc.Left?
    ensures Emits(more) == |events|
    ensures Moves(more) == Distance(After(Init(), [Resume, Resolve])) + 2 * |events|
  {
    assert [Resume, Resolve][1..] == [Resolve] && [Resolve][1..] == [];
    InvRun(Init(), [Resume, Resolve]);
    more := OneByOne(events);
    OneByOneLeaves(After(Init(), [Resume, Resolve]), events);
  }

  /** A rejected step is never left, whatever happens next: `finished` stays unset. */
  lemma RejectedStepIsNeverLeft(acts: seq<Action>, more: seq<Action>)
    requires Runs(Init(), acts) && After(Init(), acts).settled.Rejected?
    requires Runs(After(Init(), acts), more)
    ensures !After(After(Init(), acts), more).pc.Left?
  {
    InvRun(Init(), acts);
    InvRun(After(Init(), acts), more);
  }

  /** Once it has yielded what was queued and pushed, the generator of a rejected step hangs:
      it is parked and nothing but another event could wake it. */
  lemma RejectedStepHangs(acts: seq<Action>, more: seq<Action>)
    requires Runs(Init(), acts) && After(Init(), acts).settled.Rejected?
    requires Runs(After(Init(), acts), more)
    ensures var s, t := After(Init(), acts), After(After(Init(), acts), more);
            && |more| == Moves(more) + Emits(more)
            && Moves(more) <= |s.queue| + 1 + 2 * Emits(more)
            && (t.pc.Parked? <==> forall a :: Enabled(t, a) ==> a.Emit?)
            && (!t.pc.Parked? ==> Enabled(t, Resume))
  {
    InvRun(Init(), acts);
    MovesRun(After(Init(), acts), more);
    InvRun(After(Init(), acts), more);
    var t := After(After(Init(), acts), more);
    assert !t.pc.Parked? ==> Enabled(t, Resume) && !Resume.Emit?;
  }

  // ----- The runner's own variables -----

  /** One step of the inline runner: its `queue`, `wake` and `finished`, and the generator
      around them. */
  class StepChannel {
    var queue: seq<Event>
    var wake: bool
    var finished: bool
    ghost var pc: Pc
    ghost var settled: Settled
    ghost var emitted: seq<Event>
    ghost var yielded: seq<Event>
    ghost var due: seq<Event>

    ghost function St(): State
      reads this
    {
      State(queue, wake, finished, pc, settled, emitted, yielded, due)
    }

    constructor ()
      ensures St() == Init()
    {
      queue, wake, finished := [], false, false;
      pc, settled := Ready, Pending;
      emitted, yielded, due := [], [], [];
    }

    method OnEvent(e: Event)
      modifies this
      ensures St() == Do(old(St()), Emit(e))
    {
      queue := queue + [e];
      emitted := emitted + [e];
      WakeUp();
    }

    /** The `then` callback of the step's promise. */
    method OnResolved()
      requires Enabled(St(), Finish)
      modifies this
      ensures St() == Do(old(St()), Finish)
    {
      finished := true;
      WakeUp();
    }

    /** The promise of the step resolves or rejects. */
    ghost method Settle(how: Settled)
      requires Enabled(St(), Resolve) && !how.Pending?
      modifies this`settled, this`due
      ensures St() == Do(old(St()), if how.Resolved? then Resolve else Reject)
    {
      settled := how;
      if how.Resolved? { due := emitted; }
    }

    method WakeUp()
      modifies this`wake, this`pc
      ensures St() == Wake(old(St()))
    {
      if wake && pc.Parked? { pc := Waking; }
      wake := false;
    }

    /** The generator's loop from one suspension to the next: the event it yields, if any,
        and whether it left the loop. */
    method Next() returns (event: seq<Event>, left: bool)
      requires Enabled(St(), Resume)
      modifies this
      ensures St() == Do(old(St()), Resume)
      ensures left <==> pc.Left?
      ensures yielded == old(yielded) + event
      ensures event == [] ==> left || wake
    {
      event, left := [], false;
      if |queue| > 0 {
        event := [queue[0]];
        queue := queue[1..];
        yielded, pc := yielded + event, Yielding;
      } else if finished {
        left, pc := true, Left;
      } else {
        wake, pc := true, Parked;
      }
    }
  }
}
