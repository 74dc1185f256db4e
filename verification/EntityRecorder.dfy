/** Concurrent exposures of one conversation: every process has its own lock for the thread, the
    working memory is shared. */
module EntityRecorder {
  import opened Options
  import opened JsText
  import opened RecentTasks

  /** `Merged` has read and merged under the lock and is about to write `next`. */
  datatype Phase = Waiting | Locked | ToWrite(next: Raw, now: nat) | Over

  datatype Writer = Writer(process: nat, patch: Patch, phase: Phase)

  datatype Exposure = Exposure(patch: Patch, now: nat)

  /** `log` lists the exposures written, in order. */
  datatype State = State(store: Raw, writers: seq<Writer>, log: seq<Exposure>)

  datatype Action =
    | Start(process: nat, patch: Patch)
    | Acquire(w: nat)
    | ReadAndMerge(w: nat, now: nat)
    | Write(w: nat)
    | Fail(w: nat)

  predicate Holds(w: Writer) {
    w.phase.Locked? || w.phase.ToWrite?
  }

  ghost predicate Free(s: State, process: nat) {
    forall w | 0 <= w < |s.writers| && s.writers[w].process == process :: !Holds(s.writers[w])
  }

  ghost predicate Enabled(s: State, a: Action) {
    match a
    case Start(_, _) => true
    case Acquire(w) => w < |s.writers| && s.writers[w].phase.Waiting? && Free(s, s.writers[w].process)
    case ReadAndMerge(w, _) => w < |s.writers| && s.writers[w].phase.Locked?
    case Write(w) => w < |s.writers| && s.writers[w].phase.ToWrite?
    case Fail(w) => w < |s.writers| && Holds(s.writers[w])
  }

  function At(s: State, w: nat, phase: Phase): seq<Writer>
    requires w < |s.writers|
  {
    s.writers[w := s.writers[w].(phase := phase)]
  }

  ghost function Do(uuid: Text -> bool, s: State, a: Action): State
    requires Enabled(s, a)
  {
    match a
    case Start(process, patch) => s.(writers := s.writers + [Writer(process, patch, Waiting)])
    case Acquire(w) => s.(writers := At(s, w, Locked))
    case ReadAndMerge(w, now) =>
      s.(writers := At(s, w, ToWrite(Recorded(uuid, s.store, s.writers[w].patch, now), now)))
    case Write(w) =>
      State(s.writers[w].phase.next, At(s, w, Over), s.log + [Exposure(s.writers[w].patch, s.writers[w].phase.now)])
    case Fail(w) => s.(writers := At(s, w, Over))
  }

  ghost predicate Runs(uuid: Text -> bool, s: State, run: seq<Action>)
    decreases |run|, 0
  {
    run == []
    || (Runs(uuid, s, run[..|run| - 1]) && Enabled(After(uuid, s, run[..|run| - 1]), run[|run| - 1]))
  }

  ghost function After(uuid: Text -> bool, s: State, run: seq<Action>): State
    requires Runs(uuid, s, run)
    decreases |run|, 1
  {
    if run == [] then s else Do(uuid, After(uuid, s, run[..|run| - 1]), run[|run| - 1])
  }

  function Initial(raw: Raw): State {
    State(raw, [], [])
  }

  /** Exposures recorded one after another. */
  function RecordAll(uuid: Text -> bool, raw: Raw, log: seq<Exposure>): Raw {
    if log == [] then raw
    else Recorded(uuid, RecordAll(uuid, raw, log[..|log| - 1]), log[|log| - 1].patch, log[|log| - 1].now)
  }

  // ----- One process -----

  ghost predicate OneProcess(run: seq<Action>, p: nat) {
    forall i | 0 <= i < |run| && run[i].Start? :: run[i].process == p
  }

  ghost predicate Alone(uuid: Text -> bool, raw: Raw, s: State, p: nat) {
    && (forall w | 0 <= w < |s.writers| :: s.writers[w].process == p)
    && (forall v, w | 0 <= v < w < |s.writers| && Holds(s.writers[v]) :: !Holds(s.writers[w]))
    && (forall w | 0 <= w < |s.writers| :: Fresh(uuid, s.store, s.writers[w]))
    && s.store == RecordAll(uuid, raw, s.log)
  }

  /** A pending write is still the merge of what is stored. */
  ghost predicate Fresh(uuid: Text -> bool, store: Raw, w: Writer) {
    w.phase.ToWrite? ==> w.phase.next == Recorded(uuid, store, w.patch, w.phase.now)
  }

  lemma AloneStep(uuid: Text -> bool, raw: Raw, s: State, p: nat, a: Action)
    requires Alone(uuid, raw, s, p) && Enabled(s, a) && (a.Start? ==> a.process == p)
    ensures Alone(uuid, raw, Do(uuid, s, a), p)
  {
    var t := Do(uuid, s, a);
    if a.Write? {
      assert Fresh(uuid, s.store, s.writers[a.w]);
      assert t.log[..|s.log|] == s.log;
      forall w | 0 <= w < |t.writers| ensures Fresh(uuid, t.store, t.writers[w]) {
        assert w != a.w ==> !Holds(s.writers[w]);
      }
    } else {
      forall w | 0 <= w < |t.writers| ensures Fresh(uuid, t.store, t.writers[w]) {
        if w < |s.writers| { assert Fresh(uuid, s.store, s.writers[w]); }
      }
    }
  }

  lemma {:induction false} AlwaysAlone(uuid: Text -> bool, raw: Raw, run: seq<Action>, p: nat)
    requires Runs(uuid, Initial(raw), run) && OneProcess(run, p)
    ensures Alone(uuid, raw, After(uuid, Initial(raw), run), p)
  {
    if run != [] {
      var front := run[..|run| - 1];
      AlwaysAlone(uuid, raw, front, p);
      AloneStep(uuid, raw, After(uuid, Initial(raw), front), p, run[|run| - 1]);
    }
  }

  /** Exposures of one process never overwrite one another: however they interleave and fail, the
      memory is what recording them one after another leaves. */
  lemma NoLostUpdate(uuid: Text -> bool, raw: Raw, run: seq<Action>, p: nat)
    requires Runs(uuid, Initial(raw), run) && OneProcess(run, p)
    ensures After(uuid, Initial(raw), run).store == RecordAll(uuid, raw, After(uuid, Initial(raw), run).log)
  {
    AlwaysAlone(uuid, raw, run, p);
  }

  // ----- Two processes -----

  ghost predicate Reaches(uuid: Text -> bool, s: State, run: seq<Action>, t: State) {
    Runs(uuid, s, run) && After(uuid, s, run) == t
  }

  lemma Then(uuid: Text -> bool, s: State, run: seq<Action>, t: State, a: Action)
    requires Reaches(uuid, s, run, t) && Enabled(t, a)
    ensures Reaches(uuid, s, run + [a], Do(uuid, t, a))
  {
    assert (run + [a])[..|run|] == run;
  }

  /** The lock is not shared between processes: two of them can both write, and what is left is
      what the second would have left alone. */
  lemma OtherProcessOverwrites(uuid: Text -> bool, raw: Raw, p: nat, q: nat, first: Patch, second: Patch, now: nat)
    returns (run: seq<Action>)
    requires p != q
    ensures Runs(uuid, Initial(raw), run) && forall i | 0 <= i < |run| && run[i].Start? :: run[i].process in {p, q}
    ensures After(uuid, Initial(raw), run).log == [Exposure(first, now), Exposure(second, now)]
    ensures After(uuid, Initial(raw), run).store == Recorded(uuid, raw, second, now)
  {
    var s := Initial(raw);
    run := [];
    var t := s;
    Then(uuid, s, run, t, Start(p, first));
    run, t := run + [Start(p, first)], Do(uuid, t, Start(p, first));
    Then(uuid, s, run, t, Start(q, second));
    run, t := run + [Start(q, second)], Do(uuid, t, Start(q, second));
    Then(uuid, s, run, t, Acquire(0));
    run, t := run + [Acquire(0)], Do(uuid, t, Acquire(0));
    Then(uuid, s, run, t, Acquire(1));
    run, t := run + [Acquire(1)], Do(uuid, t, Acquire(1));
    run, t := BothWrite(uuid, s, run, t, now);
  }

  lemma BothWrite(uuid: Text -> bool, s: State, before: seq<Action>, at: State, now: nat)
    returns (run: seq<Action>, t: State)
    requires Reaches(uuid, s, before, at) && |at.writers| == 2 && at.log == []
    requires at.writers[0].phase.Locked? && at.writers[1].phase.Locked?
    ensures Reaches(uuid, s, run, t) && before <= run && forall i | |before| <= i < |run| :: !run[i].Start?
    ensures t.log == [Exposure(at.writers[0].patch, now), Exposure(at.writers[1].patch, now)]
    ensures t.store == Recorded(uuid, at.store, at.writers[1].patch, now)
  {
    run, t := before, at;
    Then(uuid, s, run, t, ReadAndMerge(0, now));
    run, t := run + [ReadAndMerge(0, now)], Do(uuid, t, ReadAndMerge(0, now));
    Then(uuid, s, run, t, ReadAndMerge(1, now));
    run, t := run + [ReadAndMerge(1, now)], Do(uuid, t, ReadAndMerge(1, now));
    Then(uuid, s, run, t, Write(0));
    run, t := run + [Write(0)], Do(uuid, t, Write(0));
    Then(uuid, s, run, t, Write(1));
    run, t := run + [Write(1)], Do(uuid, t, Write(1));
  }

  /** No run over the processes of the set ever loses an exposure. */
  ghost predicate LosesNothing(uuid: Text -> bool, processes: set<nat>) {
    forall raw, run | Runs(uuid, Initial(raw), run) && Among(run, processes) ::
      After(uuid, Initial(raw), run).store == RecordAll(uuid, raw, After(uuid, Initial(raw), run).log)
  }

  ghost predicate Among(run: seq<Action>, processes: set<nat>) {
    forall i | 0 <= i < |run| && run[i].Start? :: run[i].process in processes
  }

  function Discussing(id: Text): Patch {
    Patch(None, Some(Some(id)), None, None, None)
  }

  function Nothing(): Patch {
    Patch(None, None, None, None, None)
  }

  /** A second exposure that says nothing of the task discussed must keep it. */
  lemma DiscussedIsKept(uuid: Text -> bool, id: Text, now: nat)
    requires uuid(id)
    ensures RecordAll(uuid, Missing, [Exposure(Discussing(id), now), Exposure(Nothing(), now)])
            != Recorded(uuid, Missing, Nothing(), now)
  {
    var a, b := Exposure(Discussing(id), now), Exposure(Nothing(), now);
    assert [a, b][..1] == [a] && [a][..0] == [];
    var one := Recorded(uuid, Missing, Discussing(id), now);
    assert RecordAll(uuid, Missing, [a]) == one;
    assert ParseEntities(uuid, one).lastDiscussedTaskId == Some(id);
    assert RecordAll(uuid, Missing, [a, b]) == Recorded(uuid, one, Nothing(), now);
    assert Recorded(uuid, one, Nothing(), now).value.lastDiscussedTaskId == Some(id);
  }

  /** A lock of each process is enough exactly when all exposures come from one process. */
  lemma OneProcessExactly(uuid: Text -> bool, processes: set<nat>, id: Text)
    requires uuid(id)
    ensures LosesNothing(uuid, processes) <==> forall p, q | p in processes && q in processes :: p == q
  {
    if p, q :| p in processes && q in processes && p != q {
      var run := OtherProcessOverwrites(uuid, Missing, p, q, Discussing(id), Nothing(), 0);
      assert Among(run, processes);
      DiscussedIsKept(uuid, id, 0);
    } else {
      var p: nat := if processes == {} then 0 else var p :| p in processes; p;
      forall raw, run | Runs(uuid, Initial(raw), run) && Among(run, processes)
        ensures After(uuid, Initial(raw), run).store == RecordAll(uuid, raw, After(uuid, Initial(raw), run).log)
      {
        NoLostUpdate(uuid, raw, run, p);
      }
    }
  }

  // ----- The list in every run -----

  ghost predicate Tidy(uuid: Text -> bool, raw: Raw, now: nat) {
    var tasks := ParseEntities(uuid, raw).recentTasks;
    |tasks| <= MAX_TASKS && DistinctIds(tasks) && NewestFirst(tasks) && NotAfter(tasks, now)
  }

  lemma RecordedTidy(uuid: Text -> bool, raw: Raw, patch: Patch, now: nat, limit: nat)
    requires Tidy(uuid, raw, limit) && now <= limit
    ensures Tidy(uuid, Recorded(uuid, raw, patch, now), limit)
  {
    var current := ParseEntities(uuid, raw);
    ReadBackExactly(uuid, raw, patch, now);
    if patch.recentTasks.Some? {
      MergedTidy(current.recentTasks, patch.recentTasks.value, now, limit);
    }
  }

  lemma MergedTidy(existing: seq<RecentTask>, incoming: seq<Shown>, now: nat, limit: nat)
    requires NotAfter(existing, limit) && now <= limit
    ensures var tasks := Merged(existing, incoming, now);
            |tasks| <= MAX_TASKS && DistinctIds(tasks) && NewestFirst(tasks) && NotAfter(tasks, limit)
  {
    var tasks := Merged(existing, incoming, now);
    MergeShape(existing, incoming, now);
    forall t | t in tasks ensures t.lastSeenAt <= limit {
      var i: nat :| i < |tasks| && tasks[i] == t;
      MergedMembers(existing, incoming, now, i);
    }
  }

  ghost predicate AllTidy(uuid: Text -> bool, s: State, limit: nat) {
    && Tidy(uuid, s.store, limit)
    && forall w | 0 <= w < |s.writers| && s.writers[w].phase.ToWrite? :: Tidy(uuid, s.writers[w].phase.next, limit)
  }

  /** In every run, over any number of processes, the list read back has at most ten tasks with
      distinct ids, newest first, none later than the clock has been. */
  lemma {:induction false} AlwaysTidy(uuid: Text -> bool, run: seq<Action>, limit: nat)
    requires Runs(uuid, Initial(Missing), run)
    requires forall i | 0 <= i < |run| && run[i].ReadAndMerge? :: run[i].now <= limit
    ensures AllTidy(uuid, After(uuid, Initial(Missing), run), limit)
  {
    if run != [] {
      var front, a := run[..|run| - 1], run[|run| - 1];
      AlwaysTidy(uuid, front, limit);
      var s := After(uuid, Initial(Missing), front);
      if a.ReadAndMerge? { RecordedTidy(uuid, s.store, s.writers[a.w].patch, a.now, limit); }
    }
  }

  // ----- As the source writes it -----

  class ThreadMemory {
    var raw: Raw

    constructor ()
      ensures raw == Missing
    {
      raw := Missing;
    }

    /** `recordEntityExposure` while nobody else holds the lock. `known` says whether the request
        carries a memory handle and a thread id, `works` whether reading and writing succeed. */
    method RecordEntityExposure(uuid: Text -> bool, known: bool, works: bool, patch: Patch, now: nat)
      modifies this
      ensures raw == if known && works then Recorded(uuid, old(raw), patch, now) else old(raw)
    {
      if !known || !works { return; }
      var current := ParseEntities(uuid, raw);
      var next := current;
      if patch.recentTasks.Some? {
        var merged := MergeRecentTasks(current.recentTasks, patch.recentTasks.value, now);
        next := next.(recentTasks := merged);
      }
      if patch.lastDiscussedTaskId.Some? { next := next.(lastDiscussedTaskId := patch.lastDiscussedTaskId.value); }
      if patch.lastProposedCandidateUserId.Some? {
        next := next.(lastProposedCandidateUserId := patch.lastProposedCandidateUserId.value);
      }
      if patch.pendingDecision.Some? { next := next.(pendingDecision := patch.pendingDecision.value); }
      if patch.rejectedCandidates.Some? { next := next.(rejectedCandidates := patch.rejectedCandidates.value); }
      raw := SerializeEntities(next);
    }
  }
}
