/** The mail outbox: senders that insert a row and enqueue its job, and the job that sends it,
    with a crash possible before every statement of either. */
module MailOutbox {
  import opened Options
  import opened JsText

  datatype Key = Key(tenant: Text, dedupe: Text)

  datatype Status = Pending | Sent | PermanentlyFailed

  datatype Row = Row(key: Key, status: Status, attempts: nat)

  /** Where the job of a row is. `Waiting` is in the queue; the others say what comes next. */
  datatype Phase =
    | Waiting
    | Finding
    | Preparing
    | Accepted
    | MarkedSent
    | FailedTransient
    | FailedPermanent
    | MarkedPermanent
    | Completed

  datatype Job = Job(executions: nat, phase: Phase)

  /** A row of the table and the job enqueued under its id. */
  datatype Entry = Entry(row: Row, job: Option<Job>)

  const MAX_ATTEMPTS := 8

  // ----- The job of one row -----

  datatype Answer = Delivered | RefusedForGood | RefusedForNow

  /** One statement of the worker; `ok` says whether it succeeded. `Late` is a mark that took
      effect and rejects all the same. */
  datatype Work =
    | Pick
    | Find
    | PrepareFails
    | Transport(answer: Answer)
    | MarkSent(ok: bool)
    | EmitSent(ok: bool)
    | MarkTransient(ok: bool)
    | MarkPermanent(ok: bool)
    | EmitPermanent(ok: bool)
    | Late
    | Crash

  predicate CanWork(e: Entry, w: Work) {
    e.job.Some? &&
    var phase := e.job.value.phase;
    match w
    case Pick => phase.Waiting? && e.job.value.executions < MAX_ATTEMPTS
    case Find => phase.Finding?
    case PrepareFails => phase.Preparing?
    case Transport(_) => phase.Preparing?
    case MarkSent(_) => phase.Accepted?
    case EmitSent(_) => phase.MarkedSent?
    case MarkTransient(_) => phase.FailedTransient?
    case MarkPermanent(_) => phase.FailedPermanent?
    case EmitPermanent(_) => phase.MarkedPermanent?
    case Late => phase.MarkedSent? || phase.MarkedPermanent?
    case Crash => !phase.Waiting? && !phase.Completed?
  }

  function To(e: Entry, phase: Phase): Entry
    requires e.job.Some?
  {
    e.(job := Some(e.job.value.(phase := phase)))
  }

  /** An update of the row that also counts the attempt. */
  function Mark(row: Row, status: Status): Row {
    row.(status := status, attempts := row.attempts + 1)
  }

  function WorkOn(e: Entry, w: Work): Entry
    requires CanWork(e, w)
  {
    match w
    case Pick => e.(job := Some(Job(e.job.value.executions + 1, Finding)))
    case Find => To(e, if e.row.status.Pending? then Preparing else Completed)
    case PrepareFails => To(e, Waiting)
    case Transport(Delivered) => To(e, Accepted)
    case Transport(RefusedForGood) => To(e, FailedPermanent)
    case Transport(RefusedForNow) => To(e, FailedTransient)
    case MarkSent(ok) => if ok then To(e, MarkedSent).(row := Mark(e.row, Sent)) else To(e, FailedTransient)
    case EmitSent(ok) => To(e, if ok then Completed else FailedTransient)
    case MarkTransient(ok) => if ok then To(e, Waiting).(row := Mark(e.row, e.row.status)) else To(e, Waiting)
    case MarkPermanent(ok) =>
      if ok then To(e, MarkedPermanent).(row := Mark(e.row, PermanentlyFailed)) else To(e, Waiting)
    case EmitPermanent(ok) => To(e, if ok then Completed else Waiting)
    case Late => To(e, if e.job.value.phase.MarkedSent? then FailedTransient else Waiting)
    case Crash => To(e, Waiting)
  }

  /** What happened so far on behalf of a row: jobs enqueued, transport calls, acceptances by
      the transport, acceptances never recorded, mark statements done, `sent` events emitted or
      tried, for one that rejects may have gone out. */
  datatype Tally = Tally(enqueued: nat, called: nat, accepted: nat, lost: nat, marked: nat, announced: nat)

  const NOTHING := Tally(0, 0, 0, 0, 0, 0)

  function Counted(t: Tally, e: Entry, w: Work): Tally
    requires CanWork(e, w)
  {
    match w
    case Transport(a) => t.(called := t.called + 1, accepted := t.accepted + if a.Delivered? then 1 else 0)
    case MarkSent(ok) => if ok then t.(marked := t.marked + 1) else t.(lost := t.lost + 1)
    case EmitSent(_) => t.(announced := t.announced + 1)
    case MarkTransient(ok) => if ok then t.(marked := t.marked + 1) else t
    case MarkPermanent(ok) => if ok then t.(marked := t.marked + 1) else t
    case Crash => if e.job.value.phase.Accepted? then t.(lost := t.lost + 1) else t
    case _ => t
  }

  predicate PhaseFits(status: Status, phase: Phase) {
    match phase
    case Preparing => status.Pending?
    case Accepted => status.Pending?
    case FailedPermanent => status.Pending?
    case MarkedSent => status.Sent?
    case MarkedPermanent => status.PermanentlyFailed?
    case FailedTransient => !status.PermanentlyFailed?
    case Completed => !status.Pending?
    case _ => true
  }

  /** What always holds of a row, its job and its tally. */
  predicate EntryFits(e: Entry, t: Tally) {
    && t.marked == e.row.attempts
    && (e.job.None? ==> e.row.status.Pending? && t == NOTHING)
    && (e.job.Some? ==>
          var job := e.job.value;
          && t.enqueued == 1
          && job.executions <= MAX_ATTEMPTS && PhaseFits(e.row.status, job.phase)
          && t.called + (if job.phase.Finding? || job.phase.Preparing? then 1 else 0) <= job.executions
          && t.accepted == t.lost + (if e.row.status.Sent? || job.phase.Accepted? then 1 else 0)
          && t.announced <= (if e.row.status.Sent? && !job.phase.MarkedSent? then 1 else 0))
  }

  lemma WorkFits(e: Entry, t: Tally, w: Work)
    requires EntryFits(e, t) && CanWork(e, w)
    ensures EntryFits(WorkOn(e, w), Counted(t, e, w))
  {
  }

  // ----- Senders -----

  datatype Sender =
    | Upserting(key: Key)
    | Announcing(id: nat, deduped: bool)
    | Adding(id: nat)
    | Done(id: nat, deduped: bool)
    | Dead

  datatype State = State(entries: seq<Entry>, senders: seq<Sender>)

  datatype Action =
    | Send(key: Key)
    | Upsert(c: nat)
    | EmitQueued(c: nat, ok: bool)
    | AddJob(c: nat, ok: bool)
    | CrashSender(c: nat)
    | RunJob(i: nat, work: Work)

  /** The row of a key; the number of rows if there is none. */
  function IdOf(entries: seq<Entry>, key: Key): (i: nat)
    ensures i <= |entries|
    ensures i < |entries| ==> entries[i].row.key == key
    ensures forall j | 0 <= j < i :: entries[j].row.key != key
  {
    if entries == [] || entries[0].row.key == key then 0 else 1 + IdOf(entries[1..], key)
  }

  predicate Enabled(s: State, a: Action) {
    match a
    case Send(_) => true
    case Upsert(c) => c < |s.senders| && s.senders[c].Upserting?
    case EmitQueued(c, _) => c < |s.senders| && s.senders[c].Announcing?
    case AddJob(c, _) => c < |s.senders| && s.senders[c].Adding? && s.senders[c].id < |s.entries|
    case CrashSender(c) => c < |s.senders| && !s.senders[c].Done? && !s.senders[c].Dead?
    case RunJob(i, w) => i < |s.entries| && CanWork(s.entries[i], w)
  }

  function NewRow(key: Key): Entry {
    Entry(Row(key, Pending, 0), None)
  }

  function Enqueue(e: Entry): Entry {
    e.(job := Some(Job(0, Waiting)))
  }

  function Do(s: State, a: Action): State
    requires Enabled(s, a)
  {
    match a
    case Send(key) => s.(senders := s.senders + [Upserting(key)])
    case Upsert(c) =>
      var i := IdOf(s.entries, s.senders[c].key);
      State(if i < |s.entries| then s.entries else s.entries + [NewRow(s.senders[c].key)],
            s.senders[c := Announcing(i, i < |s.entries|)])
    case EmitQueued(c, ok) =>
      var x := s.senders[c];
      s.(senders := s.senders[c := if !ok then Dead else if x.deduped then Done(x.id, true) else Adding(x.id)])
    case AddJob(c, ok) =>
      var id := s.senders[c].id;
      State(if ok then s.entries[id := Enqueue(s.entries[id])] else s.entries,
            s.senders[c := if ok then Done(id, false) else Dead])
    case CrashSender(c) => s.(senders := s.senders[c := Dead])
    case RunJob(i, w) => s.(entries := s.entries[i := WorkOn(s.entries[i], w)])
  }

  const INITIAL := State([], [])

  ghost predicate Runs(s: State, run: seq<Action>)
    decreases |run|, 0
  {
    run == [] || (Runs(s, run[..|run| - 1]) && Enabled(After(s, run[..|run| - 1]), run[|run| - 1]))
  }

  ghost function After(s: State, run: seq<Action>): State
    requires Runs(s, run)
    decreases |run|, 1
  {
    if run == [] then s else Do(After(s, run[..|run| - 1]), run[|run| - 1])
  }

  function Noted(t: Tally, s: State, a: Action, i: nat): Tally
    requires Enabled(s, a)
  {
    match a
    case AddJob(c, ok) => if ok && s.senders[c].id == i then t.(enqueued := t.enqueued + 1) else t
    case RunJob(j, w) => if j == i then Counted(t, s.entries[i], w) else t
    case _ => t
  }

  /** What a whole run of a new system did on behalf of row i. */
  ghost function TallyOf(run: seq<Action>, i: nat): Tally
    requires Runs(INITIAL, run)
  {
    if run == [] then NOTHING
    else
      var front := run[..|run| - 1];
      Noted(TallyOf(front, i), After(INITIAL, front), run[|run| - 1], i)
  }

  // ----- Invariants of every run -----

  ghost predicate DistinctRows(entries: seq<Entry>) {
    forall i, j | 0 <= i < j < |entries| :: entries[i].row.key != entries[j].row.key
  }

  /** The row a sender has inserted and has still to enqueue a job for, or -1. */
  function Owned(x: Sender): int {
    if x.Announcing? && !x.deduped then x.id else if x.Adding? then x.id else -1
  }

  ghost predicate OwnersFit(s: State) {
    && (forall c | 0 <= c < |s.senders| :: OwnerFits(s.entries, Owned(s.senders[c])))
    && (forall c, d | 0 <= c < d < |s.senders| && Owned(s.senders[c]) >= 0 ::
          Owned(s.senders[c]) != Owned(s.senders[d]))
  }

  predicate OwnerFits(entries: seq<Entry>, id: int) {
    id >= 0 ==> id < |entries| && entries[id].job.None?
  }

  lemma KeyStays(e: Entry, w: Work)
    requires CanWork(e, w)
    ensures WorkOn(e, w).row.key == e.row.key && WorkOn(e, w).job.Some?
  {
  }

  lemma DistinctStep(s: State, a: Action)
    requires DistinctRows(s.entries) && Enabled(s, a)
    ensures DistinctRows(Do(s, a).entries)
  {
    if a.RunJob? { KeyStays(s.entries[a.i], a.work); }
  }

  lemma OwnersStep(s: State, a: Action)
    requires OwnersFit(s) && Enabled(s, a)
    ensures OwnersFit(Do(s, a))
  {
    var t := Do(s, a);
    if a.RunJob? { KeyStays(s.entries[a.i], a.work); }
    if a.AddJob? { assert OwnerFits(s.entries, Owned(s.senders[a.c])); }
    forall c | 0 <= c < |t.senders| ensures OwnerFits(t.entries, Owned(t.senders[c])) {
      if c < |s.senders| { assert OwnerFits(s.entries, Owned(s.senders[c])); }
    }
    forall c, d | 0 <= c < d < |t.senders| && Owned(t.senders[c]) >= 0
      ensures Owned(t.senders[c]) != Owned(t.senders[d])
    {
      if d < |s.senders| {
        assert OwnerFits(s.entries, Owned(s.senders[c])) && OwnerFits(s.entries, Owned(s.senders[d]));
      }
    }
  }

  lemma {:induction false} AlwaysOwners(run: seq<Action>)
    requires Runs(INITIAL, run)
    ensures OwnersFit(After(INITIAL, run)) && DistinctRows(After(INITIAL, run).entries)
  {
    if run != [] {
      var front := run[..|run| - 1];
      AlwaysOwners(front);
      OwnersStep(After(INITIAL, front), run[|run| - 1]);
      DistinctStep(After(INITIAL, front), run[|run| - 1]);
    }
  }

  ghost predicate RowFits(s: State, i: nat, t: Tally) {
    if i < |s.entries| then EntryFits(s.entries[i], t) else t == NOTHING
  }

  lemma RowStep(s: State, a: Action, i: nat, t: Tally)
    requires OwnersFit(s) && RowFits(s, i, t) && Enabled(s, a)
    ensures RowFits(Do(s, a), i, Noted(t, s, a, i))
  {
    if a.RunJob? && a.i == i {
      WorkFits(s.entries[i], t, a.work);
    } else if a.AddJob? {
      assert OwnerFits(s.entries, Owned(s.senders[a.c]));
    }
  }

  lemma {:induction false} AlwaysFits(run: seq<Action>, i: nat)
    requires Runs(INITIAL, run)
    ensures RowFits(After(INITIAL, run), i, TallyOf(run, i))
  {
    if run != [] {
      var front := run[..|run| - 1];
      AlwaysFits(front, i);
      AlwaysOwners(front);
      RowStep(After(INITIAL, front), run[|run| - 1], i, TallyOf(front, i));
    }
  }

  // ----- The promises -----

  /** Each tenant and dedupe key has one row, and each row gets at most one job, however many
      senders race for it and crash. */
  lemma OneRowOneJob(run: seq<Action>, i: nat, j: nat)
    requires Runs(INITIAL, run) && i < |After(INITIAL, run).entries| && j < |After(INITIAL, run).entries|
    ensures After(INITIAL, run).entries[i].row.key == After(INITIAL, run).entries[j].row.key ==> i == j
    ensures TallyOf(run, i).enqueued == if After(INITIAL, run).entries[i].job.Some? then 1 else 0
  {
    AlwaysOwners(run);
    AlwaysFits(run, i);
  }

  /** `attempts` counts the mark statements, and the transport is called at most eight times. */
  lemma AttemptsAreMarks(run: seq<Action>, i: nat)
    requires Runs(INITIAL, run) && i < |After(INITIAL, run).entries|
    ensures After(INITIAL, run).entries[i].row.attempts == TallyOf(run, i).marked
    ensures TallyOf(run, i).called <= 8
  {
    AlwaysFits(run, i);
  }

  /** The transport has accepted the mail once for a row that says so or is about to, and once
      more for every acceptance that a crash or a failing statement kept from being recorded. The
      `sent` event is tried at most once, and only for a sent row. */
  lemma AcceptedOnceUnlessLost(run: seq<Action>, i: nat)
    requires Runs(INITIAL, run) && i < |After(INITIAL, run).entries|
    ensures var e := After(INITIAL, run).entries[i];
            TallyOf(run, i).accepted
            == TallyOf(run, i).lost
               + (if e.row.status.Sent? || (e.job.Some? && e.job.value.phase.Accepted?) then 1 else 0)
    ensures TallyOf(run, i).announced <= 1
    ensures TallyOf(run, i).announced == 1 ==> After(INITIAL, run).entries[i].row.status.Sent?
  {
    AlwaysFits(run, i);
  }

  ghost predicate Answered(run: seq<Action>, i: nat, answer: Answer) {
    exists k | 0 <= k < |run| :: run[k] == RunJob(i, Transport(answer))
  }

  /** What the transport must have answered for a row to be where it is. */
  ghost predicate AnswerFits(s: State, i: nat, run: seq<Action>) {
    i < |s.entries| ==>
      var e := s.entries[i];
      && (e.row.status.Sent? || (e.job.Some? && e.job.value.phase.Accepted?) ==> Answered(run, i, Delivered))
      && (e.row.status.PermanentlyFailed? || (e.job.Some? && e.job.value.phase.FailedPermanent?) ==>
            Answered(run, i, RefusedForGood))
  }

  lemma AnswersMore(run: seq<Action>, a: Action, i: nat, answer: Answer)
    ensures Answered(run, i, answer) ==> Answered(run + [a], i, answer)
    ensures a == RunJob(i, Transport(answer)) ==> Answered(run + [a], i, answer)
  {
    if k :| 0 <= k < |run| && run[k] == RunJob(i, Transport(answer)) { assert (run + [a])[k] == run[k]; }
    assert (run + [a])[|run|] == a;
  }

  lemma AnswerStep(s: State, run: seq<Action>, a: Action, i: nat)
    requires AnswerFits(s, i, run) && Enabled(s, a) && OwnersFit(s)
    ensures AnswerFits(Do(s, a), i, run + [a])
  {
    AnswersMore(run, a, i, Delivered);
    AnswersMore(run, a, i, RefusedForGood);
    if a.AddJob? { assert OwnerFits(s.entries, Owned(s.senders[a.c])); }
  }

  /** In every run a row is sent only if the transport accepted the mail, and permanently failed
      only if it refused it for good: an answer that may pass never ends a mail. */
  lemma {:induction false} StatusMeansAnswer(run: seq<Action>, i: nat)
    requires Runs(INITIAL, run)
    ensures AnswerFits(After(INITIAL, run), i, run)
    ensures i < |After(INITIAL, run).entries| ==>
              var status := After(INITIAL, run).entries[i].row.status;
              && (status == Sent ==> exists k :: 0 <= k < |run| && run[k] == RunJob(i, Transport(Delivered)))
              && (status == PermanentlyFailed ==>
                    exists k :: 0 <= k < |run| && run[k] == RunJob(i, Transport(RefusedForGood)))
  {
    if run != [] {
      var front, a := run[..|run| - 1], run[|run| - 1];
      StatusMeansAnswer(front, i);
      AlwaysOwners(front);
      AnswerStep(After(INITIAL, front), front, a, i);
      assert run == front + [a];
    }
  }

  predicate Terminal(status: Status) {
    status.Sent? || status.PermanentlyFailed?
  }

  lemma TerminalStep(e: Entry, t: Tally, w: Work)
    requires EntryFits(e, t) && CanWork(e, w) && Terminal(e.row.status)
    ensures WorkOn(e, w).row.status == e.row.status
    ensures Counted(t, e, w).called == t.called && Counted(t, e, w).accepted == t.accepted
  {
  }

  /** Once a row is sent or permanently failed it stays so, and the transport is not called for
      it again. */
  lemma {:induction false} TerminalForGood(run: seq<Action>, n: nat, i: nat)
    requires Runs(INITIAL, run) && n <= |run| && Runs(INITIAL, run[..n])
    requires i < |After(INITIAL, run[..n]).entries| && Terminal(After(INITIAL, run[..n]).entries[i].row.status)
    ensures i < |After(INITIAL, run).entries|
    ensures After(INITIAL, run).entries[i].row.status == After(INITIAL, run[..n]).entries[i].row.status
    ensures TallyOf(run, i).called == TallyOf(run[..n], i).called
    decreases |run|
  {
    if n == |run| {
      assert run[..n] == run;
    } else {
      var front, a := run[..|run| - 1], run[|run| - 1];
      assert front[..n] == run[..n];
      TerminalForGood(front, n, i);
      AlwaysFits(front, i);
      AlwaysOwners(front);
      var s := After(INITIAL, front);
      if a.RunJob? && a.i == i {
        TerminalStep(s.entries[i], TallyOf(front, i), a.work);
      } else if a.AddJob? {
        assert OwnerFits(s.entries, Owned(s.senders[a.c]));
      }
    }
  }

  // ----- Where the promise ends -----

  /** A row without a job whose inserting sender is gone. */
  ghost predicate Abandoned(s: State, i: nat) {
    && i < |s.entries| && s.entries[i].job.None? && s.entries[i].row.status.Pending?
    && forall c | 0 <= c < |s.senders| :: Owned(s.senders[c]) != i
  }

  lemma AbandonedStep(s: State, a: Action, i: nat)
    requires Abandoned(s, i) && Enabled(s, a)
    ensures Abandoned(Do(s, a), i)
    ensures forall t: Tally :: Noted(t, s, a, i) == t
  {
    if a.AddJob? || a.EmitQueued? { assert Owned(s.senders[a.c]) != i; }
  }

  /** A mail whose sender dies between inserting the row and enqueueing the job is never sent,
      whatever happens later: sending again finds the row and enqueues nothing. */
  lemma {:induction false} AbandonedForEver(s: State, run: seq<Action>, i: nat)
    requires Abandoned(s, i) && Runs(s, run)
    ensures Abandoned(After(s, run), i)
  {
    if run != [] {
      AbandonedForEver(s, run[..|run| - 1], i);
      AbandonedStep(After(s, run[..|run| - 1]), run[|run| - 1], i);
    }
  }

  /** In any state, a first send of a key that crashes right after its insert abandons it, and
      a later send of the same key reports success without a job. */
  lemma CrashAbandons(s: State, key: Key)
    requires OwnersFit(s) && IdOf(s.entries, key) == |s.entries|
    ensures var c := |s.senders|;
            && Runs(s, [Send(key)] + [Upsert(c)] + [CrashSender(c)])
            && Abandoned(After(s, [Send(key)] + [Upsert(c)] + [CrashSender(c)]), |s.entries|)
  {
    var c := |s.senders|;
    var s1 := Do(s, Send(key));
    Then(s, [], Send(key));
    assert [] + [Send(key)] == [Send(key)];
    var s2 := Do(s1, Upsert(c));
    Then(s, [Send(key)], Upsert(c));
    Then(s, [Send(key)] + [Upsert(c)], CrashSender(c));
    CrashedState(s, key);
  }

  lemma CrashedState(s: State, key: Key)
    requires OwnersFit(s) && IdOf(s.entries, key) == |s.entries|
    ensures var c := |s.senders|;
            && Enabled(Do(s, Send(key)), Upsert(c))
            && Enabled(Do(Do(s, Send(key)), Upsert(c)), CrashSender(c))
            && Abandoned(Do(Do(Do(s, Send(key)), Upsert(c)), CrashSender(c)), |s.entries|)
  {
    forall d | 0 <= d < |s.senders| ensures Owned(s.senders[d]) != |s.entries| {
      assert OwnerFits(s.entries, Owned(s.senders[d]));
    }
  }

  /** No continuation gives the row a job. */
  ghost predicate NeverQueued(s: State, i: nat) {
    forall more | Runs(s, more) :: WithoutJob(After(s, more), i)
  }

  predicate WithoutJob(s: State, i: nat) {
    i < |s.entries| && s.entries[i].job.None?
  }

  /** While its sender is there, a row can still get its job. */
  lemma OwnerCanQueue(s: State, i: nat, c: nat) returns (more: seq<Action>)
    requires c < |s.senders| && Owned(s.senders[c]) == i && i < |s.entries|
    ensures Runs(s, more) && i < |After(s, more).entries| && After(s, more).entries[i] == Enqueue(s.entries[i])
  {
    if s.senders[c].Announcing? {
      var t := Do(s, EmitQueued(c, true));
      Then(s, [], EmitQueued(c, true));
      Then(s, [] + [EmitQueued(c, true)], AddJob(c, true));
      AdderQueues(t, i, c);
      more := [] + [EmitQueued(c, true)] + [AddJob(c, true)];
    } else {
      Then(s, [], AddJob(c, true));
      AdderQueues(s, i, c);
      more := [] + [AddJob(c, true)];
    }
  }

  lemma AdderQueues(s: State, i: nat, c: nat)
    requires c < |s.senders| && s.senders[c].Adding? && s.senders[c].id == i < |s.entries|
    ensures i < |Do(s, AddJob(c, true)).entries| && Do(s, AddJob(c, true)).entries[i] == Enqueue(s.entries[i])
  {
  }

  /** Exactly when a mail is lost, in every reachable state: its row has no job and no sender is
      left that is to enqueue one. */
  lemma LostExactly(run: seq<Action>, i: nat)
    requires Runs(INITIAL, run) && i < |After(INITIAL, run).entries|
    ensures NeverQueued(After(INITIAL, run), i) <==> Abandoned(After(INITIAL, run), i)
  {
    var s := After(INITIAL, run);
    if Abandoned(s, i) {
      forall more | Runs(s, more) ensures WithoutJob(After(s, more), i) { AbandonedForEver(s, more, i); }
    } else if c: nat :| c < |s.senders| && Owned(s.senders[c]) == i {
      var more := OwnerCanQueue(s, i, c);
      assert !WithoutJob(After(s, more), i);
    } else {
      AlwaysFits(run, i);
      assert !WithoutJob(After(s, []), i);
    }
  }

  /** A pending row whose job has used up its executions and is past the transport call of the
      last one. */
  predicate Exhausted(e: Entry) {
    && e.row.status.Pending? && e.job.Some? && e.job.value.executions == MAX_ATTEMPTS
    && (e.job.value.phase.Waiting? || e.job.value.phase.FailedTransient? || e.job.value.phase.FailedPermanent?)
  }

  /** A row that no statement can take to `Sent` any more. */
  ghost predicate Unsendable(s: State, i: nat) {
    && i < |s.entries|
    && (Abandoned(s, i) || s.entries[i].row.status.PermanentlyFailed? || Exhausted(s.entries[i]))
  }

  predicate IsSent(s: State, i: nat) {
    i < |s.entries| && s.entries[i].row.status.Sent?
  }

  ghost predicate NeverSent(s: State, i: nat) {
    forall more | Runs(s, more) :: !IsSent(After(s, more), i)
  }

  lemma UnsendableWork(e: Entry, t: Tally, w: Work)
    requires EntryFits(e, t) && CanWork(e, w)
    requires e.row.status.PermanentlyFailed? || Exhausted(e)
    ensures WorkOn(e, w).row.status.PermanentlyFailed? || Exhausted(WorkOn(e, w))
  {
  }

  lemma UnsendableStep(s: State, a: Action, i: nat, t: Tally)
    requires OwnersFit(s) && RowFits(s, i, t) && Enabled(s, a) && Unsendable(s, i)
    ensures Unsendable(Do(s, a), i)
  {
    if Abandoned(s, i) {
      AbandonedStep(s, a, i);
    } else if a.RunJob? && a.i == i {
      UnsendableWork(s.entries[i], t, a.work);
    } else if a.AddJob? {
      assert OwnerFits(s.entries, Owned(s.senders[a.c]));
    }
  }

  lemma {:induction false} UnsendableRun(s: State, run: seq<Action>, i: nat, t: Tally) returns (u: Tally)
    requires OwnersFit(s) && RowFits(s, i, t) && Unsendable(s, i) && Runs(s, run)
    ensures OwnersFit(After(s, run)) && RowFits(After(s, run), i, u) && Unsendable(After(s, run), i)
  {
    if run == [] {
      u := t;
    } else {
      var front, a := run[..|run| - 1], run[|run| - 1];
      var v := UnsendableRun(s, front, i, t);
      var before := After(s, front);
      OwnersStep(before, a);
      RowStep(before, a, i, v);
      UnsendableStep(before, a, i, v);
      u := Noted(v, before, a, i);
    }
  }

  /** Statements of one row's job, as a run of the system. */
  lemma {:induction false} WorkRuns(s: State, i: nat, ws: seq<Work>) returns (more: seq<Action>)
    requires i < |s.entries| && CanWorkAll(s.entries[i], ws)
    ensures Runs(s, more) && i < |After(s, more).entries|
    ensures After(s, more).entries[i] == WorkAll(s.entries[i], ws)
    decreases |ws|
  {
    if ws == [] {
      more := [];
    } else {
      var t := Do(s, RunJob(i, ws[0]));
      var rest := WorkRuns(t, i, ws[1..]);
      more := [RunJob(i, ws[0])] + rest;
      RunFirst(s, RunJob(i, ws[0]), rest);
    }
  }

  lemma {:induction false} RunFirst(s: State, a: Action, rest: seq<Action>)
    requires Enabled(s, a) && Runs(Do(s, a), rest)
    ensures Runs(s, [a] + rest) && After(s, [a] + rest) == After(Do(s, a), rest)
    decreases |rest|
  {
    var all := [a] + rest;
    if rest == [] {
      assert all == [a] && all[..|all| - 1] == [];
    } else {
      var front := rest[..|rest| - 1];
      RunFirst(s, a, front);
      assert all[..|all| - 1] == [a] + front && all[|all| - 1] == rest[|rest| - 1];
    }
  }

  /** From `Preparing` on, and with an execution left, the mail can still be sent. */
  function WayOut(e: Entry): seq<Work>
    requires e.job.Some?
  {
    match e.job.value.phase
    case Finding => [Find] + ([Transport(Delivered)] + [Work.MarkSent(true)])
    case Preparing => [Transport(Delivered)] + [Work.MarkSent(true)]
    case Accepted => [Work.MarkSent(true)]
    case Waiting => [Pick] + ([Find] + ([Transport(Delivered)] + [Work.MarkSent(true)]))
    case _ => [Crash] + ([Pick] + ([Find] + ([Transport(Delivered)] + [Work.MarkSent(true)])))
  }

  lemma AcceptedWay(e: Entry)
    requires e.job.Some? && e.job.value.phase.Preparing?
    ensures CanWorkAll(e, [Transport(Delivered)] + [Work.MarkSent(true)])
    ensures WorkAll(e, [Transport(Delivered)] + [Work.MarkSent(true)]).row.status.Sent?
  {
    WorkFirst(WorkOn(e, Transport(Delivered)), Work.MarkSent(true), []);
    assert [Work.MarkSent(true)] + [] == [Work.MarkSent(true)];
    WorkFirst(e, Transport(Delivered), [Work.MarkSent(true)]);
  }

  lemma FindingWay(e: Entry)
    requires e.job.Some? && e.job.value.phase.Finding? && e.row.status.Pending?
    ensures CanWorkAll(e, [Find] + ([Transport(Delivered)] + [Work.MarkSent(true)]))
    ensures WorkAll(e, [Find] + ([Transport(Delivered)] + [Work.MarkSent(true)])).row.status.Sent?
  {
    AcceptedWay(WorkOn(e, Find));
    WorkFirst(e, Find, [Transport(Delivered)] + [Work.MarkSent(true)]);
  }

  lemma WaitingWay(e: Entry)
    requires e.job.Some? && e.job.value.phase.Waiting? && e.row.status.Pending?
    requires e.job.value.executions < MAX_ATTEMPTS
    ensures CanWorkAll(e, WayOut(e)) && WorkAll(e, WayOut(e)).row.status.Sent?
  {
    FindingWay(WorkOn(e, Pick));
    WorkFirst(e, Pick, [Find] + ([Transport(Delivered)] + [Work.MarkSent(true)]));
  }

  lemma CanBeSent(e: Entry, t: Tally)
    requires EntryFits(e, t) && e.job.Some? && e.row.status.Pending? && !Exhausted(e)
    ensures CanWorkAll(e, WayOut(e)) && WorkAll(e, WayOut(e)).row.status.Sent?
  {
    var phase := e.job.value.phase;
    if phase.Finding? {
      FindingWay(e);
    } else if phase.Preparing? {
      AcceptedWay(e);
    } else if phase.Accepted? {
      WorkFirst(e, Work.MarkSent(true), []);
      assert [Work.MarkSent(true)] + [] == [Work.MarkSent(true)];
    } else if phase.Waiting? {
      WaitingWay(e);
    } else {
      WaitingWay(WorkOn(e, Crash));
      WorkFirst(e, Crash, WayOut(WorkOn(e, Crash)));
    }
  }

  lemma QueuedCanBeSent(s: State, i: nat) returns (more: seq<Action>)
    requires i < |s.entries| && s.entries[i].job.Some? && s.entries[i].row.status.Pending?
    requires !Exhausted(s.entries[i]) && exists t: Tally :: EntryFits(s.entries[i], t)
    ensures Runs(s, more) && IsSent(After(s, more), i)
  {
    var t: Tally :| EntryFits(s.entries[i], t);
    CanBeSent(s.entries[i], t);
    more := WorkRuns(s, i, WayOut(s.entries[i]));
  }

  /** Exactly when a mail will never be sent, in every reachable state: it is abandoned, it has
      failed for good, or its job has used its last transport call without success. */
  lemma NeverSentExactly(run: seq<Action>, i: nat)
    requires Runs(INITIAL, run) && i < |After(INITIAL, run).entries|
    ensures NeverSent(After(INITIAL, run), i) <==> Unsendable(After(INITIAL, run), i)
  {
    var s, t := After(INITIAL, run), TallyOf(run, i);
    AlwaysFits(run, i);
    AlwaysOwners(run);
    if Unsendable(s, i) {
      forall more | Runs(s, more) ensures !IsSent(After(s, more), i) {
        var u := UnsendableRun(s, more, i, t);
      }
    } else if s.entries[i].row.status.Sent? {
      assert IsSent(After(s, []), i);
    } else if s.entries[i].job.Some? {
      var more := QueuedCanBeSent(s, i);
    } else {
      var more := OwnedCanBeSent(s, i);
    }
  }

  lemma OwnedCanBeSent(s: State, i: nat) returns (more: seq<Action>)
    requires RowFits(s, i, NOTHING) && !Abandoned(s, i)
    requires i < |s.entries| && s.entries[i].job.None?
    ensures Runs(s, more) && IsSent(After(s, more), i)
  {
    var c: nat :| c < |s.senders| && Owned(s.senders[c]) == i;
    var before := OwnerCanQueue(s, i, c);
    var t := After(s, before);
    assert EntryFits(t.entries[i], NOTHING.(enqueued := 1));
    var rest := QueuedCanBeSent(t, i);
    more := before + rest;
    RunTrans(s, before, rest);
  }

  lemma {:induction false} RunTrans(s: State, a: seq<Action>, b: seq<Action>)
    requires Runs(s, a) && Runs(After(s, a), b)
    ensures Runs(s, a + b) && After(s, a + b) == After(After(s, a), b)
    decreases |b|
  {
    if b == [] {
      assert a + b == a;
    } else {
      var front := b[..|b| - 1];
      RunTrans(s, a, front);
      assert (a + b)[..|a + b| - 1] == a + front;
    }
  }

  /** The step takes the sender that inserted the row, and has not yet enqueued its job, to its
      end: a crash, a failing event or a rejecting `addJob`. */
  ghost predicate OwnerDies(s: State, a: Action, i: nat)
    requires Enabled(s, a)
  {
    exists c | 0 <= c < |s.senders| :: Owned(s.senders[c]) == i && Do(s, a).senders[c].Dead?
  }

  lemma AbandonedByStep(s: State, a: Action, i: nat, t: Tally)
    requires OwnersFit(s) && RowFits(s, i, t) && Enabled(s, a)
    ensures Abandoned(Do(s, a), i) <==> Abandoned(s, i) || OwnerDies(s, a, i)
  {
    var u := Do(s, a);
    if Abandoned(s, i) {
      AbandonedStep(s, a, i);
    } else if OwnerDies(s, a, i) {
      var c :| 0 <= c < |s.senders| && Owned(s.senders[c]) == i && u.senders[c].Dead?;
      assert OwnerFits(s.entries, Owned(s.senders[c]));
      forall d | 0 <= d < |u.senders| ensures Owned(u.senders[d]) != i {
        assert d < |s.senders|;
      }
    } else if Abandoned(u, i) {
      KeptOwner(s, a, i);
    }
  }

  /** A row that has an owner which does not die keeps an owner or gets a job. */
  lemma KeptOwner(s: State, a: Action, i: nat)
    requires Enabled(s, a) && !Abandoned(s, i) && !OwnerDies(s, a, i)
    requires i < |s.entries| && s.entries[i].job.None? ==> s.entries[i].row.status.Pending?
    ensures !Abandoned(Do(s, a), i)
  {
    var u := Do(s, a);
    if i < |s.entries| && s.entries[i].job.None? {
      var c :| 0 <= c < |s.senders| && Owned(s.senders[c]) == i;
      assert Owned(u.senders[c]) == i || u.entries[i].job.Some?;
    } else if a.Upsert? && i == |s.entries| {
      assert i < |u.entries| ==> Owned(u.senders[a.c]) == i;
    } else if a.RunJob? && a.i == i {
      KeyStays(s.entries[i], a.work);
    }
  }

  /** The sender of row i died at some step of the run. */
  ghost predicate OwnerDied(run: seq<Action>, i: nat)
    requires Runs(INITIAL, run)
  {
    run != []
    && (OwnerDied(run[..|run| - 1], i) || OwnerDies(After(INITIAL, run[..|run| - 1]), run[|run| - 1], i))
  }

  /** A row is abandoned exactly when the sender that inserted it came to its end before its job
      was enqueued, whichever way. */
  lemma {:induction false} AbandonedWhenOwnerDied(run: seq<Action>, i: nat)
    requires Runs(INITIAL, run)
    ensures Abandoned(After(INITIAL, run), i) <==> OwnerDied(run, i)
  {
    if run != [] {
      var front := run[..|run| - 1];
      AbandonedWhenOwnerDied(front, i);
      AlwaysOwners(front);
      AlwaysFits(front, i);
      AbandonedByStep(After(INITIAL, front), run[|run| - 1], i, TallyOf(front, i));
    }
  }

  lemma Then(s: State, run: seq<Action>, a: Action)
    requires Runs(s, run) && Enabled(After(s, run), a)
    ensures Runs(s, run + [a]) && After(s, run + [a]) == Do(After(s, run), a)
  {
    assert (run + [a])[..|run|] == run;
  }

  // ----- The store, the sender and the task, as the source writes them -----

  class OutboxStore {
    var rows: seq<Row>

    constructor ()
      ensures rows == []
    {
      rows := [];
    }

    method UpsertPending(key: Key) returns (id: nat, deduped: bool)
      modifies this
      ensures deduped <==> exists i | 0 <= i < |old(rows)| :: old(rows)[i].key == key
      ensures rows == if deduped then old(rows) else old(rows) + [Row(key, Pending, 0)]
      ensures id < |rows| && rows[id].key == key && (!deduped ==> id == |old(rows)|)
    {
      id := 0;
      while id < |rows|
        invariant id <= |rows| && forall i | 0 <= i < id :: rows[i].key != key
      {
        if rows[id].key == key { return id, true; }
        id := id + 1;
      }
      rows := rows + [Row(key, Pending, 0)];
      deduped := false;
    }

    method MarkSent(id: nat)
      requires id < |rows|
      modifies this
      ensures rows == old(rows)[id := Mark(old(rows)[id], Sent)]
    {
      rows := rows[id := rows[id].(status := Sent, attempts := rows[id].attempts + 1)];
    }

    method MarkFailedTransient(id: nat)
      requires id < |rows|
      modifies this
      ensures rows == old(rows)[id := Mark(old(rows)[id], old(rows)[id].status)]
    {
      rows := rows[id := rows[id].(attempts := rows[id].attempts + 1)];
    }

    method MarkPermanentlyFailed(id: nat)
      requires id < |rows|
      modifies this
      ensures rows == old(rows)[id := Mark(old(rows)[id], PermanentlyFailed)]
    {
      rows := rows[id := rows[id].(status := PermanentlyFailed, attempts := rows[id].attempts + 1)];
    }
  }

  /** The queue: the jobs by their key, with the attempts each may take. */
  class JobQueue {
    var jobs: map<nat, nat>

    constructor ()
      ensures jobs == map[]
    {
      jobs := map[];
    }

    method AddJob(jobKey: nat, maxAttempts: nat)
      modifies this
      ensures jobs == old(jobs)[jobKey := maxAttempts]
    {
      jobs := jobs[jobKey := maxAttempts];
    }
  }

  datatype SendResult = Rejected | Queued(id: nat, deduped: bool)

  /** What goes wrong in a send, if anything, and whether it took effect first. */
  datatype SendFault =
    | Smooth
    | InvalidInput
    | UpsertRejects(stored: bool)
    | EmitRejects
    | AddJobRejects(queued: bool)

  /** `createMailer().send` */
  method SendMail(store: OutboxStore, queue: JobQueue, key: Key, fault: SendFault) returns (r: SendResult)
    modifies store, queue
    ensures var known := exists i | 0 <= i < |old(store.rows)| :: old(store.rows)[i].key == key;
            var stores := !fault.InvalidInput? && fault != UpsertRejects(false);
            var queues := !known && (fault.Smooth? || fault == AddJobRejects(true));
            && (r.Rejected? <==> !fault.Smooth? && !(known && fault.AddJobRejects?))
            && store.rows == (if stores && !known then old(store.rows) + [Row(key, Pending, 0)] else old(store.rows))
            && queue.jobs == (if queues then old(queue.jobs)[|old(store.rows)| := MAX_ATTEMPTS] else old(queue.jobs))
            && (r.Queued? ==> r.deduped == known && r.id < |store.rows| && store.rows[r.id].key == key)
  {
    if fault.InvalidInput? || fault == UpsertRejects(false) { return Rejected; }
    var id, deduped := store.UpsertPending(key);
    if fault.UpsertRejects? || fault.EmitRejects? { return Rejected; }
    if !deduped {
      if fault == AddJobRejects(false) { return Rejected; }
      queue.AddJob(id, MAX_ATTEMPTS);
      if fault.AddJobRejects? { return Rejected; }
    }
    r := Queued(id, deduped);
  }

  /** How a mark goes; one that rejects may have taken effect. */
  datatype Marking = Takes | Fails | TakesAndRejects

  /** How the calls of one execution of the task go. */
  datatype Luck = Luck(
    finds: bool, prepares: bool, answer: Answer, marks: Marking, emits: bool, marksFailure: Marking)

  /** The statements of an undisturbed execution, from the pick on. */
  function Path(status: Status, l: Luck): seq<Work> {
    [Pick] + if l.finds then [Find] + AfterFind(status, l) else [Crash]
  }

  function AfterFind(status: Status, l: Luck): seq<Work> {
    if Terminal(status) then []
    else if !l.prepares then [PrepareFails]
    else [Transport(l.answer)] + AfterAnswer(l)
  }

  function AfterAnswer(l: Luck): seq<Work> {
    match l.answer
    case Delivered => [MarkSent(!l.marks.Fails?)] + AfterMarkSent(l)
    case RefusedForGood => [MarkPermanent(!l.marksFailure.Fails?)] + AfterMarkPermanent(l)
    case RefusedForNow => [MarkTransient(!l.marksFailure.Fails?)]
  }

  function AfterMarkSent(l: Luck): seq<Work> {
    match l.marks
    case Fails => [MarkTransient(!l.marksFailure.Fails?)]
    case TakesAndRejects => [Late] + [MarkTransient(!l.marksFailure.Fails?)]
    case Takes => [EmitSent(l.emits)] + if l.emits then [] else [MarkTransient(!l.marksFailure.Fails?)]
  }

  function AfterMarkPermanent(l: Luck): seq<Work> {
    match l.marksFailure
    case Fails => []
    case TakesAndRejects => [Late]
    case Takes => [EmitPermanent(l.emits)]
  }

  predicate CanWorkAll(e: Entry, ws: seq<Work>)
    decreases ws
  {
    ws == [] || (CanWork(e, ws[0]) && CanWorkAll(WorkOn(e, ws[0]), ws[1..]))
  }

  function WorkAll(e: Entry, ws: seq<Work>): Entry
    requires CanWorkAll(e, ws)
    decreases ws
  {
    if ws == [] then e else WorkAll(WorkOn(e, ws[0]), ws[1..])
  }

  /** Whether the job is done or to be tried again after an undisturbed execution. */
  predicate Resolves(status: Status, l: Luck) {
    && l.finds
    && (|| Terminal(status)
        || (&& l.prepares && l.emits
            && ((l.answer.Delivered? && l.marks.Takes?) || (l.answer.RefusedForGood? && l.marksFailure.Takes?))))
  }

  /** One execution of `mailer:send`. */
  method SendTask(store: OutboxStore, id: nat, l: Luck) returns (resolved: bool)
    modifies store
    ensures id >= |old(store.rows)| ==> resolved == l.finds && store.rows == old(store.rows)
    ensures id < |old(store.rows)| ==>
              && resolved == Resolves(old(store.rows)[id].status, l)
              && store.rows == old(store.rows)[id := RowAfter(old(store.rows)[id], l)]
    ensures id < |old(store.rows)| ==>
              var row := old(store.rows)[id];
              var tries := l.finds && row.status == Pending && l.prepares;
              && id < |store.rows|
              && store.rows[id].key == row.key
              && store.rows[id].status
                 == (if tries && l.answer == Delivered && l.marks != Fails then Sent
                     else if tries && l.answer == RefusedForGood && l.marksFailure != Fails then PermanentlyFailed
                     else row.status)
              && store.rows[id].attempts
                 == row.attempts
                    + (if tries && l.answer == Delivered && l.marks != Fails then 1 else 0)
                    + (if tries && !(l.answer == Delivered && l.marks == Takes && l.emits) && l.marksFailure != Fails
                       then 1 else 0)
              && (resolved <==>
                    && l.finds
                    && (row.status != Pending
                        || (tries && l.emits && (if l.answer == Delivered then l.marks == Takes
                                                 else l.answer == RefusedForGood && l.marksFailure == Takes))))
  {
    if !l.finds { return false; }
    if id >= |store.rows| { return true; }
    var status := store.rows[id].status;
    if status == Sent || status == PermanentlyFailed { return true; }
    if !l.prepares { return false; }
    var permanent := l.answer.RefusedForGood?;
    var caught := !l.answer.Delivered?;
    if l.answer.Delivered? {
      if !l.marks.Fails? { store.MarkSent(id); }
      caught := !l.marks.Takes? || !l.emits;
    }
    if !caught { return true; }
    if permanent {
      if l.marksFailure.Fails? { return false; }
      store.MarkPermanentlyFailed(id);
      if l.marksFailure.TakesAndRejects? { return false; }
      return l.emits;
    }
    if !l.marksFailure.Fails? { store.MarkFailedTransient(id); }
    return false;
  }

  /** The row an undisturbed execution leaves. */
  function RowAfter(row: Row, l: Luck): Row {
    if !l.finds || Terminal(row.status) || !l.prepares then row
    else
      match l.answer
      case Delivered =>
        var sent := if l.marks.Fails? then row else Mark(row, Sent);
        if (l.marks.Takes? && l.emits) || l.marksFailure.Fails? then sent else Mark(sent, sent.status)
      case RefusedForGood => if l.marksFailure.Fails? then row else Mark(row, PermanentlyFailed)
      case RefusedForNow => if l.marksFailure.Fails? then row else Mark(row, row.status)
  }

  /** The task is the machine's path without a pause: same row, and the job goes back to the
      queue exactly when the task rejects. */
  lemma TaskIsPath(e: Entry, l: Luck)
    requires e.job.Some? && e.job.value.phase.Waiting? && e.job.value.executions < MAX_ATTEMPTS
    ensures CanWorkAll(e, Path(e.row.status, l))
    ensures WorkAll(e, Path(e.row.status, l)).row == RowAfter(e.row, l)
    ensures WorkAll(e, Path(e.row.status, l)).job
            == Some(Job(e.job.value.executions + 1, if Resolves(e.row.status, l) then Completed else Waiting))
  {
    var picked := WorkOn(e, Pick);
    var found := WorkOn(picked, Find);
    if l.finds {
      if !Terminal(e.row.status) && l.prepares {
        AnswerPath(WorkOn(found, Transport(l.answer)), l);
        WorkFirst(found, Transport(l.answer), AfterAnswer(l));
      }
      WorkFirst(picked, Find, AfterFind(e.row.status, l));
      WorkFirst(e, Pick, [Find] + AfterFind(e.row.status, l));
    } else {
      WorkFirst(e, Pick, [Crash]);
    }
  }

  lemma WorkFirst(e: Entry, w: Work, ws: seq<Work>)
    requires CanWork(e, w) && CanWorkAll(WorkOn(e, w), ws)
    ensures CanWorkAll(e, [w] + ws) && WorkAll(e, [w] + ws) == WorkAll(WorkOn(e, w), ws)
  {
    assert ([w] + ws)[1..] == ws;
  }

  lemma MarkSentPath(e: Entry, l: Luck)
    requires CanWork(e, MarkSent(!l.marks.Fails?))
    ensures CanWorkAll(WorkOn(e, MarkSent(!l.marks.Fails?)), AfterMarkSent(l))
    ensures var r := WorkAll(WorkOn(e, MarkSent(!l.marks.Fails?)), AfterMarkSent(l));
            var sent := if l.marks.Fails? then e.row else Mark(e.row, Sent);
            var resolves := l.marks.Takes? && l.emits;
            && r.row == (if resolves || l.marksFailure.Fails? then sent else Mark(sent, sent.status))
            && r.job == Some(e.job.value.(phase := if resolves then Completed else Waiting))
  {
    var marked := WorkOn(e, MarkSent(!l.marks.Fails?));
    match l.marks
    case Fails =>
    case TakesAndRejects => WorkFirst(marked, Late, [MarkTransient(!l.marksFailure.Fails?)]);
    case Takes =>
      if l.emits {
        WorkFirst(marked, EmitSent(true), []);
      } else {
        WorkFirst(marked, EmitSent(false), [MarkTransient(!l.marksFailure.Fails?)]);
      }
  }

  lemma AnswerPath(e: Entry, l: Luck)
    requires e.job.Some? && e.row.status.Pending? && l.finds && l.prepares
    requires e.job.value.phase == match l.answer {
               case Delivered => Accepted
               case RefusedForGood => FailedPermanent
               case RefusedForNow => FailedTransient
             }
    ensures CanWorkAll(e, AfterAnswer(l))
    ensures WorkAll(e, AfterAnswer(l)).row == RowAfter(e.row, l)
    ensures WorkAll(e, AfterAnswer(l)).job
            == Some(e.job.value.(phase := if Resolves(e.row.status, l) then Completed else Waiting))
  {
    match l.answer
    case Delivered =>
      MarkSentPath(e, l);
      WorkFirst(e, MarkSent(!l.marks.Fails?), AfterMarkSent(l));
    case RefusedForGood =>
      WorkFirst(e, MarkPermanent(!l.marksFailure.Fails?), AfterMarkPermanent(l));
    case RefusedForNow =>
      WorkFirst(e, MarkTransient(!l.marksFailure.Fails?), []);
      assert [MarkTransient(!l.marksFailure.Fails?)] + [] == AfterAnswer(l);
  }
}
