/** The orchestration kernel: a linear list of steps run as a chain of retried queue jobs.
    A job attempt is cut into the atomic effects it has on the run store and the queue; a
    schedule is any list of such effects, with a rejection or a process crash allowed
    between any two of them. */
module Orchestration {
  import opened Options

  /** A JSON value the kernel never looks into. */
  type Value(==, !new, 0)

  type Outputs = map<string, Value>

  datatype Step = Step(id: string, agentId: string, input: (Outputs, Value) -> Value)

  /** What an agent run resolves to. */
  datatype Reply = Reply(result: Value, terminal: bool)

  /** One run's surroundings. `may(agent, input, reply)` says that the agent is registered,
      accepts the input and can resolve to a reply its output schema accepts; agents need
      not be deterministic. */
  datatype Env = Env(steps: seq<Step>, runInput: Value, may: (string, Value, Reply) -> bool, maxAttempts: nat)

  ghost predicate WellFormed(env: Env) {
    && env.maxAttempts >= 1
    && forall i, j | 0 <= i < j < |env.steps| :: env.steps[i].id != env.steps[j].id
  }

  datatype Status = Running | Completed | Failed

  /** A queued `run_step` job and how often it was picked up. */
  datatype Job = Job(step: nat, attempts: nat)

  /** How far the running attempt got. */
  datatype Pc =
    | Idle
    | Loading(job: Job)
    | Executing(job: Job, run: Outputs)
    | Replied(job: Job, run: Outputs, reply: Reply)
    | Stepped(job: Job, run: Outputs, output: Value, terminal: bool)
    | Closing(job: Job, run: Outputs)
    | Leaving(job: Job)

  /** The stored run, the queue and the attempt in progress. `saved`, `closed`, `notified`
      and `executions` record history: the replies given to `saveStep`, the results given to
      `completeRun`, the states given to `onComplete`, and the attempts made. */
  datatype State = State(
    outputs: Outputs, status: Status, result: Option<Value>, jobs: seq<Job>, pc: Pc,
    saved: seq<Reply>, closed: seq<Value>, notified: seq<Outputs>, executions: nat)

  /** After `enqueueRun`. */
  function Init(): State {
    State(map[], Running, None, [Job(0, 0)], Idle, [], [], [], 0)
  }

  datatype Action =
    | Start(index: nat) | Load | Skip | Ask(reply: Reply) | Save
    | Complete | Notify | Enqueue | Return | Throw | Crash

  /** The run is over after this step, as far as the attempt can tell. */
  predicate Leaves(env: Env, step: nat, terminal: bool) {
    terminal || step + 1 >= |env.steps|
  }

  predicate Enabled(env: Env, s: State, a: Action) {
    match a
    case Start(i) => s.pc.Idle? && i < |s.jobs| && s.jobs[i].attempts < env.maxAttempts
    case Load => s.pc.Loading?
    case Skip => s.pc.Executing? && s.pc.job.step < |env.steps| && env.steps[s.pc.job.step].id in s.pc.run
    case Ask(reply) =>
      && s.pc.Executing? && s.pc.job.step < |env.steps|
      && var step := env.steps[s.pc.job.step];
      && step.id !in s.pc.run
      && env.may(step.agentId, step.input(s.pc.run, env.runInput), reply)
    case Save => s.pc.Replied? && s.pc.job.step < |env.steps|
    case Complete => s.pc.Stepped? && Leaves(env, s.pc.job.step, s.pc.terminal)
    case Notify => s.pc.Closing?
    case Enqueue => s.pc.Stepped? && !Leaves(env, s.pc.job.step, s.pc.terminal)
    case Return => s.pc.Leaving?
    case Throw => !s.pc.Idle?
    case Crash => !s.pc.Idle?
  }

  /** The job goes back to the queue while it has attempts left. */
  function GiveBack(env: Env, s: State): State
    requires !s.pc.Idle?
  {
    s.(pc := Idle, jobs := if s.pc.job.attempts < env.maxAttempts then s.jobs + [s.pc.job] else s.jobs)
  }

  function Do(env: Env, s: State, a: Action): State
    requires Enabled(env, s, a)
  {
    match a
    case Start(i) =>
      var job := s.jobs[i];
      s.(jobs := s.jobs[..i] + s.jobs[i + 1..], pc := Loading(job.(attempts := job.attempts + 1)),
         executions := s.executions + 1)
    case Load => s.(pc := Executing(s.pc.job, s.outputs))
    case Skip =>
      s.(pc := Stepped(s.pc.job, s.pc.run, s.pc.run[env.steps[s.pc.job.step].id], false))
    case Ask(reply) => s.(pc := Replied(s.pc.job, s.pc.run, reply))
    case Save =>
      var id := env.steps[s.pc.job.step].id;
      var r := s.pc.reply;
      s.(outputs := s.outputs[id := r.result], saved := s.saved + [r],
         pc := Stepped(s.pc.job, s.pc.run[id := r.result], r.result, r.terminal))
    case Complete =>
      s.(status := Completed, result := Some(s.pc.output), closed := s.closed + [s.pc.output],
         pc := Closing(s.pc.job, s.pc.run))
    case Notify => s.(notified := s.notified + [s.pc.run], pc := Leaving(s.pc.job))
    case Enqueue => s.(jobs := s.jobs + [Job(s.pc.job.step + 1, 0)], pc := Leaving(s.pc.job))
    case Return => s.(pc := Idle)
    case Throw =>
      var t := GiveBack(env, s);
      if s.pc.job.attempts < env.maxAttempts then t else t.(status := Failed)
    case Crash => GiveBack(env, s)
  }

  type Schedule = seq<Action>

  predicate Runs(env: Env, s: State, acts: Schedule)
    decreases |acts|
  {
    acts == [] || (Enabled(env, s, acts[0]) && Runs(env, Do(env, s, acts[0]), acts[1..]))
  }

  function After(env: Env, s: State, acts: Schedule): State
    requires Runs(env, s, acts)
    decreases |acts|
  {
    if acts == [] then s else After(env, Do(env, s, acts[0]), acts[1..])
  }

  lemma {:induction false} RunsConcat(env: Env, s: State, a: Schedule, b: Schedule)
    requires Runs(env, s, a) && Runs(env, After(env, s, a), b)
    ensures Runs(env, s, a + b) && After(env, s, a + b) == After(env, After(env, s, a), b)
    decreases |a|
  {
    if a == [] {
      assert a + b == b;
    } else {
      assert (a + b)[0] == a[0] && (a + b)[1..] == a[1..] + b;
      RunsConcat(env, Do(env, s, a[0]), a[1..], b);
    }
  }

  ghost predicate Reaches(env: Env, s: State, acts: Schedule, t: State) {
    Runs(env, s, acts) && After(env, s, acts) == t
  }

  lemma ReachesAction(env: Env, s: State, a: Action)
    requires Enabled(env, s, a)
    ensures Reaches(env, s, [a], Do(env, s, a))
  {
    assert [a][1..] == [];
  }

  lemma ReachesTrans(env: Env, s: State, a: Schedule, t: State, b: Schedule, u: State)
    requires Reaches(env, s, a, t) && Reaches(env, t, b, u)
    ensures Reaches(env, s, a + b, u)
  {
    RunsConcat(env, s, a, b);
  }

  // ----- What the steps may store -----

  lemma ReachesTwo(env: Env, s: State, a: Action, t: State, b: Action, u: State)
    requires Enabled(env, s, a) && t == Do(env, s, a) && Enabled(env, t, b) && u == Do(env, t, b)
    ensures Reaches(env, s, [a] + [b], u)
  {
    ReachesAction(env, s, a);
    ReachesAction(env, t, b);
    ReachesTrans(env, s, [a], t, [b], u);
  }

  /** The outputs left by the given replies to steps 0, 1, ... */
  function Collect(env: Env, replies: seq<Reply>): Outputs
    requires |replies| <= |env.steps|
  {
    if replies == [] then map[]
    else
      var k := |replies| - 1;
      Collect(env, replies[..k])[env.steps[k].id := replies[k].result]
  }

  /** Reply k is one its agent may give on the input built from replies 0 .. k-1. */
  ghost predicate Answers(env: Env, replies: seq<Reply>) {
    && |replies| <= |env.steps|
    && forall k | 0 <= k < |replies| :: AnswersAt(env, replies, k)
  }

  ghost predicate AnswersAt(env: Env, replies: seq<Reply>, k: nat)
    requires k < |replies| <= |env.steps|
  {
    env.may(env.steps[k].agentId, env.steps[k].input(Collect(env, replies[..k]), env.runInput), replies[k])
  }

  lemma {:induction false} CollectAt(env: Env, replies: seq<Reply>)
    requires WellFormed(env) && |replies| <= |env.steps|
    ensures forall x :: x in Collect(env, replies) <==> exists k :: 0 <= k < |replies| && env.steps[k].id == x
    ensures forall k | 0 <= k < |replies| :: Collect(env, replies)[env.steps[k].id] == replies[k].result
  {
    if replies != [] { CollectAt(env, replies[..|replies| - 1]); }
  }

  lemma AnswersExtend(env: Env, replies: seq<Reply>, r: Reply)
    requires Answers(env, replies) && |replies| < |env.steps|
    requires var step := env.steps[|replies|];
             env.may(step.agentId, step.input(Collect(env, replies), env.runInput), r)
    ensures Answers(env, replies + [r])
    ensures Collect(env, replies + [r]) == Collect(env, replies)[env.steps[|replies|].id := r.result]
  {
    var all := replies + [r];
    assert all[..|replies|] == replies;
    forall k | 0 <= k < |all| ensures AnswersAt(env, all, k) {
      if k < |replies| {
        assert all[..k] == replies[..k];
        assert AnswersAt(env, replies, k);
      }
    }
  }

  lemma AnswersPrefix(env: Env, replies: seq<Reply>, k: nat)
    requires Answers(env, replies) && k <= |replies|
    ensures Answers(env, replies[..k])
  {
    forall i | 0 <= i < k ensures AnswersAt(env, replies[..k], i) {
      assert replies[..k][..i] == replies[..i];
      assert AnswersAt(env, replies, i);
    }
  }

  // ----- The invariant of every schedule -----

  ghost predicate JobOk(env: Env, job: Job, depth: nat) {
    job.step <= depth && (job.step < |env.steps| || job.step == 0) && job.attempts <= env.maxAttempts
  }

  ghost predicate PcOk(env: Env, s: State) {
    && (!s.pc.Idle? ==> JobOk(env, s.pc.job, |s.saved|) && s.pc.job.attempts >= 1)
    && (s.pc.Executing? || s.pc.Replied? || s.pc.Stepped? || s.pc.Closing? ==> s.pc.run == s.outputs)
    && (s.pc.Replied? ==>
          && s.pc.job.step == |s.saved| < |env.steps|
          && var step := env.steps[|s.saved|];
          && env.may(step.agentId, step.input(s.outputs, env.runInput), s.pc.reply))
    && (s.pc.Stepped? ==>
          && s.pc.job.step < |s.saved|
          && s.pc.output == s.saved[s.pc.job.step].result
          && (s.pc.terminal ==> s.pc.job.step == |s.saved| - 1 && s.saved[s.pc.job.step].terminal))
    && (s.pc.Leaving? || s.pc.Closing? ==> s.pc.job.step < |s.saved|)
  }

  /** Whatever the schedule did, the store holds exactly the collected replies of the first
      `|saved|` steps, and no queued job is further than one step past them. */
  ghost predicate Inv(env: Env, s: State) {
    && Answers(env, s.saved)
    && s.outputs == Collect(env, s.saved)
    && (forall i | 0 <= i < |s.jobs| :: JobOk(env, s.jobs[i], |s.saved|) && s.jobs[i].attempts < env.maxAttempts)
    && PcOk(env, s)
  }

  lemma InvStep(env: Env, s: State, a: Action)
    requires WellFormed(env) && Inv(env, s) && Enabled(env, s, a)
    ensures Inv(env, Do(env, s, a))
    ensures s.saved <= Do(env, s, a).saved
    ensures forall x | x in s.outputs :: x in Do(env, s, a).outputs && Do(env, s, a).outputs[x] == s.outputs[x]
  {
    if a.Save? {
      InvSave(env, s);
    } else if a.Skip? {
      InvSkip(env, s);
    } else {
      InvRest(env, s, a);
    }
  }

  lemma InvSave(env: Env, s: State)
    requires WellFormed(env) && Inv(env, s) && s.pc.Replied?
    ensures Inv(env, Do(env, s, Save))
    ensures forall x | x in s.outputs ::
              x in Do(env, s, Save).outputs && Do(env, s, Save).outputs[x] == s.outputs[x]
  {
    CollectAt(env, s.saved);
    AnswersExtend(env, s.saved, s.pc.reply);
  }

  lemma InvSkip(env: Env, s: State)
    requires WellFormed(env) && Inv(env, s) && Enabled(env, s, Skip)
    ensures Inv(env, Do(env, s, Skip))
  {
    CollectAt(env, s.saved);
    assert env.steps[s.pc.job.step].id in Collect(env, s.saved);
  }

  lemma InvRest(env: Env, s: State, a: Action)
    requires WellFormed(env) && Inv(env, s) && Enabled(env, s, a) && !a.Save? && !a.Skip?
    ensures Inv(env, Do(env, s, a)) && Do(env, s, a).saved == s.saved && Do(env, s, a).outputs == s.outputs
  {
    if a.Ask? { CollectAt(env, s.saved); }
  }

  lemma {:induction false} InvRun(env: Env, s: State, acts: Schedule)
    requires WellFormed(env) && Inv(env, s) && Runs(env, s, acts)
    ensures Inv(env, After(env, s, acts))
    ensures s.saved <= After(env, s, acts).saved
    ensures forall x | x in s.outputs ::
              x in After(env, s, acts).outputs && After(env, s, acts).outputs[x] == s.outputs[x]
    decreases |acts|
  {
    if acts != [] {
      InvStep(env, s, acts[0]);
      InvRun(env, Do(env, s, acts[0]), acts[1..]);
    }
  }

  /** Under every crash and retry schedule the stored outputs are those of a prefix of the
      steps, each its agent's reply to input built from the earlier ones. */
  lemma StoredIsAnsweredPrefix(env: Env, acts: Schedule)
    requires WellFormed(env) && Runs(env, Init(), acts)
    ensures var s := After(env, Init(), acts);
            && Answers(env, s.saved)
            && s.outputs == Collect(env, s.saved)
            && forall x :: x in s.outputs <==> exists k :: 0 <= k < |s.saved| && env.steps[k].id == x
  {
    InvRun(env, Init(), acts);
    CollectAt(env, After(env, Init(), acts).saved);
  }

  /** No stored output is ever dropped or replaced, however the run goes on. */
  lemma StoredNeverChanges(env: Env, acts: Schedule, more: Schedule)
    requires WellFormed(env) && Runs(env, Init(), acts + more) && Runs(env, Init(), acts)
    ensures var s, t := After(env, Init(), acts), After(env, Init(), acts + more);
            forall x | x in s.outputs :: x in t.outputs && t.outputs[x] == s.outputs[x]
  {
    RunsSplit(env, Init(), acts, more);
    InvRun(env, Init(), acts);
    InvRun(env, After(env, Init(), acts), more);
  }

  lemma {:induction false} RunsSplit(env: Env, s: State, a: Schedule, b: Schedule)
    requires Runs(env, s, a + b)
    ensures Runs(env, s, a) && Runs(env, After(env, s, a), b)
    ensures After(env, s, a + b) == After(env, After(env, s, a), b)
    decreases |a|
  {
    if a == [] {
      assert a + b == b;
    } else {
      assert (a + b)[1..] == a[1..] + b;
      RunsSplit(env, Do(env, s, a[0]), a[1..], b);
    }
  }

  // ----- The inline runner as the reference -----

  /** A complete in-process run: each step answered once, in order, up to the first
      terminal reply or the end. */
  ghost predicate InlineRun(env: Env, replies: seq<Reply>) {
    && Answers(env, replies)
    && (forall k | 0 <= k < |replies| - 1 :: !replies[k].terminal)
    && (|replies| == |env.steps| || (|replies| > 0 && replies[|replies| - 1].terminal))
  }

  /** Possible replies that end before the last step with a terminal one. */
  ghost predicate EndsEarly(env: Env, replies: seq<Reply>) {
    Answers(env, replies) && 0 < |replies| < |env.steps| && replies[|replies| - 1].terminal
  }

  /** No step but the last can end a run early. */
  ghost predicate NoEarlyExit(env: Env) {
    forall replies: seq<Reply> :: !EndsEarly(env, replies)
  }

  lemma NoEarlyExitAt(env: Env, replies: seq<Reply>, k: nat)
    requires NoEarlyExit(env) && Answers(env, replies) && k < |replies| && k + 1 < |env.steps|
    ensures !replies[k].terminal
  {
    AnswersPrefix(env, replies, k + 1);
    assert !EndsEarly(env, replies[..k + 1]);
  }

  /** Possible replies that go on past a terminal one. */
  ghost predicate Outruns(env: Env, replies: seq<Reply>, k: nat) {
    Answers(env, replies) && k + 1 < |replies| && replies[k].terminal
  }

  /** No step after a terminal reply can be answered. */
  ghost predicate StopsAtTerminal(env: Env) {
    forall replies: seq<Reply>, k: nat :: !Outruns(env, replies, k)
  }

  /** A run that closed did so at the end of what it stored. */
  ghost predicate ClosedWell(env: Env, s: State) {
    && (s.closed != [] || s.pc.Closing? ==> InlineRun(env, s.saved) && |s.saved| > 0)
    && (forall i | 0 <= i < |s.closed| :: |s.saved| > 0 && s.closed[i] == s.saved[|s.saved| - 1].result)
    && (s.result == if s.closed == [] then None else Some(s.closed[|s.closed| - 1]))
    && (s.status == Completed ==> s.closed != [])
  }

  lemma ClosedWellStep(env: Env, s: State, a: Action)
    requires WellFormed(env) && StopsAtTerminal(env) && Enabled(env, s, a)
    requires Inv(env, s) && ClosedWell(env, s)
    ensures ClosedWell(env, Do(env, s, a))
  {
    if a.Complete? {
      ClosedWellComplete(env, s);
    } else if a.Save? {
      ClosedWellSave(env, s);
    }
  }

  lemma ClosedWellComplete(env: Env, s: State)
    requires WellFormed(env) && StopsAtTerminal(env) && Enabled(env, s, Complete)
    requires Inv(env, s) && ClosedWell(env, s)
    ensures ClosedWell(env, Do(env, s, Complete))
  {
    forall i: nat | i < |s.saved| - 1 ensures !s.saved[i].terminal { assert !Outruns(env, s.saved, i); }
  }

  /** After a completion there is nothing left to save. */
  lemma ClosedWellSave(env: Env, s: State)
    requires WellFormed(env) && StopsAtTerminal(env) && Enabled(env, s, Save) && Inv(env, s) && ClosedWell(env, s)
    ensures ClosedWell(env, Do(env, s, Save)) && s.closed == []
  {
    AnswersExtend(env, s.saved, s.pc.reply);
    if s.saved != [] { assert !Outruns(env, s.saved + [s.pc.reply], |s.saved| - 1); }
  }

  // ----- One attempt per job: no step is ever re-run -----

  ghost predicate NoneTerminal(replies: seq<Reply>) {
    forall k | 0 <= k < |replies| :: !replies[k].terminal
  }

  /** With a single attempt per job there is one live job, it is at the first unsaved step,
      and it was not enqueued by a terminal step. */
  ghost predicate SingleFile(env: Env, s: State) {
    && |s.jobs| + (if s.pc.Idle? || s.pc.Leaving? then 0 else 1) <= 1
    && (|s.jobs| == 1 ==> s.jobs[0].step == |s.saved| && NoneTerminal(s.saved))
    && (s.pc.Loading? || s.pc.Executing? || s.pc.Replied? ==>
          s.pc.job.step == |s.saved| && NoneTerminal(s.saved))
    && (s.pc.Stepped? ==>
          && s.pc.job.step + 1 == |s.saved|
          && s.pc.terminal == s.saved[s.pc.job.step].terminal
          && NoneTerminal(s.saved[..|s.saved| - 1]))
    && (s.closed != [] ==> s.jobs == [] && (s.pc.Idle? || s.pc.Leaving? || s.pc.Closing?))
    && |s.notified| + (if s.pc.Closing? then 1 else 0) <= |s.closed| <= 1
  }

  lemma SingleFileStep(env: Env, s: State, a: Action)
    requires WellFormed(env) && env.maxAttempts == 1 && Enabled(env, s, a)
    requires Inv(env, s) && SingleFile(env, s)
    ensures SingleFile(env, Do(env, s, a))
  {
    if a.Start? {
      SingleFileStart(env, s, a.index);
    } else if a.Save? || a.Skip? {
      SingleFileExecute(env, s, a);
    } else {
      SingleFileRest(env, s, a);
    }
  }

  lemma SingleFileStart(env: Env, s: State, i: nat)
    requires Enabled(env, s, Start(i)) && SingleFile(env, s)
    ensures SingleFile(env, Do(env, s, Start(i)))
  {
    assert s.jobs[..i] + s.jobs[i + 1..] == [];
  }

  lemma SingleFileExecute(env: Env, s: State, a: Action)
    requires WellFormed(env) && Enabled(env, s, a) && (a.Save? || a.Skip?)
    requires Inv(env, s) && SingleFile(env, s)
    ensures SingleFile(env, Do(env, s, a))
  {
    CollectAt(env, s.saved);
    if a.Save? { assert (s.saved + [s.pc.reply])[..|s.saved|] == s.saved; }
  }

  lemma SingleFileRest(env: Env, s: State, a: Action)
    requires env.maxAttempts == 1 && Enabled(env, s, a) && !a.Start? && !a.Save? && !a.Skip?
    requires PcOk(env, s) && SingleFile(env, s)
    ensures SingleFile(env, Do(env, s, a))
  {
    if a.Enqueue? { assert s.saved == s.saved[..|s.saved| - 1] + [s.saved[|s.saved| - 1]]; }
  }

  lemma SingleFileCloses(env: Env, s: State, a: Action)
    requires WellFormed(env) && env.maxAttempts == 1 && Enabled(env, s, a)
    requires Inv(env, s) && SingleFile(env, s) && ClosedWell(env, s)
    ensures ClosedWell(env, Do(env, s, a))
  {
    if a.Complete? {
      forall k | 0 <= k < |s.saved| - 1 ensures !s.saved[k].terminal {
        assert s.saved[..|s.saved| - 1][k] == s.saved[k];
      }
    }
  }

  // ----- Queued runs against inline runs -----

  ghost predicate Good(env: Env, s: State) {
    && Inv(env, s) && ClosedWell(env, s)
    && (env.maxAttempts == 1 ==> SingleFile(env, s))
  }

  lemma {:induction false} GoodRun(env: Env, s: State, acts: Schedule)
    requires WellFormed(env) && (env.maxAttempts == 1 || StopsAtTerminal(env))
    requires Good(env, s) && Runs(env, s, acts)
    ensures Good(env, After(env, s, acts))
    decreases |acts|
  {
    if acts != [] {
      var a := acts[0];
      InvStep(env, s, a);
      if env.maxAttempts == 1 {
        SingleFileStep(env, s, a);
        SingleFileCloses(env, s, a);
      } else {
        ClosedWellStep(env, s, a);
      }
      GoodRun(env, Do(env, s, a), acts[1..]);
    }
  }

  /** What is stored and reported is that of one inline run. */
  ghost predicate Refines(env: Env, s: State, replies: seq<Reply>) {
    && |replies| > 0 && InlineRun(env, replies) && s.outputs == Collect(env, replies)
    && s.result == Some(replies[|replies| - 1].result)
    && forall i | 0 <= i < |s.closed| :: s.closed[i] == replies[|replies| - 1].result
  }

  /** Refinement: when jobs are never retried, or no step after a terminal reply can be
      answered, a completed queued run has stored the outputs, and every completion has
      reported the result, of one inline run. */
  lemma QueuedRefinesInline(env: Env, acts: Schedule)
    requires WellFormed(env) && (env.maxAttempts == 1 || StopsAtTerminal(env))
    requires Runs(env, Init(), acts) && After(env, Init(), acts).closed != []
    ensures Refines(env, After(env, Init(), acts), After(env, Init(), acts).saved)
  {
    GoodRun(env, Init(), acts);
  }

  /** Agents that are functions of their input. */
  ghost predicate Deterministic(env: Env, agent: (string, Value) -> Reply) {
    forall a: string, v: Value, r: Reply :: env.may(a, v, r) ==> r == agent(a, v)
  }

  lemma {:induction false} InlineUnique(env: Env, agent: (string, Value) -> Reply, a: seq<Reply>, b: seq<Reply>, k: nat)
    requires Deterministic(env, agent) && Answers(env, a) && Answers(env, b)
    requires k <= |a| && k <= |b|
    ensures a[..k] == b[..k]
  {
    if k > 0 {
      InlineUnique(env, agent, a, b, k - 1);
      assert AnswersAt(env, a, k - 1) && AnswersAt(env, b, k - 1);
      assert a[..k] == a[..k - 1] + [a[k - 1]] && b[..k] == b[..k - 1] + [b[k - 1]];
    }
  }

  /** With deterministic agents the completed queued run and the inline run agree on every
      output and on the result. */
  lemma QueuedEqualsInline(env: Env, agent: (string, Value) -> Reply, acts: Schedule, inline: seq<Reply>)
    requires WellFormed(env) && (env.maxAttempts == 1 || StopsAtTerminal(env)) && Deterministic(env, agent)
    requires Runs(env, Init(), acts) && After(env, Init(), acts).closed != []
    requires InlineRun(env, inline)
    ensures Refines(env, After(env, Init(), acts), inline)
  {
    QueuedRefinesInline(env, acts);
    var saved := After(env, Init(), acts).saved;
    var k := if |saved| <= |inline| then |saved| else |inline|;
    InlineUnique(env, agent, saved, inline, k);
    assert forall i | 0 <= i < k :: saved[i] == saved[..k][i] == inline[..k][i] == inline[i];
    assert saved == saved[..|saved|] && inline == inline[..|inline|];
  }

  // ----- Schedules without faults -----

  function StepActs(reply: Reply): Schedule {
    [Start(0), Load, Ask(reply), Save]
  }

  /** Idle with one fresh job for the next step. */
  function Ready(env: Env, replies: seq<Reply>, executions: nat): State
    requires |replies| <= |env.steps|
  {
    State(Collect(env, replies), Running, None, [Job(|replies|, 0)], Idle, replies, [], [], executions)
  }

  lemma RunsByParts(env: Env, s: State, a: Action, rest: Schedule)
    requires Enabled(env, s, a) && Runs(env, Do(env, s, a), rest)
    ensures Runs(env, s, [a] + rest) && After(env, s, [a] + rest) == After(env, Do(env, s, a), rest)
  {
    assert ([a] + rest)[1..] == rest;
  }

  lemma StepRuns(env: Env, replies: seq<Reply>, r: Reply, e: nat) returns (t: State)
    requires WellFormed(env) && Answers(env, replies + [r])
    ensures Runs(env, Ready(env, replies, e), StepActs(r))
    ensures t == After(env, Ready(env, replies, e), StepActs(r))
    ensures t == Ready(env, replies + [r], e + 1).(
                   jobs := [],
                   pc := Stepped(Job(|replies|, 1), Collect(env, replies + [r]), r.result, r.terminal))
  {
    var all := replies + [r];
    var k := |replies|;
    assert all[..k] == replies;
    assert AnswersAt(env, all, k);
    AnswersPrefix(env, all, k);
    CollectAt(env, replies);
    var s0 := Ready(env, replies, e);
    var s1 := Do(env, s0, Start(0));
    var s2 := Do(env, s1, Load);
    var s3 := Do(env, s2, Ask(r));
    t := Do(env, s3, Save);
    assert Runs(env, t, []);
    RunsByParts(env, s3, Save, []);
    RunsByParts(env, s2, Ask(r), [Save]);
    RunsByParts(env, s1, Load, [Ask(r)] + [Save]);
    RunsByParts(env, s0, Start(0), [Load] + ([Ask(r)] + [Save]));
    assert [Start(0)] + ([Load] + ([Ask(r)] + [Save])) == StepActs(r);
  }

  lemma StepAdvances(env: Env, replies: seq<Reply>, r: Reply, e: nat) returns (acts: Schedule)
    requires WellFormed(env) && Answers(env, replies + [r])
    requires |replies| + 1 < |env.steps| && !r.terminal
    ensures Runs(env, Ready(env, replies, e), acts)
    ensures After(env, Ready(env, replies, e), acts) == Ready(env, replies + [r], e + 1)
  {
    var t := StepRuns(env, replies, r, e);
    assert Runs(env, Do(env, Do(env, t, Enqueue), Return), []);
    RunsByParts(env, Do(env, t, Enqueue), Return, []);
    RunsByParts(env, t, Enqueue, [Return]);
    RunsConcat(env, Ready(env, replies, e), StepActs(r), [Enqueue] + [Return]);
    acts := StepActs(r) + ([Enqueue] + [Return]);
  }

  lemma AllButLast(replies: seq<Reply>, from: nat)
    requires from < |replies| && NoneTerminal(replies[from..])
    ensures var k := |replies| - 1;
            && replies[..k][..from] == replies[..from] && replies[..k] + [replies[k]] == replies
            && NoneTerminal(replies[..k][from..]) && !replies[k].terminal
  {
    var k := |replies| - 1;
    assert forall i | 0 <= i < k - from :: replies[..k][from..][i] == replies[from..][i];
    assert replies[from..][k - from] == replies[k];
  }

  /** Without faults the queue walks on through answers none of which ends the run. */
  lemma {:induction false} ReadyAdvance(env: Env, replies: seq<Reply>, from: nat, e: nat)
    returns (acts: Schedule, e': nat)
    requires WellFormed(env) && Answers(env, replies) && from <= |replies| < |env.steps|
    requires NoneTerminal(replies[from..])
    ensures Runs(env, Ready(env, replies[..from], e), acts)
    ensures After(env, Ready(env, replies[..from], e), acts) == Ready(env, replies, e')
  {
    if from == |replies| {
      assert replies[..from] == replies;
      acts, e' := [], e;
    } else {
      var k := |replies| - 1;
      var front := replies[..k];
      AnswersPrefix(env, replies, k);
      AllButLast(replies, from);
      var before, f := ReadyAdvance(env, front, from, e);
      var last := StepAdvances(env, front, replies[k], f);
      RunsConcat(env, Ready(env, replies[..from], e), before, last);
      acts, e' := before + last, f + 1;
    }
  }

  lemma LastStepCompletes(env: Env, replies: seq<Reply>, r: Reply, e: nat) returns (acts: Schedule, t: State)
    requires WellFormed(env) && Answers(env, replies + [r])
    requires |replies| + 1 == |env.steps| || r.terminal
    ensures Reaches(env, Ready(env, replies, e), acts, t)
    ensures t == Ready(env, replies + [r], e + 1).(
                   status := Completed, result := Some(r.result), jobs := [], closed := [r.result],
                   notified := [Collect(env, replies + [r])], pc := Leaving(Job(|replies|, 1)))
  {
    var s := StepRuns(env, replies, r, e);
    var c := Do(env, s, Complete);
    t := Do(env, c, Notify);
    ReachesAction(env, s, Complete);
    ReachesAction(env, c, Notify);
    ReachesTrans(env, s, [Complete], c, [Notify], t);
    ReachesTrans(env, Ready(env, replies, e), StepActs(r), s, [Complete] + [Notify], t);
    acts := StepActs(r) + ([Complete] + [Notify]);
  }

  /** From a ready state the last reply completes the run. */
  lemma ReadyCompletes(env: Env, replies: seq<Reply>, from: nat, e: nat) returns (acts: Schedule, t: State)
    requires WellFormed(env) && Answers(env, replies) && from < |replies|
    requires NoneTerminal(replies[from..|replies| - 1])
    requires |replies| == |env.steps| || replies[|replies| - 1].terminal
    ensures Reaches(env, Ready(env, replies[..from], e), acts, t)
    ensures && t.status == Completed && t.jobs == [] && t.saved == replies
            && t.pc == Leaving(Job(|replies| - 1, 1))
            && t.outputs == Collect(env, replies) && t.notified == [t.outputs]
            && t.closed == [replies[|replies| - 1].result] && t.result == Some(t.closed[0])
  {
    var k := |replies| - 1;
    AnswersPrefix(env, replies, k);
    assert replies[..k][..from] == replies[..from] && replies[..k][from..] == replies[from..k];
    var before, f := ReadyAdvance(env, replies[..k], from, e);
    assert replies[..k] + [replies[k]] == replies;
    var last: Schedule;
    last, t := LastStepCompletes(env, replies[..k], replies[k], f);
    ReachesTrans(env, Ready(env, replies[..from], e), before, Ready(env, replies[..k], f), last, t);
    acts := before + last;
  }

  /** Every inline run of a non-empty list of steps is also a possible queued run: together
      with `QueuedRefinesInline` the two runners have the same outcomes. */
  lemma InlineIsQueued(env: Env, replies: seq<Reply>) returns (acts: Schedule)
    requires WellFormed(env) && InlineRun(env, replies) && env.steps != []
    ensures |replies| > 0 && Runs(env, Init(), acts)
    ensures var s := After(env, Init(), acts);
            && s.status == Completed && s.saved == replies && s.outputs == Collect(env, replies)
            && s.notified == [s.outputs] && s.result == Some(replies[|replies| - 1].result)
            && s.pc == Leaving(Job(|replies| - 1, 1)) && s.jobs == []
  {
    assert Init() == Ready(env, replies[..0], 0);
    var t: State;
    acts, t := ReadyCompletes(env, replies, 0, 0);
  }

  // ----- What a crash after a terminal step loses -----

  /** A queued job only ever follows a step that did not end the run. */
  ghost predicate EarlyExitHeld(env: Env) {
    forall acts | Runs(env, Init(), acts) ::
      var s := After(env, Init(), acts);
      forall i | 0 <= i < |s.jobs| && 0 < s.jobs[i].step <= |s.saved| :: !s.saved[s.jobs[i].step - 1].terminal
  }

  /** The attempt crashes right after saving; the retry finds the output, reports it as not
      terminal and moves on. */
  lemma CrashForgetsTerminal(env: Env, replies: seq<Reply>, r: Reply, e: nat) returns (acts: Schedule)
    requires WellFormed(env) && env.maxAttempts >= 2 && Answers(env, replies + [r])
    requires |replies| + 1 < |env.steps|
    ensures Runs(env, Ready(env, replies, e), acts)
    ensures After(env, Ready(env, replies, e), acts) == Ready(env, replies + [r], e + 2)
  {
    var start := Ready(env, replies, e);
    var t := StepRuns(env, replies, r, e);
    CollectAt(env, replies + [r]);
    var again, s3 := CrashAndReload(env, t);
    var onwards, s6 := SkipOnwards(env, s3);
    ReachesTrans(env, t, again, s3, onwards, s6);
    ReachesTrans(env, start, StepActs(r), t, again + onwards, s6);
    acts := StepActs(r) + (again + onwards);
  }

  lemma StartOnly(env: Env, s: State, job: Job)
    requires s.pc.Idle? && s.jobs == [job] && job.attempts < env.maxAttempts
    ensures Do(env, s, Start(0))
            == s.(jobs := [], pc := Loading(job.(attempts := job.attempts + 1)), executions := s.executions + 1)
  {
  }

  /** A crash of the only job with attempts left, up to where the retry has loaded the run. */
  lemma CrashAndReload(env: Env, s: State) returns (acts: Schedule, t: State)
    requires !s.pc.Idle? && s.jobs == [] && s.pc.job.attempts < env.maxAttempts
    ensures Reaches(env, s, acts, t)
    ensures var job := s.pc.job.(attempts := s.pc.job.attempts + 1);
            t == s.(pc := Executing(job, s.outputs), executions := s.executions + 1)
  {
    var s2 := CrashAndStart(env, s);
    t := Do(env, s2, Load);
    ReachesAction(env, s2, Load);
    acts := [Crash] + [Start(0)] + [Load];
    ReachesTrans(env, s, [Crash] + [Start(0)], s2, [Load], t);
  }

  lemma CrashAndStart(env: Env, s: State) returns (t: State)
    requires !s.pc.Idle? && s.jobs == [] && s.pc.job.attempts < env.maxAttempts
    ensures Reaches(env, s, [Crash] + [Start(0)], t)
    ensures t == s.(pc := Loading(s.pc.job.(attempts := s.pc.job.attempts + 1)), executions := s.executions + 1)
  {
    var s1 := Do(env, s, Crash);
    assert s1.jobs == [s.pc.job];
    t := Do(env, s1, Start(0));
    StartOnly(env, s1, s.pc.job);
    ReachesTwo(env, s, Crash, s1, Start(0), t);
  }

  /** A stored step before the last is skipped and the next one enqueued. */
  lemma SkipOnwards(env: Env, s: State) returns (acts: Schedule, t: State)
    requires s.pc.Executing? && s.pc.job.step + 1 < |env.steps| && env.steps[s.pc.job.step].id in s.pc.run
    ensures Reaches(env, s, acts, t)
    ensures t == s.(pc := Idle, jobs := s.jobs + [Job(s.pc.job.step + 1, 0)])
  {
    var s4 := Do(env, s, Skip);
    var s5 := Do(env, s4, Enqueue);
    t := Do(env, s5, Return);
    ReachesAction(env, s, Skip);
    ReachesAction(env, s4, Enqueue);
    ReachesAction(env, s5, Return);
    ReachesTrans(env, s, [Skip], s4, [Enqueue], s5);
    ReachesTrans(env, s, [Skip] + [Enqueue], s5, [Return], t);
    acts := [Skip] + [Enqueue] + [Return];
  }

  lemma {:induction false} FirstTerminal(replies: seq<Reply>) returns (k: nat)
    requires replies != [] && replies[|replies| - 1].terminal
    ensures k < |replies| && replies[k].terminal && NoneTerminal(replies[..k])
  {
    if t :| 0 <= t < |replies| - 1 && replies[t].terminal {
      k := FirstTerminal(replies[..t + 1]);
      assert replies[..t + 1][..k] == replies[..k];
    } else {
      k := |replies| - 1;
    }
  }

  lemma EarlyExitKept(env: Env, acts: Schedule)
    requires WellFormed(env) && (NoEarlyExit(env) || env.maxAttempts == 1) && Runs(env, Init(), acts)
    ensures var s := After(env, Init(), acts);
            forall i | 0 <= i < |s.jobs| && 0 < s.jobs[i].step <= |s.saved| ::
              !s.saved[s.jobs[i].step - 1].terminal
  {
    InvRun(env, Init(), acts);
    if env.maxAttempts == 1 { GoodRun(env, Init(), acts); }
    var s := After(env, Init(), acts);
    forall i | 0 <= i < |s.jobs| && 0 < s.jobs[i].step <= |s.saved|
      ensures !s.saved[s.jobs[i].step - 1].terminal
    {
      JobKeepsExit(env, s, i);
    }
  }

  lemma JobKeepsExit(env: Env, s: State, i: nat)
    requires WellFormed(env) && Inv(env, s)
    requires NoEarlyExit(env) || (env.maxAttempts == 1 && SingleFile(env, s))
    requires i < |s.jobs| && 0 < s.jobs[i].step <= |s.saved|
    ensures !s.saved[s.jobs[i].step - 1].terminal
  {
    if NoEarlyExit(env) { NoEarlyExitAt(env, s.saved, s.jobs[i].step - 1); }
  }

  /** A run without faults up to a terminal step and a crash right after it was saved. */
  lemma CrashAtTerminal(env: Env, replies: seq<Reply>, k: nat) returns (acts: Schedule, e: nat)
    requires WellFormed(env) && env.maxAttempts >= 2 && Answers(env, replies)
    requires k < |replies| && k + 1 < |env.steps| && NoneTerminal(replies[..k])
    ensures Reaches(env, Init(), acts, Ready(env, replies[..k + 1], e))
  {
    AnswersPrefix(env, replies, k + 1);
    AnswersPrefix(env, replies, k);
    assert replies[..k + 1] == replies[..k] + [replies[k]];
    assert replies[..k][..0] == [] && replies[..k][0..] == replies[..k];
    var before, f := ReadyAdvance(env, replies[..k], 0, 0);
    var rest := CrashForgetsTerminal(env, replies[..k], replies[k], f);
    ReachesTrans(env, Init(), before, Ready(env, replies[..k], f), rest, Ready(env, replies[..k + 1], f + 2));
    acts, e := before + rest, f + 2;
  }

  lemma EarlyExitLost(env: Env, replies: seq<Reply>) returns (acts: Schedule, t: State)
    requires WellFormed(env) && env.maxAttempts >= 2
    requires Answers(env, replies) && 0 < |replies| < |env.steps| && replies[|replies| - 1].terminal
    ensures Reaches(env, Init(), acts, t)
    ensures t.jobs != [] && 0 < t.jobs[0].step <= |t.saved| && t.saved[t.jobs[0].step - 1].terminal
  {
    var k := FirstTerminal(replies);
    var e: nat;
    acts, e := CrashAtTerminal(env, replies, k);
    t := Ready(env, replies[..k + 1], e);
  }

  /** Exactly when early exit survives crashes: no step but the last may be terminal, or a
      job is never retried. */
  lemma EarlyExitHeldExactly(env: Env)
    requires WellFormed(env)
    ensures EarlyExitHeld(env) <==> NoEarlyExit(env) || env.maxAttempts == 1
  {
    if NoEarlyExit(env) || env.maxAttempts == 1 {
      forall acts | Runs(env, Init(), acts) { EarlyExitKept(env, acts); }
    } else {
      var replies: seq<Reply> :| EndsEarly(env, replies);
      var acts, t := EarlyExitLost(env, replies);
    }
  }

  /** The divergence itself: if every step can answer and exactly step k, not the last, is
      terminal, a run with one crash completes with all steps' outputs, which no inline run
      with these replies does. */
  lemma CrashedRunOutrunsInline(env: Env, replies: seq<Reply>, k: nat) returns (acts: Schedule)
    requires WellFormed(env) && env.maxAttempts >= 2
    requires Answers(env, replies) && |replies| == |env.steps| && k + 1 < |replies|
    requires forall i | 0 <= i < |replies| :: replies[i].terminal <==> i == k
    ensures Runs(env, Init(), acts)
    ensures After(env, Init(), acts).status == Completed
    ensures After(env, Init(), acts).outputs == Collect(env, replies)
    ensures !InlineRun(env, replies) && InlineRun(env, replies[..k + 1])
  {
    var before, e := CrashAtTerminal(env, replies, k);
    var last, t := ReadyCompletes(env, replies, k + 1, e);
    ReachesTrans(env, Init(), before, Ready(env, replies[..k + 1], e), last, t);
    acts := before + last;
    AnswersPrefix(env, replies, k + 1);
    assert replies[k].terminal;
  }

  // ----- Going on after completion -----

  /** The same run, but for c more completions and n more notifications behind it. */
  ghost predicate Shifted(s: State, t: State, c: nat, n: nat) {
    && t.outputs == s.outputs && t.jobs == s.jobs && t.pc == s.pc && t.saved == s.saved
    && t.executions == s.executions
    && |t.closed| == |s.closed| + c && |t.notified| == |s.notified| + n
  }

  /** What was reported before does not matter for what a run can do. */
  lemma {:induction false} ShiftedRun(env: Env, s: State, t: State, c: nat, n: nat, acts: Schedule)
    requires Shifted(s, t, c, n) && Runs(env, s, acts)
    ensures Runs(env, t, acts) && Shifted(After(env, s, acts), After(env, t, acts), c, n)
    decreases |acts|
  {
    if acts != [] { ShiftedRun(env, Do(env, s, acts[0]), Do(env, t, acts[0]), c, n, acts[1..]); }
  }

  /** A terminal step completes the run and notifies, the job crashes, and its retry moves on as
      if nothing had ended. */
  lemma CompleteAndGoOn(env: Env, replies: seq<Reply>, r: Reply, e: nat) returns (acts: Schedule, t: State)
    requires WellFormed(env) && env.maxAttempts >= 2 && Answers(env, replies + [r])
    requires |replies| + 1 < |env.steps| && r.terminal
    ensures Reaches(env, Ready(env, replies, e), acts, t)
    ensures Shifted(Ready(env, replies + [r], e + 2), t, 1, 1)
  {
    var start := Ready(env, replies, e);
    var first, t1 := LastStepCompletes(env, replies, r, e);
    CollectAt(env, replies + [r]);
    var again, t2 := CrashAndReload(env, t1);
    var onwards: Schedule;
    onwards, t := SkipOnwards(env, t2);
    ReachesTrans(env, t1, again, t2, onwards, t);
    ReachesTrans(env, start, first, t1, again + onwards, t);
    acts := first + (again + onwards);
  }

  /** The same from the start, at the first terminal reply. */
  lemma CompleteAtFirst(env: Env, replies: seq<Reply>, i: nat) returns (acts: Schedule, e: nat, t: State)
    requires WellFormed(env) && env.maxAttempts >= 2 && Answers(env, replies)
    requires i < |replies| && i + 1 < |env.steps| && NoneTerminal(replies[..i]) && replies[i].terminal
    ensures |replies[..i + 1]| <= |env.steps|
    ensures Reaches(env, Init(), acts, t) && Shifted(Ready(env, replies[..i + 1], e), t, 1, 1)
  {
    AnswersPrefix(env, replies, i + 1);
    AnswersPrefix(env, replies, i);
    assert replies[..i + 1] == replies[..i] + [replies[i]];
    assert replies[..i][..0] == [] && replies[..i][0..] == replies[..i];
    var before, f := ReadyAdvance(env, replies[..i], 0, 0);
    var rest: Schedule;
    rest, t := CompleteAndGoOn(env, replies[..i], replies[i], f);
    ReachesTrans(env, Init(), before, Ready(env, replies[..i], f), rest, t);
    acts, e := before + rest, f + 2;
  }

  /** If some step after a terminal reply can be answered, a completed run can have stored what
      no inline run stores. */
  lemma OutrunByRetry(env: Env, replies: seq<Reply>, k: nat) returns (acts: Schedule)
    requires WellFormed(env) && env.maxAttempts >= 2 && Outruns(env, replies, k)
    ensures Runs(env, Init(), acts)
    ensures After(env, Init(), acts).closed != [] && !InlineRun(env, After(env, Init(), acts).saved)
  {
    var i := FirstTerminal(replies[..k + 1]);
    assert replies[..k + 1][..i] == replies[..i];
    var before, e, t := CompleteAtFirst(env, replies, i);
    AnswersPrefix(env, replies, i + 2);
    assert replies[..i + 2] == replies[..i + 1] + [replies[i + 1]];
    var ready := Ready(env, replies[..i + 1], e);
    var last := StepRuns(env, replies[..i + 1], replies[i + 1], e);
    ShiftedRun(env, ready, t, 1, 1, StepActs(replies[i + 1]));
    acts := before + StepActs(replies[i + 1]);
    RunsConcat(env, Init(), before, StepActs(replies[i + 1]));
    assert After(env, Init(), acts).saved == replies[..i + 2] && replies[..i + 2][i].terminal;
  }

  /** Exactly when every completed queued run has stored an inline run: jobs are never retried,
      or no step after a terminal reply can be answered. */
  lemma RefinesInlineExactly(env: Env)
    requires WellFormed(env)
    ensures (forall acts | Runs(env, Init(), acts) && After(env, Init(), acts).closed != [] ::
               InlineRun(env, After(env, Init(), acts).saved))
            <==> env.maxAttempts == 1 || forall r: seq<Reply>, k: nat :: !Outruns(env, r, k)
  {
    if env.maxAttempts == 1 || StopsAtTerminal(env) {
      forall acts | Runs(env, Init(), acts) && After(env, Init(), acts).closed != []
        ensures InlineRun(env, After(env, Init(), acts).saved)
      {
        QueuedRefinesInline(env, acts);
      }
    } else {
      var r: seq<Reply>, k: nat :| Outruns(env, r, k);
      var acts := OutrunByRetry(env, r, k);
    }
  }

  // ----- onComplete is not called once -----

  /** Without retries `onComplete` is called at most once. */
  lemma NotifiedOnceWithoutRetries(env: Env, acts: Schedule)
    requires WellFormed(env) && env.maxAttempts == 1 && Runs(env, Init(), acts)
    ensures |After(env, Init(), acts).notified| <= 1
  {
    GoodRun(env, Init(), acts);
  }

  /** A step at which a run can close. */
  predicate Closes(env: Env, replies: seq<Reply>, k: nat)
    requires k < |replies|
  {
    replies[k].terminal || k + 1 == |env.steps|
  }

  /** Possible replies that can close a retried run twice: they reach the last step, or two of
      them are terminal. */
  ghost predicate ClosesTwice(env: Env, replies: seq<Reply>) {
    && Answers(env, replies)
    && (0 < |replies| == |env.steps|
        || exists i, j | 0 <= i < j < |replies| :: replies[i].terminal && replies[j].terminal)
  }

  lemma {:induction false} FirstClosing(env: Env, replies: seq<Reply>, from: nat, k: nat) returns (j: nat)
    requires from <= k < |replies| <= |env.steps| && Closes(env, replies, k)
    ensures from <= j <= k && Closes(env, replies, j) && NoneTerminal(replies[from..j])
    decreases k
  {
    if t: nat :| from <= t < k && replies[t].terminal {
      j := FirstClosing(env, replies, from, t);
    } else {
      j := k;
      assert forall i | 0 <= i < k - from :: replies[from..k][i] == replies[from + i];
    }
  }

  /** The last step, once notified, is skipped by a retry and notified again. */
  lemma LastStepRepeats(env: Env, replies: seq<Reply>) returns (acts: Schedule)
    requires WellFormed(env) && env.maxAttempts >= 2 && env.steps != []
    requires InlineRun(env, replies) && |replies| == |env.steps|
    ensures Runs(env, Init(), acts)
    ensures |After(env, Init(), acts).notified| == 2
  {
    var before := InlineIsQueued(env, replies);
    var t := After(env, Init(), before);
    CollectAt(env, replies);
    var again, s3 := CrashAndReload(env, t);
    var s4 := Do(env, s3, Skip);
    var s5 := Do(env, s4, Complete);
    var s6 := Do(env, s5, Notify);
    ReachesAction(env, s3, Skip);
    ReachesAction(env, s4, Complete);
    ReachesAction(env, s5, Notify);
    ReachesTrans(env, s3, [Skip], s4, [Complete], s5);
    ReachesTrans(env, s3, [Skip] + [Complete], s5, [Notify], s6);
    var tail := [Skip] + [Complete] + [Notify];
    ReachesTrans(env, t, again, s3, tail, s6);
    ReachesTrans(env, Init(), before, t, again + tail, s6);
    acts := before + (again + tail);
  }

  /** A run that closed early at step i goes on to close again at step j. */
  lemma ClosesAgain(env: Env, replies: seq<Reply>, i: nat, j: nat) returns (acts: Schedule)
    requires WellFormed(env) && env.maxAttempts >= 2 && Answers(env, replies)
    requires i < j < |replies| && NoneTerminal(replies[..i]) && replies[i].terminal
    requires NoneTerminal(replies[i + 1..j]) && Closes(env, replies, j)
    ensures Runs(env, Init(), acts)
    ensures |After(env, Init(), acts).notified| == 2
  {
    var before, e, t := CompleteAtFirst(env, replies, i);
    AnswersPrefix(env, replies, j + 1);
    var all := replies[..j + 1];
    assert all[..i + 1] == replies[..i + 1] && all[i + 1..|all| - 1] == replies[i + 1..j];
    var last, u := ReadyCompletes(env, all, i + 1, e);
    ShiftedRun(env, Ready(env, replies[..i + 1], e), t, 1, 1, last);
    RunsConcat(env, Init(), before, last);
    acts := before + last;
  }

  /** With retries the documented "called once" fails for all replies that can close a run
      twice, by early exit or at the last step. */
  lemma NotifiedTwice(env: Env, replies: seq<Reply>) returns (acts: Schedule)
    requires WellFormed(env) && env.maxAttempts >= 2 && ClosesTwice(env, replies)
    ensures Runs(env, Init(), acts)
    ensures |After(env, Init(), acts).notified| == 2
  {
    var first, last := |replies| - 1, |replies| - 1;
    if |replies| != |env.steps| {
      first, last :| 0 <= first < last < |replies| && replies[first].terminal && replies[last].terminal;
    }
    var i := FirstClosing(env, replies, 0, first);
    assert replies[0..i] == replies[..i];
    if i + 1 == |env.steps| {
      acts := LastStepRepeats(env, replies);
    } else {
      var j := FirstClosing(env, replies, i + 1, last);
      acts := ClosesAgain(env, replies, i, j);
    }
  }

  ghost predicate HasTerminal(replies: seq<Reply>) {
    exists k | 0 <= k < |replies| :: replies[k].terminal
  }

  /** At most one notification, and that for a terminal reply. */
  ghost predicate NotifiedForTerminal(s: State) {
    && (s.pc.Stepped? && s.pc.terminal ==> s.notified == [])
    && (s.pc.Closing? ==> s.notified == [] && HasTerminal(s.saved))
    && (s.notified != [] ==> |s.notified| == 1 && HasTerminal(s.saved))
  }

  lemma NotifiedStep(env: Env, s: State, a: Action)
    requires WellFormed(env) && Enabled(env, s, a) && Inv(env, s) && NotifiedForTerminal(s)
    requires forall r: seq<Reply> :: !ClosesTwice(env, r)
    ensures NotifiedForTerminal(Do(env, s, a))
  {
    if a.Save? {
      var all := s.saved + [s.pc.reply];
      AnswersExtend(env, s.saved, s.pc.reply);
      assert !ClosesTwice(env, all);
      if k :| 0 <= k < |s.saved| && s.saved[k].terminal { assert all[k].terminal; }
      assert s.pc.reply.terminal ==> all[|s.saved|].terminal;
    } else if a.Complete? {
      assert !ClosesTwice(env, s.saved);
    }
  }

  lemma {:induction false} NotifiedRun(env: Env, s: State, acts: Schedule)
    requires WellFormed(env) && Runs(env, s, acts) && Inv(env, s) && NotifiedForTerminal(s)
    requires forall r: seq<Reply> :: !ClosesTwice(env, r)
    ensures NotifiedForTerminal(After(env, s, acts))
    decreases |acts|
  {
    if acts != [] {
      NotifiedStep(env, s, acts[0]);
      InvStep(env, s, acts[0]);
      NotifiedRun(env, Do(env, s, acts[0]), acts[1..]);
    }
  }

  /** Exactly when `onComplete` is called at most once in every run: jobs are never retried, or
      no replies are possible that reach the last step or hold two terminal ones. */
  lemma NotifiedOnceExactly(env: Env)
    requires WellFormed(env)
    ensures (forall acts | Runs(env, Init(), acts) :: |After(env, Init(), acts).notified| <= 1)
            <==> env.maxAttempts == 1 || forall r: seq<Reply> :: !ClosesTwice(env, r)
  {
    if env.maxAttempts == 1 {
      forall acts | Runs(env, Init(), acts) ensures |After(env, Init(), acts).notified| <= 1 {
        NotifiedOnceWithoutRetries(env, acts);
      }
    } else if r: seq<Reply> :| ClosesTwice(env, r) {
      var acts := NotifiedTwice(env, r);
      assert |After(env, Init(), acts).notified| == 2;
    } else {
      forall acts | Runs(env, Init(), acts) ensures |After(env, Init(), acts).notified| <= 1 {
        NotifiedRun(env, Init(), acts);
      }
    }
  }

  /** A run of an orchestration without steps, which the inline runner completes at once, is
      never completed by the queue: its only job is out of range. */
  lemma EmptySpecNeverCompletes(env: Env, acts: Schedule)
    requires WellFormed(env) && env.steps == [] && Runs(env, Init(), acts)
    ensures After(env, Init(), acts).closed == [] && After(env, Init(), acts).status != Completed
    ensures InlineRun(env, [])
  {
    assert StopsAtTerminal(env);
    GoodRun(env, Init(), acts);
  }

  // ----- A run without a job -----

  /** After `createRun`, before the first job is enqueued. */
  function Created(): State {
    Init().(jobs := [])
  }

  /** No schedule changes anything about the run, whatever its status is. */
  ghost predicate Stranded(env: Env, s: State) {
    forall acts | Runs(env, s, acts) :: After(env, s, acts) == s
  }

  /** Exactly when a run between attempts is stuck for ever: no job of it is left in the queue. In
      particular a crash between `createRun` and `addJob` strands the run for good. */
  lemma StrandedExactly(env: Env, s: State)
    requires WellFormed(env) && Inv(env, s) && s.pc.Idle?
    ensures Stranded(env, s) <==> s.jobs == []
    ensures Stranded(env, Created())
  {
    if s.jobs != [] {
      ReachesAction(env, s, Start(0));
      assert After(env, s, [Start(0)]).executions == s.executions + 1;
    }
  }

  /** While a run is running a job of it is queued, or an attempt is on its way to queueing one. */
  ghost predicate Alive(s: State) {
    && (s.status.Running? ==> s.jobs != [] || (!s.pc.Idle? && !s.pc.Leaving?))
    && (s.pc.Closing? ==> s.status.Completed?)
  }

  predicate LastAttemptCrashes(env: Env, s: State, a: Action) {
    a.Crash? && !s.pc.Idle? && s.pc.job.attempts >= env.maxAttempts
  }

  lemma AliveStep(env: Env, s: State, a: Action)
    requires Alive(s) && Enabled(env, s, a)
    ensures Alive(Do(env, s, a)) || (LastAttemptCrashes(env, s, a) && Do(env, s, a).jobs == [])
  {
    if a.Start? { assert a.index < |s.jobs|; }
  }

  /** Every action of a run starts from a live state: a state that is not live enables none. */
  lemma {:induction false} AliveBefore(env: Env, s: State, acts: Schedule, a: Action)
    requires Alive(s) && Runs(env, s, acts) && Enabled(env, After(env, s, acts), a)
    ensures Alive(After(env, s, acts))
    decreases |acts|
  {
    if acts != [] {
      var t, rest := Do(env, s, acts[0]), acts[1..];
      AliveStep(env, s, acts[0]);
      assert After(env, s, acts) == After(env, t, rest);
      if rest == [] { assert Enabled(env, t, a); } else { assert Enabled(env, t, rest[0]); }
      AliveBefore(env, t, rest, a);
    }
  }

  /** Exactly how a run is left running without a job: its last action is the crash of a job's last
      attempt before the run was completed, or a `failRun` that rejects, which comes to the same.
      Anything else that ends the last job fails the run, or has completed it. */
  lemma StuckRunningExactly(env: Env, acts: Schedule, a: Action)
    requires Runs(env, Init(), acts) && Enabled(env, After(env, Init(), acts), a)
    ensures var s := After(env, Init(), acts);
            var t := Do(env, s, a);
            t.pc.Idle? && t.jobs == [] ==>
              (t.status.Running? <==> s.status.Running? && LastAttemptCrashes(env, s, a))
  {
    AliveBefore(env, Init(), acts, a);
    AliveStep(env, After(env, Init(), acts), a);
  }

  /** An attempt that has just started, crashed until it is the last one. */
  lemma {:induction false} LastTry(env: Env, s: State) returns (acts: Schedule, t: State)
    requires s.pc.Loading? && s.jobs == [] && s.pc.job.attempts <= env.maxAttempts
    ensures Reaches(env, s, acts, t)
    ensures var job := s.pc.job.(attempts := env.maxAttempts);
            t == s.(pc := Loading(job), executions := t.executions)
    decreases env.maxAttempts - s.pc.job.attempts
  {
    if s.pc.job.attempts == env.maxAttempts {
      acts, t := [], s;
    } else {
      var s2 := CrashAndStart(env, s);
      var rest: Schedule;
      rest, t := LastTry(env, s2);
      ReachesTrans(env, s, [Crash] + [Start(0)], s2, rest, t);
      acts := [Crash] + [Start(0)] + rest;
    }
  }

  /** Such a run exists for every orchestration: all attempts at the first step crash. */
  lemma CrashesStrand(env: Env) returns (acts: Schedule, t: State)
    requires WellFormed(env)
    ensures Reaches(env, Init(), acts, t) && t.pc.Idle? && t.jobs == [] && t.status.Running?
  {
    var s1 := Do(env, Init(), Start(0));
    ReachesAction(env, Init(), Start(0));
    var more, s2 := LastTry(env, s1);
    ReachesTrans(env, Init(), [Start(0)], s1, more, s2);
    ReachesAction(env, s2, Crash);
    t := Do(env, s2, Crash);
    acts := [Start(0)] + more + [Crash];
    ReachesTrans(env, Init(), [Start(0)] + more, s2, [Crash], t);
  }

  // ----- Completed and failed -----

  /** Some stored step is one that could close the run. */
  ghost predicate CanClose(env: Env, replies: seq<Reply>) {
    exists k | 0 <= k < |replies| :: Closes(env, replies, k)
  }

  ghost predicate ClosedByStep(env: Env, s: State) {
    s.closed != [] ==> CanClose(env, s.saved)
  }

  lemma ClosedByStepKept(env: Env, s: State, a: Action)
    requires WellFormed(env) && Inv(env, s) && Enabled(env, s, a) && ClosedByStep(env, s)
    ensures ClosedByStep(env, Do(env, s, a))
  {
    InvStep(env, s, a);
    var t := Do(env, s, a);
    if a.Complete? {
      assert Closes(env, t.saved, s.pc.job.step);
    } else if k: nat :| k < |s.saved| && Closes(env, s.saved, k) {
      assert Closes(env, t.saved, k);
    }
  }

  lemma {:induction false} ClosedByStepRun(env: Env, s: State, acts: Schedule)
    requires WellFormed(env) && Inv(env, s) && Runs(env, s, acts) && ClosedByStep(env, s)
    ensures ClosedByStep(env, After(env, s, acts))
    decreases |acts|
  {
    if acts != [] {
      ClosedByStepKept(env, s, acts[0]);
      InvStep(env, s, acts[0]);
      ClosedByStepRun(env, Do(env, s, acts[0]), acts[1..]);
    }
  }

  /** A last attempt that has loaded the run asks, saves, completes, and then rejects. */
  lemma FailsAfterComplete(env: Env, replies: seq<Reply>, s: State) returns (acts: Schedule, t: State)
    requires WellFormed(env) && InlineRun(env, replies) && replies != []
    requires s.pc.Loading? && s.jobs == [] && s.pc.job == Job(|replies| - 1, env.maxAttempts)
    requires s.outputs == Collect(env, replies[..|replies| - 1])
    ensures Reaches(env, s, acts, t) && t.status.Failed? && t.closed != []
  {
    var k := |replies| - 1;
    CollectAt(env, replies[..k]);
    assert AnswersAt(env, replies, k);
    var s1 := Do(env, s, Load);
    var s2 := Do(env, s1, Ask(replies[k]));
    var s3 := Do(env, s2, Save);
    var s4 := Do(env, s3, Complete);
    t := Do(env, s4, Throw);
    ReachesTwo(env, s, Load, s1, Ask(replies[k]), s2);
    ReachesTwo(env, s2, Save, s3, Complete, s4);
    ReachesAction(env, s4, Throw);
    ReachesTrans(env, s, [Load] + [Ask(replies[k])], s2, [Save] + [Complete], s4);
    acts := [Load] + [Ask(replies[k])] + ([Save] + [Complete]) + [Throw];
    ReachesTrans(env, s, [Load] + [Ask(replies[k])] + ([Save] + [Complete]), s4, [Throw], t);
  }

  lemma CompletedCanFail(env: Env, replies: seq<Reply>) returns (acts: Schedule)
    requires WellFormed(env) && InlineRun(env, replies) && replies != []
    ensures Runs(env, Init(), acts)
    ensures After(env, Init(), acts).status.Failed? && After(env, Init(), acts).closed != []
  {
    var k := |replies| - 1;
    AnswersPrefix(env, replies, k);
    assert replies[..k][..0] == [] && replies[..k][0..] == replies[..k];
    var before, e := ReadyAdvance(env, replies[..k], 0, 0);
    var ready := Ready(env, replies[..k], e);
    var s1 := Do(env, ready, Start(0));
    StartOnly(env, ready, Job(k, 0));
    ReachesAction(env, ready, Start(0));
    var tries, s2 := LastTry(env, s1);
    var last, t := FailsAfterComplete(env, replies, s2);
    ReachesTrans(env, Init(), before, ready, [Start(0)], s1);
    ReachesTrans(env, Init(), before + [Start(0)], s1, tries, s2);
    acts := before + [Start(0)] + tries + last;
    ReachesTrans(env, Init(), before + [Start(0)] + tries, s2, last, t);
  }

  /** What a run that was closed has stored starts with an inline run. */
  lemma ClosedHasInline(env: Env, acts: Schedule) returns (replies: seq<Reply>)
    requires WellFormed(env) && Runs(env, Init(), acts) && After(env, Init(), acts).closed != []
    ensures InlineRun(env, replies) && replies != [] && replies <= After(env, Init(), acts).saved
  {
    var saved := After(env, Init(), acts).saved;
    InvRun(env, Init(), acts);
    ClosedByStepRun(env, Init(), acts);
    var k: nat :| k < |saved| && Closes(env, saved, k);
    var j := FirstClosing(env, saved, 0, k);
    AnswersPrefix(env, saved, j + 1);
    replies := saved[..j + 1];
    assert forall i | 0 <= i < j :: replies[i] == saved[0..j][i];
  }

  /** Exactly when a run can end up failed although `completeRun` was called with its result: when
      it can be completed at all. `onComplete` then rejects on the last attempt. */
  lemma CompletedFailsExactly(env: Env)
    requires WellFormed(env)
    ensures (exists acts :: Runs(env, Init(), acts)
                            && After(env, Init(), acts).status.Failed? && After(env, Init(), acts).closed != [])
            <==> exists replies :: InlineRun(env, replies) && replies != []
  {
    if replies :| InlineRun(env, replies) && replies != [] {
      var acts := CompletedCanFail(env, replies);
    }
    if acts :| Runs(env, Init(), acts) && After(env, Init(), acts).closed != [] {
      var replies := ClosedHasInline(env, acts);
    }
  }

  // ----- Termination -----

  /** Executions one fresh job for step i can lead to. */
  function Volume(env: Env, i: nat): nat
    decreases Length(env) - i
  {
    if i >= Length(env) then 0 else env.maxAttempts * (1 + Volume(env, i + 1))
  }

  function Length(env: Env): nat {
    if |env.steps| == 0 then 1 else |env.steps|
  }

  function JobFuel(env: Env, job: Job): nat {
    if job.attempts <= env.maxAttempts then (env.maxAttempts - job.attempts) * (1 + Volume(env, job.step + 1)) else 0
  }

  function QueueFuel(env: Env, jobs: seq<Job>): nat {
    if jobs == [] then 0 else JobFuel(env, jobs[0]) + QueueFuel(env, jobs[1..])
  }

  /** Executions still possible: those of the queued jobs, of the running job's further
      attempts, and of the one job the running attempt may still enqueue. */
  function Fuel(env: Env, s: State): nat {
    QueueFuel(env, s.jobs)
    + (if s.pc.Idle? then 0 else JobFuel(env, s.pc.job))
    + (if s.pc.Idle? || s.pc.Leaving? then 0 else Volume(env, s.pc.job.step + 1))
  }

  function Phase(pc: Pc): nat {
    match pc
    case Idle => 0
    case Leaving(_) => 1
    case Closing(_, _) => 2
    case Stepped(_, _, _, _) => 3
    case Replied(_, _, _) => 4
    case Executing(_, _) => 5
    case Loading(_) => 6
  }

  function Rank(env: Env, s: State): nat {
    7 * Fuel(env, s) + Phase(s.pc)
  }

  lemma {:induction false} QueueFuelConcat(env: Env, a: seq<Job>, b: seq<Job>)
    ensures QueueFuel(env, a + b) == QueueFuel(env, a) + QueueFuel(env, b)
  {
    if a == [] {
      assert a + b == b;
    } else {
      assert (a + b)[1..] == a[1..] + b;
      QueueFuelConcat(env, a[1..], b);
    }
  }

  lemma QueueFuelTake(env: Env, jobs: seq<Job>, i: nat)
    requires i < |jobs|
    ensures QueueFuel(env, jobs) == JobFuel(env, jobs[i]) + QueueFuel(env, jobs[..i] + jobs[i + 1..])
  {
    assert jobs == jobs[..i] + jobs[i..] && jobs[i..] == [jobs[i]] + jobs[i + 1..];
    QueueFuelConcat(env, jobs[..i], jobs[i..]);
    QueueFuelConcat(env, jobs[..i], jobs[i + 1..]);
  }

  lemma QueueFuelAdd(env: Env, jobs: seq<Job>, job: Job)
    ensures QueueFuel(env, jobs + [job]) == QueueFuel(env, jobs) + JobFuel(env, job)
  {
    QueueFuelConcat(env, jobs, [job]);
    assert QueueFuel(env, [job][1..]) == 0;
  }

  lemma OneAttemptLess(env: Env, job: Job)
    requires job.attempts < env.maxAttempts
    ensures JobFuel(env, job) == JobFuel(env, job.(attempts := job.attempts + 1)) + 1 + Volume(env, job.step + 1)
  {
    var v := 1 + Volume(env, job.step + 1);
    assert (env.maxAttempts - job.attempts) * v == (env.maxAttempts - (job.attempts + 1)) * v + v;
  }

  /** Every action uses up an execution or moves the attempt on. */
  lemma FuelStep(env: Env, s: State, a: Action)
    requires WellFormed(env) && Inv(env, s) && Enabled(env, s, a)
    ensures Do(env, s, a).executions + Fuel(env, Do(env, s, a)) <= s.executions + Fuel(env, s)
    ensures Fuel(env, Do(env, s, a)) < Fuel(env, s)
            || (Fuel(env, Do(env, s, a)) == Fuel(env, s) && Phase(Do(env, s, a).pc) < Phase(s.pc))
  {
    match a
    case Start(i) => FuelStarted(env, s, i);
    case Enqueue => FuelEnqueued(env, s);
    case Throw => FuelGivenBack(env, s);
    case Crash => FuelGivenBack(env, s);
    case _ =>
  }

  lemma FuelStarted(env: Env, s: State, i: nat)
    requires Enabled(env, s, Start(i))
    ensures Fuel(env, Do(env, s, Start(i))) + 1 == Fuel(env, s)
  {
    QueueFuelTake(env, s.jobs, i);
    OneAttemptLess(env, s.jobs[i]);
  }

  lemma FuelEnqueued(env: Env, s: State)
    requires Enabled(env, s, Enqueue)
    ensures Fuel(env, Do(env, s, Enqueue)) == Fuel(env, s)
  {
    QueueFuelAdd(env, s.jobs, Job(s.pc.job.step + 1, 0));
  }

  lemma FuelGivenBack(env: Env, s: State)
    requires !s.pc.Idle?
    ensures Fuel(env, GiveBack(env, s)) <= Fuel(env, s)
  {
    QueueFuelAdd(env, s.jobs, s.pc.job);
  }

  lemma {:induction false} FuelRun(env: Env, s: State, acts: Schedule)
    requires WellFormed(env) && Inv(env, s) && Runs(env, s, acts)
    ensures After(env, s, acts).executions + Fuel(env, After(env, s, acts)) <= s.executions + Fuel(env, s)
    ensures |acts| + Rank(env, After(env, s, acts)) <= Rank(env, s)
    decreases |acts|
  {
    if acts != [] {
      FuelStep(env, s, acts[0]);
      InvStep(env, s, acts[0]);
      FuelRun(env, Do(env, s, acts[0]), acts[1..]);
    }
  }

  function Pow(m: nat, k: nat): nat {
    if k == 0 then 1 else m * Pow(m, k - 1)
  }

  /** m + m^2 + ... + m^k */
  function Geometric(m: nat, k: nat): nat {
    if k == 0 then 0 else Geometric(m, k - 1) + Pow(m, k)
  }

  lemma {:induction false} GeometricShift(m: nat, k: nat)
    ensures Geometric(m, k + 1) == m * (1 + Geometric(m, k))
  {
    if k == 0 {
      assert Pow(m, 1) == m * Pow(m, 0) == m;
    } else {
      GeometricShift(m, k - 1);
      Distribute(m, 1 + Geometric(m, k - 1), Pow(m, k));
    }
  }

  lemma Distribute(m: nat, a: nat, b: nat)
    ensures m * (a + b) == m * a + m * b
  {
  }

  lemma {:induction false} VolumeIsGeometric(env: Env, i: nat)
    requires i <= Length(env)
    ensures Volume(env, i) == Geometric(env.maxAttempts, Length(env) - i)
    decreases Length(env) - i
  {
    if i < Length(env) {
      VolumeIsGeometric(env, i + 1);
      GeometricShift(env.maxAttempts, Length(env) - i - 1);
    }
  }

  /** Every schedule terminates: a run of n steps makes at most M + M^2 + ... + M^n job
      executions, and no schedule has more than seven times as many effects. */
  lemma RunsTerminate(env: Env, acts: Schedule)
    requires WellFormed(env) && Runs(env, Init(), acts)
    ensures After(env, Init(), acts).executions <= Geometric(env.maxAttempts, Length(env))
    ensures |acts| <= 7 * Geometric(env.maxAttempts, Length(env))
  {
    FuelRun(env, Init(), acts);
    VolumeIsGeometric(env, 0);
    var v := 1 + Volume(env, 1);
    assert QueueFuel(env, [Job(0, 0)][1..]) == 0;
    assert Fuel(env, Init()) == JobFuel(env, Job(0, 0)) == env.maxAttempts * v;
  }

  // ----- The bound is reached -----

  /** Between attempts, on the way through answers that end no run. */
  ghost predicate Calm(env: Env, replies: seq<Reply>, s: State) {
    && WellFormed(env) && Answers(env, replies) && |replies| == |env.steps| > 0 && NoneTerminal(replies)
    && Inv(env, s) && s.pc.Idle? && s.saved <= replies
  }

  /** `executeStep` of a loaded attempt, by the stored output or by asking the agent. */
  lemma StepEitherWay(env: Env, replies: seq<Reply>, s: State) returns (acts: Schedule, t: State)
    requires WellFormed(env) && Answers(env, replies) && |replies| == |env.steps| && NoneTerminal(replies)
    requires Inv(env, s) && s.saved <= replies && s.pc.Executing? && s.pc.job.step < |env.steps|
    ensures Reaches(env, s, acts, t)
    ensures t.pc.Stepped? && t.pc.job == s.pc.job && !t.pc.terminal
    ensures t.jobs == s.jobs && t.executions == s.executions && t.saved <= replies
  {
    var k := s.pc.job.step;
    CollectAt(env, s.saved);
    if k < |s.saved| {
      acts, t := [Skip], Do(env, s, Skip);
      ReachesAction(env, s, Skip);
    } else {
      assert s.saved == replies[..k];
      assert AnswersAt(env, replies, k);
      var s3 := Do(env, s, Ask(replies[k]));
      t := Do(env, s3, Save);
      ReachesAction(env, s, Ask(replies[k]));
      ReachesAction(env, s3, Save);
      ReachesTrans(env, s, [Ask(replies[k])], s3, [Save], t);
      acts := [Ask(replies[k])] + [Save];
      assert t.saved == replies[..k + 1];
    }
  }

  function Following(env: Env, job: Job): seq<Job> {
    (if job.step + 1 < |env.steps| then [Job(job.step + 1, 0)] else [])
    + (if job.attempts < env.maxAttempts then [job] else [])
  }

  /** The attempt enqueues the next step, if there is one, and crashes. */
  lemma EnqueueAndCrash(env: Env, s: State) returns (acts: Schedule, t: State)
    requires s.pc.Stepped? && !s.pc.terminal
    ensures Reaches(env, s, acts, t)
    ensures t == s.(pc := Idle, jobs := s.jobs + Following(env, s.pc.job))
  {
    if s.pc.job.step + 1 < |env.steps| {
      var s5 := Do(env, s, Enqueue);
      t := Do(env, s5, Crash);
      ReachesAction(env, s, Enqueue);
      ReachesAction(env, s5, Crash);
      ReachesTrans(env, s, [Enqueue], s5, [Crash], t);
      acts := [Enqueue] + [Crash];
    } else {
      t := Do(env, s, Crash);
      ReachesAction(env, s, Crash);
      acts := [Crash];
    }
  }

  /** One attempt of the last queued job that does all its work and then crashes. */
  lemma CrashingAttempt(env: Env, replies: seq<Reply>, s: State) returns (acts: Schedule, t: State)
    requires Calm(env, replies, s) && |s.jobs| > 0
    ensures Reaches(env, s, acts, t) && Calm(env, replies, t) && t.executions == s.executions + 1
    ensures var job := s.jobs[|s.jobs| - 1];
            t.jobs == s.jobs[..|s.jobs| - 1] + Following(env, job.(attempts := job.attempts + 1))
  {
    var start, s2 := LoadLast(env, s);
    var work, s4 := StepEitherWay(env, replies, s2);
    ReachesTrans(env, s, start, s2, work, s4);
    var tail: Schedule;
    tail, t := EnqueueAndCrash(env, s4);
    ReachesTrans(env, s, start + work, s4, tail, t);
    acts := start + work + tail;
    InvRun(env, s, acts);
  }

  /** Picking up the last queued job. */
  lemma LoadLast(env: Env, s: State) returns (acts: Schedule, t: State)
    requires WellFormed(env) && Inv(env, s) && s.pc.Idle? && |s.jobs| > 0
    ensures Reaches(env, s, acts, t) && Inv(env, t) && t.saved == s.saved && t.executions == s.executions + 1
    ensures var job := s.jobs[|s.jobs| - 1];
            t.jobs == s.jobs[..|s.jobs| - 1] && t.pc == Executing(job.(attempts := job.attempts + 1), s.outputs)
  {
    var last := |s.jobs| - 1;
    assert s.jobs[..last] + s.jobs[last + 1..] == s.jobs[..last];
    var s1 := Do(env, s, Start(last));
    t := Do(env, s1, Load);
    ReachesAction(env, s, Start(last));
    ReachesAction(env, s1, Load);
    ReachesTrans(env, s, [Start(last)], s1, [Load], t);
    InvStep(env, s, Start(last));
    InvStep(env, s1, Load);
    acts := [Start(last)] + [Load];
  }

  lemma FuelSplits(env: Env, job: Job)
    requires job.attempts < env.maxAttempts && job.step < |env.steps|
    ensures JobFuel(env, job)
            == 1 + QueueFuel(env, Following(env, job.(attempts := job.attempts + 1)))
  {
    OneAttemptLess(env, job);
    var again := job.(attempts := job.attempts + 1);
    var next := if job.step + 1 < |env.steps| then [Job(job.step + 1, 0)] else [];
    var rest := if again.attempts < env.maxAttempts then [again] else [];
    QueueFuelConcat(env, next, rest);
    assert next != [] ==> QueueFuel(env, next[1..]) == 0;
    assert rest != [] ==> QueueFuel(env, rest[1..]) == 0;
  }

  /** Crashing every attempt, last queued job first, uses up the fuel of all of them. */
  lemma {:induction false} BurnAll(env: Env, replies: seq<Reply>, s: State) returns (acts: Schedule, t: State)
    requires Calm(env, replies, s)
    ensures Reaches(env, s, acts, t) && t.executions == s.executions + QueueFuel(env, s.jobs)
    decreases QueueFuel(env, s.jobs)
  {
    if s.jobs == [] {
      acts, t := [], s;
    } else {
      var last := |s.jobs| - 1;
      var job := s.jobs[last];
      var a1, t1 := CrashingAttempt(env, replies, s);
      FuelSplits(env, job);
      QueueFuelAdd(env, s.jobs[..last], job);
      assert s.jobs == s.jobs[..last] + [job];
      QueueFuelConcat(env, s.jobs[..last], Following(env, job.(attempts := job.attempts + 1)));
      var a2, t2 := BurnAll(env, replies, t1);
      ReachesTrans(env, s, a1, t1, a2, t2);
      acts, t := a1 + a2, t2;
    }
  }

  /** The bound of `RunsTerminate` is exact for any orchestration whose steps can all
      answer: some schedule makes that many executions. */
  lemma BoundIsReached(env: Env, replies: seq<Reply>) returns (acts: Schedule)
    requires WellFormed(env) && Answers(env, replies) && |replies| == |env.steps| && NoneTerminal(replies)
    requires env.steps != []
    ensures Runs(env, Init(), acts)
    ensures After(env, Init(), acts).executions == Geometric(env.maxAttempts, |env.steps|)
  {
    var t: State;
    acts, t := BurnAll(env, replies, Init());
    VolumeIsGeometric(env, 0);
    QueueFuelAdd(env, [], Job(0, 0));
  }
}
