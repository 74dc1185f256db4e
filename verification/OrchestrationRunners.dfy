/** The two runners over one stored run: the queue task `run_step` and the in-process
    runner, sharing `executeStep`. Each attempt of the task is proved to be a schedule of
    the state machine in module Orchestration. */
module OrchestrationRunners {
  import opened Options
  import opened Orchestration
  import Live = StepEvents

  /** `loadRun`'s result: a copy of the stored outputs that the step extends in place. */
  class RunRecord {
    var outputs: Outputs

    constructor (outputs: Outputs)
      ensures this.outputs == outputs
    {
      this.outputs := outputs;
    }
  }

  datatype StepOutcome = StepOutcome(stepId: string, output: Value, terminal: bool, skipped: bool)

  /** The external call that rejects in an attempt, if any, and whether it took effect first.
      A rejecting agent, or an unregistered one, is an `agent` that gives None. */
  datatype Fault =
    | NoFault
    | LoadRejects
    | SaveRejects(stored: bool)
    | CompleteRejects(stored: bool)
    | OnCompleteRejects(called: bool)
    | AddJobRejects(queued: bool)

  type Agent = (string, Value) -> Option<Reply>

  ghost predicate Lawful(env: Env, agent: Agent) {
    forall a: string, v: Value :: agent(a, v).Some? ==> env.may(a, v, agent(a, v).value)
  }

  /** What `executeStep` returns for step k of a record when no call of its own rejects. */
  function OutcomeOf(env: Env, run: Outputs, k: nat, agent: Agent): Option<StepOutcome> {
    if k >= |env.steps| then None
    else
      var step := env.steps[k];
      if step.id in run then Some(StepOutcome(step.id, run[step.id], false, true))
      else
        match agent(step.agentId, step.input(run, env.runInput))
        case None => None
        case Some(r) => Some(StepOutcome(step.id, r.result, r.terminal, false))
  }

  datatype Event =
    | StepStart(stepId: string, agentId: string)
    | AgentEvent(event: Live.Event)
    | StepDone(stepId: string)
    | Final(result: Option<Value>)

  /** The state right after `executeStep` returned `o` to an attempt loaded from `s`. */
  ghost function SteppedFrom(s: State, job: Job, o: StepOutcome): State {
    s.(outputs := if o.skipped then s.outputs else s.outputs[o.stepId := o.output],
       saved := if o.skipped then s.saved else s.saved + [Reply(o.output, o.terminal)],
       pc := Stepped(job, if o.skipped then s.outputs else s.outputs[o.stepId := o.output], o.output, o.terminal))
  }

  lemma ExecutePath(env: Env, s: State, agent: Agent, o: StepOutcome) returns (acts: Schedule)
    requires WellFormed(env) && Lawful(env, agent) && Inv(env, s) && s.pc.Loading?
    requires OutcomeOf(env, s.outputs, s.pc.job.step, agent) == Some(o)
    ensures Reaches(env, s, acts, SteppedFrom(s, s.pc.job, o))
  {
    var s1 := Do(env, s, Load);
    ReachesAction(env, s, Load);
    if o.skipped {
      ReachesAction(env, s1, Skip);
      ReachesTrans(env, s, [Load], s1, [Skip], Do(env, s1, Skip));
      acts := [Load] + [Skip];
    } else {
      var r := Reply(o.output, o.terminal);
      var s2 := Do(env, s1, Ask(r));
      var s3 := Do(env, s2, Save);
      ReachesAction(env, s1, Ask(r));
      ReachesAction(env, s2, Save);
      ReachesTrans(env, s1, [Ask(r)], s2, [Save], s3);
      ReachesTrans(env, s, [Load], s1, [Ask(r)] + [Save], s3);
      acts := [Load] + ([Ask(r)] + [Save]);
    }
  }

  /** What an attempt at step k leaves, whichever call rejects: the reply if it was saved, the run
      completed, `onComplete` called, or the next step enqueued, as far as the attempt got. */
  ghost predicate AttemptLeaves(env: Env, k: nat, agent: Agent, fault: Fault, before: State, after: State, ok: bool) {
    var known := k < |env.steps| && env.steps[k].id in before.outputs;
    var reply := if k < |env.steps| && !known
                 then agent(env.steps[k].agentId, env.steps[k].input(before.outputs, env.runInput)) else None;
    var stores := !fault.LoadRejects? && reply.Some? && fault != SaveRejects(false);
    var executed := !fault.LoadRejects? && (known || (reply.Some? && !fault.SaveRejects?));
    var last := k + 1 >= |env.steps| || (reply.Some? && reply.value.terminal);
    var completes := executed && last && fault != CompleteRejects(false);
    var notifies := executed && last && !fault.CompleteRejects? && fault != OnCompleteRejects(false);
    var enqueues := executed && !last && fault != AddJobRejects(false);
    && (ok <==> executed
                && if last then !fault.CompleteRejects? && !fault.OnCompleteRejects? else !fault.AddJobRejects?)
    && after.outputs == (if stores then before.outputs[env.steps[k].id := reply.value.result] else before.outputs)
    && after.saved == (if stores then before.saved + [reply.value] else before.saved)
    && after.status == (if completes then Completed else before.status)
    && (completes ==> after.result == Some(after.outputs[env.steps[k].id])
                      && after.closed == before.closed + [after.outputs[env.steps[k].id]])
    && (!completes ==> after.result == before.result && after.closed == before.closed)
    && after.notified == (if notifies then before.notified + [after.outputs] else before.notified)
    && after.jobs == (if enqueues then before.jobs + [Job(k + 1, 0)] else before.jobs)
    && after.executions == before.executions
  }

  class StoredRun {
    var outputs: Outputs
    var status: Status
    var result: Option<Value>
    var jobs: seq<Job>
    ghost var saved: seq<Reply>
    ghost var closed: seq<Value>
    ghost var notified: seq<Outputs>
    ghost var executions: nat

    ghost function St(pc: Pc): State
      reads this
    {
      State(outputs, status, result, jobs, pc, saved, closed, notified, executions)
    }

    constructor CreateRun()
      ensures St(Idle) == Created()
    {
      outputs, status, result, jobs := map[], Running, None, [];
      saved, closed, notified, executions := [], [], [], 0;
    }

    /** The queued runner's `addJob` for step 0. */
    method AddFirstJob()
      modifies this`jobs
      ensures jobs == old(jobs) + [Job(0, 0)]
    {
      jobs := jobs + [Job(0, 0)];
    }

    method SaveStep(id: string, reply: Reply)
      modifies this`outputs, this`saved
      ensures outputs == old(outputs)[id := reply.result] && saved == old(saved) + [reply]
    {
      outputs := outputs[id := reply.result];
      saved := saved + [reply];
    }

    method CompleteRun(output: Option<Value>)
      modifies this`status, this`result, this`closed
      ensures status == Completed && result == output
      ensures closed == if output.Some? then old(closed) + [output.value] else old(closed)
    {
      status, result := Completed, output;
      if output.Some? { closed := closed + [output.value]; }
    }

    /** What the in-process runner does after its last step. */
    method CloseInline(output: Option<Value>, final: Outputs, closing: Fault) returns (end: InlineEnd)
      modifies this`status, this`result, this`closed, this`notified
      ensures end == if closing.CompleteRejects? then CompleteRunRejected
                     else if closing.OnCompleteRejects? then OnCompleteRejected else RanToEnd
      ensures status == if closing == CompleteRejects(false) then old(status) else Completed
      ensures result == if closing == CompleteRejects(false) then old(result) else output
      ensures closed == if closing == CompleteRejects(false) || output.None? then old(closed)
                        else old(closed) + [output.value]
      ensures notified == if end.RanToEnd? || closing == OnCompleteRejects(true) then
                          old(notified) + [final] else old(notified)
    {
      if closing == CompleteRejects(false) { return CompleteRunRejected; }
      CompleteRun(output);
      if closing.CompleteRejects? { return CompleteRunRejected; }
      if closing == OnCompleteRejects(false) { return OnCompleteRejected; }
      notified := notified + [final];
      end := if closing.OnCompleteRejects? then OnCompleteRejected else RanToEnd;
    }

    /** Executes one step once: a step whose output is in the record is skipped and reported
        as not terminal; otherwise the agent's reply is stored and merged into the record. */
    method ExecuteStep(env: Env, run: RunRecord, k: nat, agent: Agent, fault: Fault)
      returns (outcome: Option<StepOutcome>)
      modifies this`outputs, this`saved, run
      ensures outcome == if fault.SaveRejects? && k < |env.steps| && env.steps[k].id !in old(run.outputs)
                         then None else OutcomeOf(env, old(run.outputs), k, agent)
      ensures var o := OutcomeOf(env, old(run.outputs), k, agent);
              if o.None? || o.value.skipped then unchanged(this) && unchanged(run)
              else
                var r := Reply(o.value.output, o.value.terminal);
                && saved == old(saved) + (if fault == SaveRejects(false) then [] else [r])
                && outputs == (if fault == SaveRejects(false) then old(outputs)
                               else old(outputs)[o.value.stepId := r.result])
                && run.outputs == if fault.SaveRejects? then old(run.outputs)
                                  else old(run.outputs)[o.value.stepId := r.result]
    {
      if k >= |env.steps| { return None; }
      var step := env.steps[k];
      if step.id in run.outputs {
        return Some(StepOutcome(step.id, run.outputs[step.id], false, true));
      }
      var res := agent(step.agentId, step.input(run.outputs, env.runInput));
      if res.None? { return None; }
      if fault == SaveRejects(false) { return None; }
      SaveStep(step.id, res.value);
      if fault.SaveRejects? { return None; }
      run.outputs := run.outputs[step.id := res.value.result];
      return Some(StepOutcome(step.id, res.value.result, res.value.terminal, false));
    }

    /** The same for the next step of a record that is up to date, as in a run in process. */
    method NextStep(env: Env, run: RunRecord, k: nat, agent: Agent, fault: Fault) returns (outcome: Option<StepOutcome>)
      requires WellFormed(env) && Lawful(env, agent) && k == |saved| < |env.steps|
      requires Answers(env, saved) && NoneTerminal(saved) && outputs == run.outputs == Collect(env, saved)
      modifies this`outputs, this`saved, run
      ensures Answers(env, saved) && outputs == Collect(env, saved)
      ensures outcome.None? ==> StoppedAt(env, agent, fault, old(saved), saved)
      ensures outcome.Some? ==>
                && saved == old(saved) + [Reply(outcome.value.output, outcome.value.terminal)]
                && run.outputs == outputs && AskedOne(env, agent, fault, old(saved), saved[k])
    {
      CollectAt(env, saved);
      ghost var before := saved;
      outcome := ExecuteStep(env, run, k, agent, fault);
      if saved != before { AnswersExtend(env, before, saved[k]); }
    }

    /** The same with what is yielded: the start, the events of the agent, and the end unless the
        step rejects. */
    method PlayNextStep(env: Env, run: RunRecord, k: nat, agent: Agent, fault: Fault, live: Interleavings)
      returns (outcome: Option<StepOutcome>, events: seq<Event>)
      requires WellFormed(env) && Playable(live) && Lawful(env, agent) && k == |saved| < |env.steps|
      requires Answers(env, saved) && NoneTerminal(saved) && outputs == run.outputs == Collect(env, saved)
      modifies this`outputs, this`saved, run
      ensures Answers(env, saved) && outputs == Collect(env, saved)
      ensures outcome.None? ==>
                && StoppedAt(env, agent, fault, old(saved), saved)
                && events == Begun(env, live, k, false)
      ensures outcome.Some? ==>
                && saved == old(saved) + [Reply(outcome.value.output, outcome.value.terminal)]
                && run.outputs == outputs && AskedOne(env, agent, fault, old(saved), saved[k])
                && events == Block(env, live, k)
    {
      var step := env.steps[k];
      events := [StepStart(step.id, step.agentId)];
      outcome := NextStep(env, run, k, agent, fault);
      var yielded := PlayStep(live(k, outcome.Some?));
      events := events + yielded;
      if outcome.Some? { events := events + [StepDone(step.id)]; }
    }

    /** The loop of the in-process runner: whether all steps that it started resolved, and the
        replies to those that did. */
    method RunSteps(env: Env, run: RunRecord, agentAt: nat -> Agent, faultAt: nat -> Fault, live: Interleavings)
      returns (ok: bool, events: seq<Event>, lastOutput: Option<Value>, ghost replies: seq<Reply>)
      requires WellFormed(env) && Playable(live) && forall k: nat :: Lawful(env, agentAt(k))
      requires saved == [] && outputs == run.outputs == map[]
      modifies this`outputs, this`saved, run
      ensures Answers(env, saved) && outputs == Collect(env, saved)
      ensures Answers(env, replies) && Asked(env, agentAt, faultAt, replies)
      ensures !ok ==>
                && StoppedAt(env, agentAt(|replies|), faultAt(|replies|), replies, saved)
                && events == EventsOf(env, live, replies) + Begun(env, live, |replies|, false)
      ensures ok ==>
                && InlineRun(env, replies) && saved == replies && run.outputs == outputs
                && events == EventsOf(env, live, replies)
                && lastOutput == (if replies == [] then None else Some(replies[|replies| - 1].result))
    {
      lastOutput := None;
      events, replies := [], [];
      var i := 0;
      while i < |env.steps|
        invariant 0 <= i == |replies| <= |env.steps|
        invariant Answers(env, replies) && NoneTerminal(replies) && Asked(env, agentAt, faultAt, replies)
        invariant saved == replies && outputs == run.outputs == Collect(env, replies)
        invariant events == EventsOf(env, live, replies)
        invariant if i == 0 then lastOutput == None else lastOutput == Some(replies[i - 1].result)
      {
        assert Lawful(env, agentAt(i));
        var outcome, yielded := PlayNextStep(env, run, i, agentAt(i), faultAt(i), live);
        events := events + yielded;
        if outcome.None? { return false, events, lastOutput, replies; }
        assert saved[..i] == replies;
        replies := saved;
        lastOutput := Some(outcome.value.output);
        i := i + 1;
        if outcome.value.terminal { break; }
      }
      ok := true;
    }

    /** The body of the task's `try`: returns whether it got to the end, the schedule it
        followed and where in the schedule it stopped. */
    method TryStep(env: Env, job: Job, agent: Agent, fault: Fault)
      returns (ok: bool, ghost acts: Schedule, ghost pc: Pc)
      requires WellFormed(env) && Lawful(env, agent) && Inv(env, St(Loading(job)))
      modifies this
      ensures Reaches(env, old(St(Loading(job))), acts, St(pc))
      ensures !pc.Idle? && pc.job == job
      ensures ok ==> pc.Leaving?
      ensures AttemptLeaves(env, job.step, agent, fault, old(St(Loading(job))), St(pc), ok)
    {
      ghost var s0 := St(Loading(job));
      acts, pc := [], Loading(job);
      if fault.LoadRejects? { return false, acts, pc; }
      var run := new RunRecord(outputs);
      var outcome := ExecuteStep(env, run, job.step, agent, fault);
      ghost var expected := OutcomeOf(env, s0.outputs, job.step, agent);
      ghost var s3 := s0;
      if expected.Some? && (fault != SaveRejects(false) || expected.value.skipped) {
        acts := ExecutePath(env, s0, agent, expected.value);
        s3 := SteppedFrom(s0, job, expected.value);
        pc := s3.pc;
        assert s3 == St(pc);
      }
      if outcome.None? { return false, acts, pc; }
      ghost var more: Schedule;
      ok, more, pc := LeaveStep(env, job, run, outcome.value, fault);
      ReachesTrans(env, s0, acts, s3, more, St(pc));
      acts := acts + more;
    }

    /** What follows `executeStep`: complete the run and call `onComplete`, or enqueue the
        next step. */
    method LeaveStep(env: Env, job: Job, run: RunRecord, o: StepOutcome, fault: Fault)
      returns (ok: bool, ghost acts: Schedule, ghost pc: Pc)
      modifies this`status, this`result, this`closed, this`notified, this`jobs
      ensures Reaches(env, old(St(Stepped(job, run.outputs, o.output, o.terminal))), acts, St(pc))
      ensures !pc.Idle? && pc.job == job
      ensures ok ==> pc.Leaving?
      ensures var last := o.terminal || job.step + 1 >= |env.steps|;
              var completes := last && fault != CompleteRejects(false);
              var notifies := last && !fault.CompleteRejects? && fault != OnCompleteRejects(false);
              var enqueues := !last && fault != AddJobRejects(false);
              && (ok <==> if last then !fault.CompleteRejects? && !fault.OnCompleteRejects? else !fault.AddJobRejects?)
              && status == (if completes then Completed else old(status))
              && result == (if completes then Some(o.output) else old(result))
              && closed == (if completes then old(closed) + [o.output] else old(closed))
              && notified == (if notifies then old(notified) + [run.outputs] else old(notified))
              && jobs == (if enqueues then old(jobs) + [Job(job.step + 1, 0)] else old(jobs))
    {
      var isLast := job.step + 1 >= |env.steps|;
      if o.terminal || isLast {
        ok, acts, pc := CloseQueued(env, job, run, o, fault);
        return;
      }
      ghost var s0 := St(Stepped(job, run.outputs, o.output, o.terminal));
      if fault == AddJobRejects(false) { return false, [], s0.pc; }
      jobs := jobs + [Job(job.step + 1, 0)];
      ReachesAction(env, s0, Enqueue);
      return !fault.AddJobRejects?, [Enqueue], Leaving(job);
    }

    /** The end of a queued run. */
    method CloseQueued(env: Env, job: Job, run: RunRecord, o: StepOutcome, fault: Fault)
      returns (ok: bool, ghost acts: Schedule, ghost pc: Pc)
      requires Leaves(env, job.step, o.terminal)
      modifies this`status, this`result, this`closed, this`notified
      ensures Reaches(env, old(St(Stepped(job, run.outputs, o.output, o.terminal))), acts, St(pc))
      ensures !pc.Idle? && pc.job == job
      ensures ok ==> pc.Leaving?
      ensures ok <==> !fault.CompleteRejects? && !fault.OnCompleteRejects?
      ensures status == if fault == CompleteRejects(false) then old(status) else Completed
      ensures result == if fault == CompleteRejects(false) then old(result) else Some(o.output)
      ensures closed == if fault == CompleteRejects(false) then old(closed) else old(closed) + [o.output]
      ensures notified == if fault.CompleteRejects? || fault == OnCompleteRejects(false) then old(notified)
                          else old(notified) + [run.outputs]
    {
      ghost var s0 := St(Stepped(job, run.outputs, o.output, o.terminal));
      if fault == CompleteRejects(false) { return false, [], s0.pc; }
      CompleteRun(Some(o.output));
      ReachesAction(env, s0, Complete);
      ghost var s1 := St(Closing(job, run.outputs));
      if fault.CompleteRejects? || fault == OnCompleteRejects(false) { return false, [Complete], s1.pc; }
      notified := notified + [run.outputs];
      ReachesTwo(env, s0, Complete, s1, Notify, St(Leaving(job)));
      return !fault.OnCompleteRejects?, [Complete] + [Notify], Leaving(job);
    }

    /** The worker picks up a job. */
    method PickJob(env: Env, index: nat) returns (job: Job)
      requires index < |jobs| && jobs[index].attempts < env.maxAttempts
      modifies this`jobs, this`executions
      ensures job == old(jobs[index]).(attempts := old(jobs[index].attempts) + 1)
      ensures jobs == old(jobs[..index] + jobs[index + 1..])
      ensures St(Loading(job)) == Do(env, old(St(Idle)), Start(index))
    {
      job := jobs[index].(attempts := jobs[index].attempts + 1);
      jobs := jobs[..index] + jobs[index + 1..];
      executions := executions + 1;
    }

    /** The job is dropped after a return; after a rejection the `catch` fails the run on the
        last attempt and the queue keeps the job otherwise. `fails` says whether `failRun` takes
        effect; if it does not, the attempt ends like a crash. */
    method FinishJob(env: Env, job: Job, ok: bool, fails: bool, ghost pc: Pc) returns (ghost end: Action)
      requires !pc.Idle? && pc.job == job && (ok ==> pc.Leaving?)
      modifies this`jobs, this`status
      ensures Enabled(env, old(St(pc)), end) && St(Idle) == Do(env, old(St(pc)), end)
      ensures status == if !ok && fails && job.attempts >= env.maxAttempts then Failed else old(status)
      ensures jobs == if !ok && job.attempts < env.maxAttempts then old(jobs) + [job] else old(jobs)
    {
      end := if ok then Return else if job.attempts < env.maxAttempts || fails then Throw else Crash;
      if !ok {
        if job.attempts >= env.maxAttempts {
          if fails { status := Failed; }
        } else {
          jobs := jobs + [job];
        }
      }
    }

    /** The parts of an attempt: the job as picked up, and the state before its end. */
    method Attempt(env: Env, index: nat, agent: Agent, fault: Fault, fails: bool)
      returns (ok: bool, ghost acts: Schedule, ghost s1: State, ghost s2: State)
      requires WellFormed(env) && Lawful(env, agent) && Inv(env, St(Idle))
      requires index < |jobs| && jobs[index].attempts < env.maxAttempts
      modifies this
      ensures Reaches(env, old(St(Idle)), acts, St(Idle)) && Inv(env, St(Idle))
      ensures var job := old(jobs[index]).(attempts := old(jobs[index].attempts) + 1);
              && s1 == old(St(Idle)).(pc := Loading(job), jobs := old(jobs[..index] + jobs[index + 1..]),
                                      executions := old(executions) + 1)
              && AttemptLeaves(env, job.step, agent, fault, s1, s2, ok)
              && St(Idle) == s2.(
                   pc := Idle,
                   status := if !ok && fails && job.attempts >= env.maxAttempts then Failed else s2.status,
                   jobs := if !ok && job.attempts < env.maxAttempts then s2.jobs + [job] else s2.jobs)
    {
      ghost var s0 := St(Idle);
      var job := PickJob(env, index);
      s1 := St(Loading(job));
      InvStep(env, s0, Start(index));
      ghost var pc: Pc;
      ghost var path: Schedule;
      ok, path, pc := TryStep(env, job, agent, fault);
      s2 := St(pc);
      ghost var end := FinishJob(env, job, ok, fails, pc);
      acts := WholeAttempt(env, s0, index, s1, path, s2, end);
    }

    /** One attempt of a queued job: what it leaves, whether a call rejects and whichever does. */
    method RunStep(env: Env, index: nat, agent: Agent, fault: Fault, fails: bool)
      returns (ok: bool, ghost acts: Schedule)
      requires WellFormed(env) && Lawful(env, agent) && Inv(env, St(Idle))
      requires index < |jobs| && jobs[index].attempts < env.maxAttempts
      modifies this
      ensures Reaches(env, old(St(Idle)), acts, St(Idle)) && Inv(env, St(Idle))
      ensures executions == old(executions) + 1
      ensures var k := old(jobs[index].step);
              var attempts := old(jobs[index].attempts) + 1;
              var known := k < |env.steps| && env.steps[k].id in old(outputs);
              var reply := if k < |env.steps| && !known
                           then agent(env.steps[k].agentId, env.steps[k].input(old(outputs), env.runInput)) else None;
              var stores := !fault.LoadRejects? && reply.Some? && fault != SaveRejects(false);
              var executed := !fault.LoadRejects? && (known || (reply.Some? && !fault.SaveRejects?));
              var last := k + 1 >= |env.steps| || (reply.Some? && reply.value.terminal);
              var completes := executed && last && fault != CompleteRejects(false);
              var notifies := executed && last && !fault.CompleteRejects? && fault != OnCompleteRejects(false);
              var enqueues := executed && !last && fault != AddJobRejects(false);
              && (ok <==> executed && if last then !fault.CompleteRejects? && !fault.OnCompleteRejects?
                                      else !fault.AddJobRejects?)
              && outputs == (if stores then old(outputs)[env.steps[k].id := reply.value.result] else old(outputs))
              && saved == (if stores then old(saved) + [reply.value] else old(saved))
              && status == (if !ok && fails && attempts >= env.maxAttempts then Failed
                            else if completes then Completed else old(status))
              && (completes ==> result == Some(outputs[env.steps[k].id])
                                && closed == old(closed) + [outputs[env.steps[k].id]])
              && (!completes ==> result == old(result) && closed == old(closed))
              && notified == (if notifies then old(notified) + [outputs] else old(notified))
              && jobs == old(jobs[..index] + jobs[index + 1..])
                         + (if enqueues then [Job(k + 1, 0)] else [])
                         + (if !ok && attempts < env.maxAttempts then [Job(k, attempts)] else [])
    {
      ghost var s1, s2: State;
      ok, acts, s1, s2 := Attempt(env, index, agent, fault, fails);
    }
  }

  /** The call of `enqueueRun` that rejects, or before which the process dies, if any. */
  datatype EnqueueFault = Enqueues | CreateRunFails(stored: bool) | AddJobFails(queued: bool)

  /** `enqueueRun` of a registered orchestration; null if no run was stored. A stored run is the
      start of the machine, or a run without a job. */
  method EnqueueRun(fault: EnqueueFault) returns (store: StoredRun?, ok: bool)
    ensures ok <==> fault.Enqueues?
    ensures store == null <==> fault == CreateRunFails(false)
    ensures store != null ==>
              && fresh(store)
              && store.St(Idle) == if fault.Enqueues? || fault == AddJobFails(true) then Init() else Created()
  {
    if fault == CreateRunFails(false) { return null, false; }
    store := new StoredRun.CreateRun();
    if fault.CreateRunFails? || fault == AddJobFails(false) { return store, false; }
    store.AddFirstJob();
    ok := fault.Enqueues?;
  }

  lemma WholeAttempt(env: Env, s0: State, index: nat, s1: State, path: Schedule, s2: State, last: Action)
    returns (acts: Schedule)
    requires WellFormed(env) && Inv(env, s0)
    requires Enabled(env, s0, Start(index)) && s1 == Do(env, s0, Start(index))
    requires Reaches(env, s1, path, s2) && Enabled(env, s2, last)
    ensures Reaches(env, s0, acts, Do(env, s2, last)) && Inv(env, Do(env, s2, last))
  {
    ReachesAction(env, s0, Start(index));
    ReachesAction(env, s2, last);
    ReachesTrans(env, s0, [Start(index)], s1, path, s2);
    ReachesTrans(env, s0, [Start(index)] + path, s2, [last], Do(env, s2, last));
    acts := [Start(index)] + path + [last];
    InvRun(env, s0, acts);
  }

  // ----- What the in-process runner yields -----

  /** For each step, the interleaving of its agent, its promise and the generator: one for the case
      that the step resolves and one for the case that it rejects. */
  type Interleavings = (nat, bool) -> seq<Live.Action>

  /** What such an interleaving is: a run of the step's event queue that goes on until the generator
      has left the loop, or any one in which the step rejects. */
  ghost predicate Playable(live: Interleavings) {
    && (forall k: nat :: Live.Runs(Live.Init(), live(k, true)) && Live.After(Live.Init(), live(k, true)).pc.Left?)
    && (forall k: nat ::
          Live.Runs(Live.Init(), live(k, false)) && Live.After(Live.Init(), live(k, false)).settled.Rejected?)
  }

  function AgentEvents(events: seq<Live.Event>): (r: seq<Event>)
    ensures |r| == |events|
  {
    seq(|events|, i requires 0 <= i < |events| => AgentEvent(events[i]))
  }

  /** What is yielded of step k up to its end: its start and the events of its agent. */
  ghost function Begun(env: Env, live: Interleavings, k: nat, resolves: bool): seq<Event>
    requires k < |env.steps| && Playable(live)
  {
    [StepStart(env.steps[k].id, env.steps[k].agentId)] + AgentEvents(Live.After(Live.Init(), live(k, resolves)).yielded)
  }

  /** All that is yielded of a step that resolves. */
  ghost function Block(env: Env, live: Interleavings, k: nat): seq<Event>
    requires k < |env.steps| && Playable(live)
  {
    Begun(env, live, k, true) + [StepDone(env.steps[k].id)]
  }

  /** The events of an inline run, step after step. */
  ghost function EventsOf(env: Env, live: Interleavings, replies: seq<Reply>): seq<Event>
    requires |replies| <= |env.steps| && Playable(live)
  {
    if replies == [] then []
    else
      var k := |replies| - 1;
      EventsOf(env, live, replies[..k]) + Block(env, live, k)
  }

  /** One step's event queue under a given interleaving: what the generator yields. */
  method PlayStep(acts: seq<Live.Action>) returns (events: seq<Event>)
    requires Live.Runs(Live.Init(), acts)
    ensures events == AgentEvents(Live.After(Live.Init(), acts).yielded)
  {
    var channel := new Live.StepChannel();
    events := [];
    assert acts[..0] == [];
    for i := 0 to |acts|
      invariant fresh(channel)
      invariant Live.Runs(Live.Init(), acts[..i]) && channel.St() == Live.After(Live.Init(), acts[..i])
      invariant events == AgentEvents(channel.yielded)
    {
      Live.RunsUpTo(Live.Init(), acts, i);
      match acts[i]
      case Emit(e) => channel.OnEvent(e);
      case Resolve => channel.Settle(Live.Resolved);
      case Reject => channel.Settle(Live.Rejected);
      case Finish => channel.OnResolved();
      case Resume =>
        var more, _ := channel.Next();
        events := events + AgentEvents(more);
    }
    assert acts[..|acts|] == acts;
  }

  lemma Regroup(a: seq<Event>, b: seq<Event>, c: seq<Event>, d: seq<Event>)
    ensures a + b + c + d == a + b + (c + d)
  {
  }

  lemma {:induction false} BlocksInOrder(env: Env, live: Interleavings, replies: seq<Reply>, k: nat)
    returns (rest: seq<Event>)
    requires Playable(live) && k < |replies| <= |env.steps|
    ensures EventsOf(env, live, replies) == EventsOf(env, live, replies[..k]) + Block(env, live, k) + rest
    ensures k == |replies| - 1 ==> rest == []
  {
    var n := |replies| - 1;
    if k == n {
      rest := [];
    } else {
      var before := BlocksInOrder(env, live, replies[..n], k);
      assert replies[..n][..k] == replies[..k];
      rest := before + Block(env, live, n);
      Regroup(EventsOf(env, live, replies[..k]), Block(env, live, k), before, Block(env, live, n));
    }
  }

  /** The whole yield of an inline run, at any step: what came before, the start of the step, all
      that its agent had emitted when the step resolved, once each and in order, what it emitted
      right after, the end of the step, and what comes behind; nothing comes before the first step
      or behind the last one. */
  lemma YieldsStepByStep(env: Env, live: Interleavings, replies: seq<Reply>, k: nat)
    returns (block: seq<Event>, late: seq<Live.Event>, rest: seq<Event>)
    requires Playable(live) && k < |replies| <= |env.steps|
    ensures EventsOf(env, live, replies) == EventsOf(env, live, replies[..k]) + block + rest
    ensures EventsOf(env, live, []) == [] && (k == |replies| - 1 ==> rest == [])
    ensures var s := Live.After(Live.Init(), live(k, true));
            var events := s.due + late;
            && events <= s.emitted
            && |block| == |events| + 2
            && block[0] == StepStart(env.steps[k].id, env.steps[k].agentId)
            && (forall i | 0 <= i < |events| :: block[i + 1] == AgentEvent(events[i]))
            && block[|events| + 1] == StepDone(env.steps[k].id)
  {
    block := Block(env, live, k);
    rest := BlocksInOrder(env, live, replies, k);
    var s := Live.After(Live.Init(), live(k, true));
    Live.EveryDueEventYieldedOnce(live(k, true));
    late := s.yielded[|s.due|..];
    assert s.due + late == s.yielded;
  }

  /** How the in-process runner ends. */
  datatype InlineEnd = RanToEnd | StepRejected | CompleteRunRejected | OnCompleteRejected

  /** What was yielded and stored by an in-process run that rejected in step `|replies|`. */
  ghost predicate StoppedAt(env: Env, agent: Agent, fault: Fault, replies: seq<Reply>, saved: seq<Reply>) {
    && |replies| < |env.steps| && NoneTerminal(replies)
    && var step := env.steps[|replies|];
       var reply := agent(step.agentId, step.input(Collect(env, replies), env.runInput));
       if reply.None? then saved == replies
       else fault.SaveRejects? && saved == if fault.stored then replies + [reply.value] else replies
  }

  /** The reply was the agent's, and it was saved. */
  ghost predicate AskedOne(env: Env, agent: Agent, fault: Fault, replies: seq<Reply>, reply: Reply)
    requires |replies| < |env.steps|
  {
    var step := env.steps[|replies|];
    agent(step.agentId, step.input(Collect(env, replies), env.runInput)) == Some(reply) && !fault.SaveRejects?
  }

  ghost predicate Asked(env: Env, agentAt: nat -> Agent, faultAt: nat -> Fault, replies: seq<Reply>)
    requires |replies| <= |env.steps|
  {
    replies != [] ==>
      var k := |replies| - 1;
      Asked(env, agentAt, faultAt, replies[..k]) && AskedOne(env, agentAt(k), faultAt(k), replies[..k], replies[k])
  }

  /** The in-process runner: yields the events of an inline run, agents' events included and
      interleaved in any way, and stores what it stored. It
      stops early exactly when an agent, `saveStep`, `completeRun` or `onComplete` rejects;
      `faultAt` and `closing` say which of the latter do. */
  method RunInline(env: Env, agentAt: nat -> Agent, faultAt: nat -> Fault, live: Interleavings, closing: Fault)
    returns (events: seq<Event>, store: StoredRun, ghost replies: seq<Reply>, end: InlineEnd)
    requires WellFormed(env) && Playable(live) && forall k: nat :: Lawful(env, agentAt(k))
    ensures Answers(env, store.saved) && store.outputs == Collect(env, store.saved) && Answers(env, replies)
    ensures Asked(env, agentAt, faultAt, replies)
    ensures end.StepRejected? ==>
              && StoppedAt(env, agentAt(|replies|), faultAt(|replies|), replies, store.saved)
              && events == EventsOf(env, live, replies) + Begun(env, live, |replies|, false)
              && store.status == Running && store.notified == []
    ensures !end.StepRejected? ==> InlineRun(env, replies) && store.saved == replies
    ensures store.status == Completed && replies != [] ==>
              && store.result == Some(replies[|replies| - 1].result)
              && Refines(env, store.St(Idle), replies)
    ensures end.RanToEnd? ==>
              && events != []
              && events[|events| - 1] == Final(if replies == [] then None else Some(replies[|replies| - 1].result))
    ensures end.CompleteRunRejected? <==> InlineRun(env, replies) && !end.StepRejected? && closing.CompleteRejects?
    ensures end.OnCompleteRejected? <==> InlineRun(env, replies) && !end.StepRejected? && closing.OnCompleteRejects?
    ensures !end.StepRejected? ==>
              && events == EventsOf(env, live, replies) + (if end.RanToEnd? then [Final(store.result)] else [])
              && store.status == (if closing == CompleteRejects(false) then Running else Completed)
              && store.result == (if closing == CompleteRejects(false) || replies == [] then None
                                  else Some(replies[|replies| - 1].result))
              && store.notified == if end.RanToEnd? || closing == OnCompleteRejects(true) then [store.outputs] else []
  {
    store := new StoredRun.CreateRun();
    var run := new RunRecord(map[]);
    var ok: bool;
    var lastOutput: Option<Value>;
    ok, events, lastOutput, replies := store.RunSteps(env, run, agentAt, faultAt, live);
    if !ok { return events, store, replies, StepRejected; }
    end := store.CloseInline(lastOutput, run.outputs, closing);
    if end.RanToEnd? { events := events + [Final(lastOutput)]; }
  }

  /** With agents that are functions of their input, what a run in process has stored, and any
      queued run that completes, have the same outputs and the same result. */
  lemma RunnersAgree(env: Env, agent: (string, Value) -> Reply, acts: Schedule, s: State, replies: seq<Reply>)
    requires WellFormed(env) && (env.maxAttempts == 1 || StopsAtTerminal(env)) && Deterministic(env, agent)
    requires Runs(env, Init(), acts) && After(env, Init(), acts).closed != []
    requires Refines(env, s, replies)
    ensures After(env, Init(), acts).outputs == s.outputs && After(env, Init(), acts).result == s.result
    ensures s.result == Some(replies[|replies| - 1].result)
  {
    QueuedEqualsInline(env, agent, acts, replies);
  }
}
