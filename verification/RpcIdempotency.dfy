/** Calls sharing one idempotency key: read the row, run the body, insert if absent, read again.
    Callers interleave freely between these statements. */
module RpcIdempotency {
  import opened Options
  import opened JsText

  type Value(==, !new, 0)

  /** The row of the key; its result column may hold null. */
  datatype Row = Absent | Stored(result: Option<Value>)

  /** Where a caller is. `ran` says whether it has started its body; None stands for null. */
  datatype Phase =
    | Reading
    | Running
    | Inserting(result: Option<Value>)
    | Rereading(result: Option<Value>)
    | Returned(answer: Option<Value>)
    | Failed

  datatype Caller = Caller(phase: Phase, ran: bool, own: Option<Value>)

  datatype State = State(row: Row, callers: seq<Caller>)

  datatype Action =
    | Start
    | Read(c: nat)
    | BodyResolves(c: nat, result: Option<Value>)
    | Insert(c: nat)
    | Reread(c: nat)
    | Fail(c: nat)

  /** `row?.result ?? fallback` */
  function OrElse(row: Row, fallback: Option<Value>): Option<Value> {
    if row.Stored? && row.result.Some? then row.result else fallback
  }

  predicate Enabled(s: State, a: Action) {
    match a
    case Start => true
    case Read(c) => c < |s.callers| && s.callers[c].phase.Reading?
    case BodyResolves(c, _) => c < |s.callers| && s.callers[c].phase.Running?
    case Insert(c) => c < |s.callers| && s.callers[c].phase.Inserting?
    case Reread(c) => c < |s.callers| && s.callers[c].phase.Rereading?
    case Fail(c) => c < |s.callers| && !s.callers[c].phase.Returned? && !s.callers[c].phase.Failed?
  }

  function Do(s: State, a: Action): State
    requires Enabled(s, a)
  {
    match a
    case Start => s.(callers := s.callers + [Caller(Reading, false, None)])
    case Read(c) =>
      if s.row.Stored? && s.row.result.Some? then
        s.(callers := s.callers[c := s.callers[c].(phase := Returned(s.row.result))])
      else s.(callers := s.callers[c := s.callers[c].(phase := Running, ran := true)])
    case BodyResolves(c, result) =>
      s.(callers := s.callers[c := s.callers[c].(phase := Inserting(result), own := result)])
    case Insert(c) =>
      State(if s.row.Absent? then Stored(s.callers[c].phase.result) else s.row,
            s.callers[c := s.callers[c].(phase := Rereading(s.callers[c].phase.result))])
    case Reread(c) =>
      s.(callers := s.callers[c := s.callers[c].(phase := Returned(OrElse(s.row, s.callers[c].phase.result)))])
    case Fail(c) => s.(callers := s.callers[c := s.callers[c].(phase := Failed)])
  }

  const INITIAL := State(Absent, [])

  ghost predicate Runs(s: State, run: seq<Action>)
    decreases |run|, 0
  {
    run == [] || (Runs(s, run[..|run| - 1]) && Enabled(After(s, run[..|run| - 1]), run[|run| - 1]))
  }

  ghost function After(s: State, run: seq<Action>): State
    requires Runs(s, run)
    decreases |run|, 1
  {
    if run == [] then s else Do(After(s, run[..|run| - 1]), run[|run| - 1])
  }

  // ----- One answer -----

  ghost predicate CallerFits(row: Row, c: Caller) {
    match c.phase
    case Reading => !c.ran
    case Running => c.ran
    case Inserting(result) => c.ran && c.own == result
    case Rereading(result) => c.ran && c.own == result && row.Stored?
    case Returned(answer) => row.Stored? && (c.ran || row.result.Some?) && answer == OrElse(row, c.own)
    case Failed => true
  }

  ghost predicate Fits(s: State) {
    forall c | 0 <= c < |s.callers| :: CallerFits(s.row, s.callers[c])
  }

  lemma FitsStep(s: State, a: Action)
    requires Fits(s) && Enabled(s, a)
    ensures Fits(Do(s, a))
  {
    var t := Do(s, a);
    forall c | 0 <= c < |t.callers| ensures CallerFits(t.row, t.callers[c]) {
      if c < |s.callers| { assert CallerFits(s.row, s.callers[c]); }
    }
  }

  lemma {:induction false} AlwaysFits(run: seq<Action>)
    requires Runs(INITIAL, run)
    ensures Fits(After(INITIAL, run))
  {
    if run != [] {
      AlwaysFits(run[..|run| - 1]);
      FitsStep(After(INITIAL, run[..|run| - 1]), run[|run| - 1]);
    }
  }

  /** The row is written once. */
  lemma {:induction false} RowWrittenOnce(s: State, run: seq<Action>)
    requires Runs(s, run) && s.row.Stored?
    ensures After(s, run).row == s.row
  {
    if run != [] { RowWrittenOnce(s, run[..|run| - 1]); }
  }

  /** Whoever returns, in any interleaving, returns what was inserted first, provided that is not
      null; if it is null, each returns the result of its own body. */
  lemma AnswersAreFirstInserted(run: seq<Action>, c: nat)
    requires Runs(INITIAL, run) && c < |After(INITIAL, run).callers|
    requires After(INITIAL, run).callers[c].phase.Returned?
    ensures var s := After(INITIAL, run);
            && s.row.Stored?
            && s.callers[c].phase.answer == if s.row.result.Some? then s.row.result else s.callers[c].own
  {
    AlwaysFits(run);
    assert CallerFits(After(INITIAL, run).row, After(INITIAL, run).callers[c]);
  }

  /** A caller whose body resolved to this result and that has gone past its insert. */
  ghost predicate Gave(c: Caller, result: Option<Value>) {
    c.ran && c.own == result && (c.phase.Rereading? || c.phase.Returned? || c.phase.Failed?)
  }

  /** What was stored is the result of the body of a caller that ran it. */
  ghost predicate StoredByACaller(s: State) {
    s.row.Stored? ==> exists c | 0 <= c < |s.callers| :: Gave(s.callers[c], s.row.result)
  }

  lemma {:induction false} StoredIsSomeBody(run: seq<Action>)
    requires Runs(INITIAL, run)
    ensures StoredByACaller(After(INITIAL, run))
  {
    if run != [] {
      var front, a := run[..|run| - 1], run[|run| - 1];
      StoredIsSomeBody(front);
      AlwaysFits(front);
      StoredStep(After(INITIAL, front), a);
    }
  }

  lemma StoredStep(s: State, a: Action)
    requires StoredByACaller(s) && Fits(s) && Enabled(s, a)
    ensures StoredByACaller(Do(s, a))
  {
    var t := Do(s, a);
    if s.row.Stored? {
      var c :| 0 <= c < |s.callers| && Gave(s.callers[c], s.row.result);
      assert Gave(t.callers[c], t.row.result);
    } else if t.row.Stored? {
      assert CallerFits(s.row, s.callers[a.c]);
      assert Gave(t.callers[a.c], t.row.result);
    }
  }

  // ----- How often the body runs -----

  /** A caller that starts once a non-null result is stored never runs its body. */
  lemma {:induction false} LateCallerNeverRuns(s: State, run: seq<Action>, c: nat)
    requires Runs(s, run) && s.row.Stored? && s.row.result.Some?
    requires |s.callers| <= c < |After(s, run).callers|
    ensures !After(s, run).callers[c].ran && !After(s, run).callers[c].phase.Running?
    ensures After(s, run).callers[c].phase.Returned? ==> After(s, run).callers[c].phase.answer == s.row.result
  {
    var front, a := run[..|run| - 1], run[|run| - 1];
    RowWrittenOnce(s, front);
    if c < |After(s, front).callers| {
      LateCallerNeverRuns(s, front, c);
      LateCallerPhase(s, front, c);
    }
  }

  lemma {:induction false} LateCallerPhase(s: State, run: seq<Action>, c: nat)
    requires Runs(s, run) && s.row.Stored? && s.row.result.Some?
    requires |s.callers| <= c < |After(s, run).callers|
    ensures var phase := After(s, run).callers[c].phase; phase.Reading? || phase.Returned? || phase.Failed?
  {
    var front := run[..|run| - 1];
    RowWrittenOnce(s, front);
    if c < |After(s, front).callers| { LateCallerPhase(s, front, c); }
  }

  predicate Over(c: Caller) {
    c.phase.Returned? || c.phase.Failed?
  }

  ghost predicate AllOver(s: State) {
    forall c | 0 <= c < |s.callers| :: Over(s.callers[c])
  }

  /** No caller starts before the earlier ones are over. */
  ghost predicate Sequential(run: seq<Action>)
    requires Runs(INITIAL, run)
    decreases |run|
  {
    run != [] ==>
      && Sequential(run[..|run| - 1])
      && (run[|run| - 1].Start? ==> AllOver(After(INITIAL, run[..|run| - 1])))
  }

  ghost predicate NoNulls(run: seq<Action>) {
    forall i | 0 <= i < |run| && run[i].BodyResolves? :: run[i].result.Some?
  }

  /** All callers but the last are over; after one returned, no later one has run its body. */
  ghost predicate InTurn(s: State) {
    && (forall c | 0 <= c < |s.callers| - 1 :: Over(s.callers[c]))
    && (forall c, d | 0 <= c < d < |s.callers| && s.callers[c].phase.Returned? ::
          !s.callers[d].ran && Quiet(s.callers[d]))
  }

  ghost predicate Quiet(c: Caller) {
    c.phase.Reading? || Over(c)
  }

  ghost predicate NonNull(s: State) {
    && (s.row.Stored? ==> s.row.result.Some?)
    && forall c | 0 <= c < |s.callers| && s.callers[c].phase.Inserting? :: s.callers[c].phase.result.Some?
  }

  lemma {:induction false} AlwaysNonNull(run: seq<Action>)
    requires Runs(INITIAL, run) && NoNulls(run)
    ensures NonNull(After(INITIAL, run))
  {
    if run != [] { AlwaysNonNull(run[..|run| - 1]); }
  }

  /** Without nulls all callers that finish return one and the same value. */
  lemma AllAgree(run: seq<Action>, c: nat, d: nat)
    requires Runs(INITIAL, run) && NoNulls(run)
    requires c < |After(INITIAL, run).callers| && d < |After(INITIAL, run).callers|
    requires After(INITIAL, run).callers[c].phase.Returned? && After(INITIAL, run).callers[d].phase.Returned?
    ensures After(INITIAL, run).callers[c].phase.answer == After(INITIAL, run).callers[d].phase.answer
    ensures After(INITIAL, run).callers[c].phase.answer.Some?
  {
    AnswersAreFirstInserted(run, c);
    AnswersAreFirstInserted(run, d);
    AlwaysNonNull(run);
  }

  lemma InTurnStep(s: State, a: Action)
    requires InTurn(s) && Fits(s) && NonNull(s) && Enabled(s, a)
    requires a.Start? ==> AllOver(s)
    ensures InTurn(Do(s, a))
  {
    if !a.Start? {
      assert a.c == |s.callers| - 1;
      if a.Read? {
        forall c | 0 <= c < a.c && s.callers[c].phase.Returned? ensures s.row.Stored? && s.row.result.Some? {
          assert CallerFits(s.row, s.callers[c]);
        }
      }
    }
  }

  lemma {:induction false} AlwaysInTurn(run: seq<Action>)
    requires Runs(INITIAL, run) && Sequential(run) && NoNulls(run)
    ensures InTurn(After(INITIAL, run))
  {
    if run != [] {
      var front := run[..|run| - 1];
      AlwaysInTurn(front);
      AlwaysFits(front);
      AlwaysNonNull(front);
      InTurnStep(After(INITIAL, front), run[|run| - 1]);
    }
  }

  /** Callers that do not overlap and get no null run the body at most once in total, but for
      callers that failed: of two callers that ran it, the earlier one failed. */
  lemma SequentialRunsOnce(run: seq<Action>, c: nat, d: nat)
    requires Runs(INITIAL, run) && Sequential(run) && NoNulls(run)
    requires c < d < |After(INITIAL, run).callers|
    requires After(INITIAL, run).callers[c].ran && After(INITIAL, run).callers[d].ran
    ensures After(INITIAL, run).callers[c].phase.Failed?
  {
    AlwaysInTurn(run);
    assert Over(After(INITIAL, run).callers[c]);
  }

  // ----- Where the promise ends -----

  ghost predicate Reaches(s: State, run: seq<Action>, t: State) {
    Runs(s, run) && After(s, run) == t
  }

  lemma Then(s: State, run: seq<Action>, t: State, a: Action)
    requires Reaches(s, run, t) && Enabled(t, a)
    ensures Reaches(s, run + [a], Do(t, a))
  {
    assert (run + [a])[..|run|] == run;
  }

  /** No caller that starts from here on ever runs its body. */
  ghost predicate NeverRunsAgain(s: State) {
    forall more, c | Runs(s, more) && |s.callers| <= c < |After(s, more).callers| :: !After(s, more).callers[c].ran
  }

  /** Exactly when the body is not run again, whatever the callers so far are doing: a result
      other than null is stored. */
  lemma RunsAgainExactly(s: State)
    ensures NeverRunsAgain(s) <==> s.row.Stored? && s.row.result.Some?
  {
    if s.row.Stored? && s.row.result.Some? {
      forall more, c | Runs(s, more) && |s.callers| <= c < |After(s, more).callers|
        ensures !After(s, more).callers[c].ran
      {
        LateCallerNeverRuns(s, more, c);
      }
    } else {
      var c := |s.callers|;
      assert Reaches(s, [], s);
      Then(s, [], s, Start);
      Then(s, [] + [Start], Do(s, Start), Read(c));
      var more := [] + [Start] + [Read(c)];
      assert After(s, more).callers[c].ran;
    }
  }

  /** One caller from start to finish without a pause. */
  function Whole(c: nat, result: Option<Value>): seq<Action> {
    [Start] + [Read(c)] + [BodyResolves(c, result)] + [Insert(c)] + [Reread(c)]
  }

  lemma WholeFrom(s: State, run: seq<Action>, t: State, result: Option<Value>)
    requires Reaches(s, run, t) && (t.row.Absent? || t.row.result.None?)
    ensures var c := |t.callers|;
            var row := if t.row.Absent? then Stored(result) else t.row;
            var caller := Caller(Returned(OrElse(row, result)), true, result);
            Reaches(s, run + Whole(c, result), State(row, t.callers + [caller]))
  {
    var c := |t.callers|;
    var t1 := Do(t, Start);
    Then(s, run, t, Start);
    var r1 := run + [Start];
    var t2 := Do(t1, Read(c));
    Then(s, r1, t1, Read(c));
    var r2 := r1 + [Read(c)];
    var t3 := Do(t2, BodyResolves(c, result));
    Then(s, r2, t2, BodyResolves(c, result));
    var r3 := r2 + [BodyResolves(c, result)];
    var t4 := Do(t3, Insert(c));
    Then(s, r3, t3, Insert(c));
    var r4 := r3 + [Insert(c)];
    Then(s, r4, t4, Reread(c));
    assert r4 + [Reread(c)] == run + Whole(c, result);
    var row := if t.row.Absent? then Stored(result) else t.row;
    assert Do(t4, Reread(c)).callers == t.callers + [Caller(Returned(OrElse(row, result)), true, result)];
  }

  /** A null result voids the key: one caller after another runs the body and keeps its own
      answer. */
  lemma NullIsNotRemembered(v: Option<Value>)
    ensures Reaches(INITIAL, Whole(0, None) + Whole(1, v),
                    State(Stored(None), [Caller(Returned(None), true, None), Caller(Returned(v), true, v)]))
  {
    WholeFrom(INITIAL, [], INITIAL, None);
    assert [] + Whole(0, None) == Whole(0, None);
    WholeFrom(INITIAL, Whole(0, None), State(Stored(None), [Caller(Returned(None), true, None)]), v);
  }

  /** Two callers that overlap both run the body, and the second gets the first one's answer. */
  lemma OverlapRunsTwice(v: Value, w: Value) returns (run: seq<Action>)
    ensures Reaches(INITIAL, run, State(Stored(Some(v)), [Caller(Returned(Some(v)), true, Some(v)),
                                                          Caller(Returned(Some(v)), true, Some(w))]))
  {
    run := [];
    var s := INITIAL;
    Then(INITIAL, run, s, Start);
    run, s := run + [Start], Do(s, Start);
    Then(INITIAL, run, s, Start);
    run, s := run + [Start], Do(s, Start);
    Then(INITIAL, run, s, Read(0));
    run, s := run + [Read(0)], Do(s, Read(0));
    Then(INITIAL, run, s, Read(1));
    run, s := run + [Read(1)], Do(s, Read(1));
    run, s := Overlapped(run, s, v, w);
  }

  lemma Overlapped(run: seq<Action>, s: State, v: Value, w: Value) returns (all: seq<Action>, t: State)
    requires Reaches(INITIAL, run, s)
    requires s == State(Absent, [Caller(Running, true, None), Caller(Running, true, None)])
    ensures Reaches(INITIAL, all, t)
    ensures t == State(Stored(Some(v)),
                       [Caller(Returned(Some(v)), true, Some(v)), Caller(Returned(Some(v)), true, Some(w))])
  {
    all, t := run, s;
    Then(INITIAL, all, t, BodyResolves(0, Some(v)));
    all, t := all + [BodyResolves(0, Some(v))], Do(t, BodyResolves(0, Some(v)));
    Then(INITIAL, all, t, BodyResolves(1, Some(w)));
    all, t := all + [BodyResolves(1, Some(w))], Do(t, BodyResolves(1, Some(w)));
    Then(INITIAL, all, t, Insert(0));
    all, t := all + [Insert(0)], Do(t, Insert(0));
    Then(INITIAL, all, t, Insert(1));
    all, t := all + [Insert(1)], Do(t, Insert(1));
    Then(INITIAL, all, t, Reread(0));
    all, t := all + [Reread(0)], Do(t, Reread(0));
    Then(INITIAL, all, t, Reread(1));
    all, t := all + [Reread(1)], Do(t, Reread(1));
  }

  /** A caller that dies after its body and before its insert leaves no trace: the next one runs
      the body again. */
  lemma DeathRunsAgain(v: Value, w: Value) returns (run: seq<Action>)
    ensures Reaches(INITIAL, run, State(Stored(Some(w)), [Caller(Failed, true, Some(v)),
                                                          Caller(Returned(Some(w)), true, Some(w))]))
  {
    run := [];
    var s := INITIAL;
    Then(INITIAL, run, s, Start);
    run, s := run + [Start], Do(s, Start);
    Then(INITIAL, run, s, Read(0));
    run, s := run + [Read(0)], Do(s, Read(0));
    Then(INITIAL, run, s, BodyResolves(0, Some(v)));
    run, s := run + [BodyResolves(0, Some(v))], Do(s, BodyResolves(0, Some(v)));
    Then(INITIAL, run, s, Fail(0));
    run, s := run + [Fail(0)], Do(s, Fail(0));
    WholeFrom(INITIAL, run, s, Some(w));
    run := run + Whole(1, Some(w));
  }

  // ----- The source's function and its table -----

  class Table {
    var rows: map<Text, Option<Value>>

    function RowOf(key: Text): Row
      reads this
    {
      if key in rows then Stored(rows[key]) else Absent
    }

    constructor ()
      ensures rows == map[]
    {
      rows := map[];
    }

    /** `insert … onConflictDoNothing` */
    method InsertIfAbsent(key: Text, result: Option<Value>)
      modifies this
      ensures rows == if key in old(rows) then old(rows) else old(rows)[key := result]
    {
      if key !in rows { rows := rows[key := result]; }
    }
  }

  /** One call with nobody in between. `body` is None if it rejects; `ran` says whether it ran. */
  method WithIdempotency(db: Table, key: Text, body: Option<Option<Value>>)
    returns (answer: Option<Option<Value>>, ran: bool)
    modifies db
    ensures ran <==> !(key in old(db.rows) && old(db.rows)[key].Some?)
    ensures answer == if !ran then Some(old(db.rows)[key])
                      else if body.None? then None
                      else if key in old(db.rows) && old(db.rows)[key].Some? then Some(old(db.rows)[key])
                      else Some(body.value)
    ensures db.rows == if ran && body.Some? && key !in old(db.rows) then old(db.rows)[key := body.value]
                       else old(db.rows)
  {
    if key in db.rows && db.rows[key].Some? { return Some(db.rows[key]), false; }
    ran := true;
    if body.None? { return None, true; }
    var result := body.value;
    db.InsertIfAbsent(key, result);
    answer := Some(if key in db.rows && db.rows[key].Some? then db.rows[key] else result);
  }
}
