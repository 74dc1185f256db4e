/** The tasks a conversation has shown, kept newest first: merge, stored form, references. */
module RecentTasks {
  import opened Options
  import opened JsText

  /** Times are milliseconds; their ISO form sorts alike. */
  datatype RecentTask = RecentTask(taskId: Text, title: Text, lastSeenAt: nat)

  datatype Shown = Shown(taskId: Text, title: Text)

  const MAX_TASKS := 10
  const MAX_REJECTED := 20

  // ----- The merge -----

  /** `incomingIdx.get(id) ?? Infinity`: the last place of an id in the batch, or past its end. */
  function Rank(incoming: seq<Shown>, id: Text): (k: nat)
    ensures k <= |incoming|
    ensures k < |incoming| ==> incoming[k].taskId == id
    ensures forall j | 0 <= j < |incoming| && incoming[j].taskId == id :: j <= k < |incoming|
  {
    if incoming == [] then 0
    else if incoming[|incoming| - 1].taskId == id then |incoming| - 1
    else var k := Rank(incoming[..|incoming| - 1], id); if k < |incoming| - 1 then k else |incoming|
  }

  function IndexOf(tasks: seq<RecentTask>, id: Text): (k: nat)
    ensures k <= |tasks|
    ensures k < |tasks| ==> tasks[k].taskId == id
    ensures forall j | 0 <= j < k :: tasks[j].taskId != id
  {
    if tasks == [] || tasks[0].taskId == id then 0 else 1 + IndexOf(tasks[1..], id)
  }

  /** `byId.set`: a known id keeps its place. */
  function MapSet(tasks: seq<RecentTask>, t: RecentTask): seq<RecentTask> {
    var k := IndexOf(tasks, t.taskId);
    if k < |tasks| then tasks[k := t] else tasks + [t]
  }

  function Stamp(x: Shown, now: nat): RecentTask {
    RecentTask(x.taskId, x.title, now)
  }

  /** The map after the stored tasks. */
  function Known(existing: seq<RecentTask>): seq<RecentTask> {
    if existing == [] then [] else MapSet(Known(existing[..|existing| - 1]), existing[|existing| - 1])
  }

  /** The map after the stored tasks and the batch. */
  function ById(existing: seq<RecentTask>, incoming: seq<Shown>, now: nat): seq<RecentTask> {
    if incoming == [] then Known(existing)
    else MapSet(ById(existing, incoming[..|incoming| - 1], now), Stamp(incoming[|incoming| - 1], now))
  }

  /** `comparator(a, b) <= 0` */
  predicate Before(incoming: seq<Shown>, a: RecentTask, b: RecentTask) {
    a.lastSeenAt > b.lastSeenAt
    || (a.lastSeenAt == b.lastSeenAt && Rank(incoming, a.taskId) <= Rank(incoming, b.taskId))
  }

  /** A stable sort: an element goes behind those the comparator does not tell apart from it. */
  function InsertTask(incoming: seq<Shown>, s: seq<RecentTask>, x: RecentTask): (r: seq<RecentTask>)
    ensures multiset(r) == multiset(s) + multiset{x}
  {
    if s == [] || Before(incoming, s[|s| - 1], x) then s + [x]
    else
      assert s == s[..|s| - 1] + [s[|s| - 1]];
      InsertTask(incoming, s[..|s| - 1], x) + [s[|s| - 1]]
  }

  function SortTasks(incoming: seq<Shown>, s: seq<RecentTask>): (r: seq<RecentTask>)
    ensures multiset(r) == multiset(s)
  {
    if s == [] then []
    else
      assert s == s[..|s| - 1] + [s[|s| - 1]];
      InsertTask(incoming, SortTasks(incoming, s[..|s| - 1]), s[|s| - 1])
  }

  function Cut(s: seq<RecentTask>): seq<RecentTask> {
    if |s| <= MAX_TASKS then s else s[..MAX_TASKS]
  }

  function Merged(existing: seq<RecentTask>, incoming: seq<Shown>, now: nat): seq<RecentTask> {
    Cut(SortTasks(incoming, ById(existing, incoming, now)))
  }

  method MergeRecentTasks(existing: seq<RecentTask>, incoming: seq<Shown>, now: nat) returns (r: seq<RecentTask>)
    ensures r == Merged(existing, incoming, now)
  {
    var byId: seq<RecentTask> := [];
    for i := 0 to |existing|
      invariant byId == Known(existing[..i])
    {
      assert existing[..i + 1][..i] == existing[..i];
      byId := MapSet(byId, existing[i]);
    }
    assert existing[..|existing|] == existing;
    for i := 0 to |incoming|
      invariant byId == ById(existing, incoming[..i], now)
    {
      assert incoming[..i + 1][..i] == incoming[..i];
      byId := MapSet(byId, RecentTask(incoming[i].taskId, incoming[i].title, now));
    }
    assert incoming[..|incoming|] == incoming;
    r := SortTasks(incoming, byId);
    if |r| > MAX_TASKS { r := r[..MAX_TASKS]; }
  }

  ghost predicate DistinctIds(s: seq<RecentTask>) {
    forall i, j | 0 <= i < j < |s| :: s[i].taskId != s[j].taskId
  }

  ghost predicate SortedTasks(incoming: seq<Shown>, s: seq<RecentTask>) {
    forall i, j | 0 <= i < j < |s| :: Before(incoming, s[i], s[j])
  }

  ghost predicate NewestFirst(s: seq<RecentTask>) {
    forall i, j | 0 <= i < j < |s| :: s[i].lastSeenAt >= s[j].lastSeenAt
  }

  lemma {:induction false} InsertSorts(incoming: seq<Shown>, s: seq<RecentTask>, x: RecentTask)
    requires SortedTasks(incoming, s)
    ensures SortedTasks(incoming, InsertTask(incoming, s, x))
  {
    if s != [] && !Before(incoming, s[|s| - 1], x) {
      var front, last := s[..|s| - 1], s[|s| - 1];
      InsertSorts(incoming, front, x);
      var r := InsertTask(incoming, front, x);
      forall i | 0 <= i < |r| ensures Before(incoming, r[i], last) {
        assert r[i] in multiset(r);
        assert r[i] == x || r[i] in front;
      }
    }
  }

  lemma {:induction false} SortSorts(incoming: seq<Shown>, s: seq<RecentTask>)
    ensures SortedTasks(incoming, SortTasks(incoming, s))
  {
    if s != [] {
      SortSorts(incoming, s[..|s| - 1]);
      InsertSorts(incoming, SortTasks(incoming, s[..|s| - 1]), s[|s| - 1]);
    }
  }

  lemma MapSetDistinct(s: seq<RecentTask>, t: RecentTask)
    requires DistinctIds(s)
    ensures DistinctIds(MapSet(s, t))
  {
  }

  lemma {:induction false} KnownDistinct(existing: seq<RecentTask>)
    ensures DistinctIds(Known(existing))
  {
    if existing != [] {
      KnownDistinct(existing[..|existing| - 1]);
      MapSetDistinct(Known(existing[..|existing| - 1]), existing[|existing| - 1]);
    }
  }

  lemma {:induction false} ByIdDistinct(existing: seq<RecentTask>, incoming: seq<Shown>, now: nat)
    ensures DistinctIds(ById(existing, incoming, now))
  {
    KnownDistinct(existing);
    if incoming != [] {
      var front := incoming[..|incoming| - 1];
      ByIdDistinct(existing, front, now);
      MapSetDistinct(ById(existing, front, now), Stamp(incoming[|incoming| - 1], now));
    }
  }

  /** Ids of a permutation of a list with distinct ids are distinct. */
  lemma DistinctPermutation(a: seq<RecentTask>, b: seq<RecentTask>)
    requires DistinctIds(a) && multiset(a) == multiset(b)
    ensures DistinctIds(b)
  {
    forall i, j | 0 <= i < j < |b| ensures b[i].taskId != b[j].taskId {
      if b[i].taskId == b[j].taskId {
        assert b[i] in multiset(b) && b[j] in multiset(b);
        assert b[i] in a && b[j] in a;
        assert b[i] == b[j];
        MultiplicityTwo(b, i, j);
        MultiplicityOne(a, b[i]);
      }
    }
  }

  /** Every merge gives at most ten tasks with distinct ids, newest first, whatever was stored. */
  lemma MergeShape(existing: seq<RecentTask>, incoming: seq<Shown>, now: nat)
    ensures |Merged(existing, incoming, now)| <= 10
    ensures DistinctIds(Merged(existing, incoming, now)) && NewestFirst(Merged(existing, incoming, now))
  {
    var all := ById(existing, incoming, now);
    ByIdDistinct(existing, incoming, now);
    SortSorts(incoming, all);
    DistinctPermutation(all, SortTasks(incoming, all));
  }

  ghost predicate DistinctShown(s: seq<Shown>) {
    forall i, j | 0 <= i < j < |s| :: s[i].taskId != s[j].taskId
  }

  ghost predicate NotAfter(s: seq<RecentTask>, now: nat) {
    forall t | t in s :: t.lastSeenAt <= now
  }

  lemma MapSetMembers(s: seq<RecentTask>, t: RecentTask, x: RecentTask)
    requires DistinctIds(s) && x in MapSet(s, t)
    ensures x == t || (x in s && x.taskId != t.taskId)
  {
  }

  lemma {:induction false} KnownMembers(existing: seq<RecentTask>, x: RecentTask)
    requires x in Known(existing)
    ensures x in existing
  {
    var front := existing[..|existing| - 1];
    KnownDistinct(front);
    MapSetMembers(Known(front), existing[|existing| - 1], x);
    if x in Known(front) { KnownMembers(front, x); }
  }

  /** The batch has no task of this id. */
  ghost predicate NotShown(incoming: seq<Shown>, id: Text) {
    forall k | 0 <= k < |incoming| :: incoming[k].taskId != id
  }

  /** Each entry of the map is a stored task the batch does not show, or one of the batch,
      stamped now. */
  lemma {:induction false} ByIdMembers(existing: seq<RecentTask>, incoming: seq<Shown>, now: nat, x: RecentTask)
    requires x in ById(existing, incoming, now)
    ensures (x in Known(existing) && NotShown(incoming, x.taskId))
            || exists k | 0 <= k < |incoming| :: x == Stamp(incoming[k], now)
  {
    if incoming != [] {
      var n := |incoming| - 1;
      var front, t := incoming[..n], Stamp(incoming[n], now);
      ByIdDistinct(existing, front, now);
      MapSetMembers(ById(existing, front, now), t, x);
      if x == t {
        assert x == Stamp(incoming[n], now);
      } else {
        ByIdMembers(existing, front, now, x);
        if k :| 0 <= k < |front| && x == Stamp(front[k], now) { assert x == Stamp(incoming[k], now); }
      }
    }
  }

  /** A stored task the batch does not show stays in the map. */
  lemma {:induction false} ByIdKeeps(existing: seq<RecentTask>, incoming: seq<Shown>, now: nat, x: RecentTask)
    requires x in Known(existing) && NotShown(incoming, x.taskId)
    ensures x in ById(existing, incoming, now)
  {
    if incoming != [] {
      var n := |incoming| - 1;
      ByIdKeeps(existing, incoming[..n], now, x);
      MapSetHas(ById(existing, incoming[..n], now), Stamp(incoming[n], now), x);
    }
  }

  lemma MapSetHas(s: seq<RecentTask>, t: RecentTask, x: RecentTask)
    requires x == t || (x in s && x.taskId != t.taskId)
    ensures x in MapSet(s, t)
  {
    if x == t {
      var k := IndexOf(s, t.taskId);
      assert MapSet(s, t)[k] == t;
    } else {
      var i :| 0 <= i < |s| && s[i] == x;
      assert MapSet(s, t)[i] == x;
    }
  }

  /** A batch of distinct tasks is in the map, stamped now. */
  lemma {:induction false} ByIdHasBatch(existing: seq<RecentTask>, incoming: seq<Shown>, now: nat, k: nat)
    requires DistinctShown(incoming) && k < |incoming|
    ensures Stamp(incoming[k], now) in ById(existing, incoming, now)
  {
    var n := |incoming| - 1;
    var front := incoming[..n];
    if k < n { ByIdHasBatch(existing, front, now, k); }
    MapSetHas(ById(existing, front, now), Stamp(incoming[n], now), Stamp(incoming[k], now));
  }

  /** No stored task that the batch does not show is later than now. */
  ghost predicate NoneLater(existing: seq<RecentTask>, incoming: seq<Shown>, now: nat) {
    forall t | t in Known(existing) && NotShown(incoming, t.taskId) :: t.lastSeenAt <= now
  }

  /** The stored tasks the batch does not show that are later than now. */
  ghost function Later(existing: seq<RecentTask>, incoming: seq<Shown>, now: nat): set<RecentTask> {
    set x | x in Known(existing) && NotShown(incoming, x.taskId) && x.lastSeenAt > now
  }

  ghost predicate HoldsBatch(incoming: seq<Shown>, s: seq<RecentTask>, now: nat) {
    forall k: nat | k < |incoming| :: Stamp(incoming[k], now) in s
  }

  /** A sorted list without later tasks starts with the batch it holds, in its order. */
  lemma {:induction false} SortedBatch(incoming: seq<Shown>, s: seq<RecentTask>, now: nat, i: nat)
    requires DistinctShown(incoming) && DistinctIds(s) && SortedTasks(incoming, s) && NotAfter(s, now)
    requires i < |incoming| && HoldsBatch(incoming, s, now)
    ensures i < |s| && s[i] == Stamp(incoming[i], now)
  {
    var mine := Stamp(incoming[i], now);
    assert mine in s;
    var p: nat :| p < |s| && s[p] == mine;
    forall j: nat | j < i ensures j < |s| && s[j] == Stamp(incoming[j], now) {
      SortedBatch(incoming, s, now, j);
    }
    PlaceOf(incoming, s, now, i, p);
  }

  /** How many tasks at the front are later than now. */
  function LaterFront(s: seq<RecentTask>, now: nat): (p: nat)
    ensures p <= |s|
    ensures forall i | 0 <= i < p :: s[i].lastSeenAt > now
    ensures p < |s| ==> s[p].lastSeenAt <= now
  {
    if s == [] || s[0].lastSeenAt <= now then 0 else 1 + LaterFront(s[1..], now)
  }

  lemma {:induction false} DistinctSize(s: seq<RecentTask>)
    requires DistinctIds(s)
    ensures |set x | x in s| == |s|
  {
    if s == [] {
      assert (set x | x in s) == {};
    } else {
      var n := |s| - 1;
      DistinctSize(s[..n]);
      assert s == s[..n] + [s[n]];
      assert (set x | x in s) == (set x | x in s[..n]) + {s[n]};
    }
  }

  /** The later stored tasks are the front of the sorted map. */
  lemma LaterInFront(existing: seq<RecentTask>, incoming: seq<Shown>, now: nat)
    ensures var s := SortTasks(incoming, ById(existing, incoming, now));
            |Later(existing, incoming, now)| == LaterFront(s, now)
  {
    var all := ById(existing, incoming, now);
    var s := SortTasks(incoming, all);
    var front := s[..LaterFront(s, now)];
    SortSorts(incoming, all);
    ByIdDistinct(existing, incoming, now);
    DistinctPermutation(all, s);
    forall x ensures x in front <==> x in Later(existing, incoming, now) {
      assert x in s <==> x in multiset(s);
      if x in front {
        ByIdMembers(existing, incoming, now, x);
      } else if x in Later(existing, incoming, now) {
        ByIdKeeps(existing, incoming, now, x);
        LaterIsFront(incoming, s, now, x);
      }
    }
    assert Later(existing, incoming, now) == set x | x in front;
    DistinctSize(front);
  }

  lemma LaterIsFront(incoming: seq<Shown>, s: seq<RecentTask>, now: nat, x: RecentTask)
    requires SortedTasks(incoming, s) && x in s && x.lastSeenAt > now
    ensures x in s[..LaterFront(s, now)]
  {
    var p := LaterFront(s, now);
    NothingLaterBehind(incoming, s, now);
    assert x !in s[p..];
    assert s == s[..p] + s[p..];
  }

  lemma SortHas(incoming: seq<Shown>, all: seq<RecentTask>, x: RecentTask)
    ensures x in SortTasks(incoming, all) <==> x in all
  {
    assert x in SortTasks(incoming, all) <==> x in multiset(SortTasks(incoming, all));
    assert x in all <==> x in multiset(all);
  }

  lemma SortedMap(existing: seq<RecentTask>, incoming: seq<Shown>, now: nat)
    ensures var s := SortTasks(incoming, ById(existing, incoming, now));
            DistinctIds(s) && SortedTasks(incoming, s)
  {
    var all := ById(existing, incoming, now);
    SortSorts(incoming, all);
    ByIdDistinct(existing, incoming, now);
    DistinctPermutation(all, SortTasks(incoming, all));
  }

  lemma MapHoldsBatch(existing: seq<RecentTask>, incoming: seq<Shown>, now: nat)
    requires DistinctShown(incoming)
    ensures HoldsBatch(incoming, SortTasks(incoming, ById(existing, incoming, now)), now)
  {
    var all := ById(existing, incoming, now);
    forall k: nat | k < |incoming| ensures Stamp(incoming[k], now) in SortTasks(incoming, all) {
      ByIdHasBatch(existing, incoming, now, k);
      SortHas(incoming, all, Stamp(incoming[k], now));
    }
  }

  /** Task i of the batch has its place behind the later tasks. */
  predicate BatchAt(incoming: seq<Shown>, s: seq<RecentTask>, now: nat, i: nat)
    requires i < |incoming|
  {
    LaterFront(s, now) + i < |s| && s[LaterFront(s, now) + i] == Stamp(incoming[i], now)
  }

  ghost predicate Arranged(incoming: seq<Shown>, s: seq<RecentTask>, now: nat) {
    DistinctIds(s) && SortedTasks(incoming, s) && HoldsBatch(incoming, s, now)
  }

  lemma MapArranged(existing: seq<RecentTask>, incoming: seq<Shown>, now: nat)
    requires DistinctShown(incoming)
    ensures Arranged(incoming, SortTasks(incoming, ById(existing, incoming, now)), now)
  {
    SortedMap(existing, incoming, now);
    MapHoldsBatch(existing, incoming, now);
  }

  lemma BatchBehindLater(incoming: seq<Shown>, s: seq<RecentTask>, now: nat, i: nat)
    requires DistinctShown(incoming) && Arranged(incoming, s, now) && i < |incoming|
    ensures BatchAt(incoming, s, now, i)
  {
    var p := LaterFront(s, now);
    var rest := s[p..];
    assert s == s[..p] + rest;
    NothingLaterBehind(incoming, s, now);
    forall k: nat | k < |incoming| ensures Stamp(incoming[k], now) in rest {
      assert Stamp(incoming[k], now) in s && Stamp(incoming[k], now) !in s[..p];
    }
    SortedBatch(incoming, rest, now, i);
  }

  /** The batch follows the later stored tasks, in its own order. */
  lemma BatchPlace(existing: seq<RecentTask>, incoming: seq<Shown>, now: nat, i: nat)
    requires DistinctShown(incoming) && i < |incoming|
    ensures BatchAt(incoming, SortTasks(incoming, ById(existing, incoming, now)), now, i)
  {
    MapArranged(existing, incoming, now);
    BatchBehindLater(incoming, SortTasks(incoming, ById(existing, incoming, now)), now, i);
  }

  lemma NothingLaterBehind(incoming: seq<Shown>, s: seq<RecentTask>, now: nat)
    requires SortedTasks(incoming, s)
    ensures NotAfter(s[LaterFront(s, now)..], now)
  {
    var p := LaterFront(s, now);
    forall j | p <= j < |s| ensures s[j].lastSeenAt <= now {
      if p < j { assert Before(incoming, s[p], s[j]); }
    }
  }

  lemma NoneInFront(existing: seq<RecentTask>, incoming: seq<Shown>, now: nat)
    requires NoneLater(existing, incoming, now)
    ensures LaterFront(SortTasks(incoming, ById(existing, incoming, now)), now) == 0
  {
    assert Later(existing, incoming, now) == {};
    LaterInFront(existing, incoming, now);
  }

  predicate FrontAt(incoming: seq<Shown>, s: seq<RecentTask>, now: nat, i: nat)
    requires i < |incoming|
  {
    i < |s| && s[i] == Stamp(incoming[i], now)
  }

  lemma AtFront(incoming: seq<Shown>, s: seq<RecentTask>, now: nat, i: nat)
    requires i < |incoming| && BatchAt(incoming, s, now, i) && LaterFront(s, now) == 0
    ensures FrontAt(incoming, s, now, i)
  {
  }

  lemma FrontStays(incoming: seq<Shown>, s: seq<RecentTask>, now: nat, i: nat)
    requires i < |incoming| && i < MAX_TASKS && FrontAt(incoming, s, now, i)
    ensures FrontAt(incoming, Cut(s), now, i)
  {
  }

  /** Without such tasks the sorted map starts with the batch. */
  lemma BatchLeads(existing: seq<RecentTask>, incoming: seq<Shown>, now: nat, i: nat)
    requires DistinctShown(incoming) && NoneLater(existing, incoming, now) && i < |incoming|
    ensures FrontAt(incoming, SortTasks(incoming, ById(existing, incoming, now)), now, i)
  {
    NoneInFront(existing, incoming, now);
    BatchPlace(existing, incoming, now, i);
    AtFront(incoming, SortTasks(incoming, ById(existing, incoming, now)), now, i);
  }

  /** In a sorted list without later tasks that starts with part of the batch, the next of the
      batch is next. */
  lemma PlaceOf(incoming: seq<Shown>, s: seq<RecentTask>, now: nat, i: nat, p: nat)
    requires DistinctShown(incoming) && DistinctIds(s) && SortedTasks(incoming, s) && NotAfter(s, now)
    requires i < |incoming| && p < |s| && s[p] == Stamp(incoming[i], now)
    requires forall j: nat | j < i :: j < |s| && s[j] == Stamp(incoming[j], now)
    ensures p == i
  {
    assert p >= i;
    var x := s[i];
    assert x in s;
    assert Rank(incoming, s[p].taskId) == i;
    assert forall q | i < q < |s| :: Before(incoming, x, s[q]);
  }

  /** Showing a batch of distinct tasks at a time not before any stored one puts it first, in
      its own order, up to the ten kept. */
  lemma BatchComesFirst(existing: seq<RecentTask>, incoming: seq<Shown>, now: nat, i: nat)
    requires DistinctShown(incoming) && NotAfter(existing, now)
    requires i < |incoming| && i < MAX_TASKS
    ensures var r := Merged(existing, incoming, now);
            i < |r| && r[i] == Stamp(incoming[i], now)
  {
    NotAfterIsNoneLater(existing, incoming, now);
    BatchLeads(existing, incoming, now, i);
    FrontStays(incoming, SortTasks(incoming, ById(existing, incoming, now)), now, i);
  }

  lemma NotAfterIsNoneLater(existing: seq<RecentTask>, incoming: seq<Shown>, now: nat)
    requires NotAfter(existing, now)
    ensures NoneLater(existing, incoming, now)
  {
    forall t | t in Known(existing) ensures t.lastSeenAt <= now { KnownMembers(existing, t); }
  }

  /** Exactly when a batch comes first: no stored task it does not show is later than now. */
  lemma BatchComesFirstExactly(existing: seq<RecentTask>, incoming: seq<Shown>, now: nat)
    requires DistinctShown(incoming) && incoming != []
    ensures Leads(Merged(existing, incoming, now), incoming, now) <==> NoneLater(existing, incoming, now)
  {
    if NoneLater(existing, incoming, now) {
      BatchInFront(existing, incoming, now);
    } else {
      var t :| t in Known(existing) && NotShown(incoming, t.taskId) && t.lastSeenAt > now;
      ByIdKeeps(existing, incoming, now, t);
      LaterLeads(existing, incoming, now, t);
    }
  }

  /** The list starts with the batch, as far as it holds it. */
  ghost predicate Leads(r: seq<RecentTask>, incoming: seq<Shown>, now: nat) {
    forall i: nat | i < |incoming| && i < MAX_TASKS :: i < |r| && r[i] == Stamp(incoming[i], now)
  }

  lemma BatchInFront(existing: seq<RecentTask>, incoming: seq<Shown>, now: nat)
    requires DistinctShown(incoming) && NoneLater(existing, incoming, now)
    ensures Leads(Merged(existing, incoming, now), incoming, now)
  {
    var r := Merged(existing, incoming, now);
    forall i: nat | i < |incoming| && i < MAX_TASKS ensures i < |r| && r[i] == Stamp(incoming[i], now) {
      BatchLeads(existing, incoming, now, i);
      FrontStays(incoming, SortTasks(incoming, ById(existing, incoming, now)), now, i);
    }
  }

  lemma LaterLeads(existing: seq<RecentTask>, incoming: seq<Shown>, now: nat, t: RecentTask)
    requires t in ById(existing, incoming, now) && t.lastSeenAt > now
    ensures var r := Merged(existing, incoming, now); r != [] && r[0].lastSeenAt > now
  {
    var all := ById(existing, incoming, now);
    var s := SortTasks(incoming, all);
    SortSorts(incoming, all);
    assert t in multiset(s);
    var p: nat :| p < |s| && s[p] == t;
    assert p == 0 || Before(incoming, s[0], s[p]);
  }

  /** With the clock set back, a stored task stays in front of the batch. */
  lemma ClockBack()
    ensures Merged([RecentTask(Lit("a"), Lit("x"), 5)], [Shown(Lit("b"), Lit("y"))], 3)[0].taskId == Lit("a")
  {
    var old1, new1 := RecentTask(Lit("a"), Lit("x"), 5), RecentTask(Lit("b"), Lit("y"), 3);
    var incoming := [Shown(Lit("b"), Lit("y"))];
    assert Lit("a")[0] != Lit("b")[0];
    assert Known([old1]) == [old1];
    assert ById([old1], incoming, 3) == [old1, new1];
    assert SortTasks(incoming, [old1]) == [old1];
    assert [old1, new1][..1] == [old1];
    assert SortTasks(incoming, [old1, new1]) == [old1, new1];
  }

  // ----- The stored form -----

  datatype Pair = Pair(taskId: Text, userId: Text)

  datatype Entities = Entities(
    recentTasks: seq<RecentTask>,
    lastDiscussedTaskId: Option<Text>,
    lastProposedCandidateUserId: Option<Text>,
    pendingDecision: Option<Pair>,
    rejectedCandidates: seq<Pair>)

  const EMPTY := Entities([], None, None, None, [])

  /** The working memory column: nothing, text that does not parse as JSON, or JSON text. */
  datatype Raw = Missing | Malformed | Encoded(value: Entities)

  /** What the schema accepts; `uuid` is its notion of a UUID. */
  predicate ValidTask(uuid: Text -> bool, t: RecentTask) {
    uuid(t.taskId) && t.title != []
  }

  predicate ValidPair(uuid: Text -> bool, p: Pair) {
    uuid(p.taskId) && uuid(p.userId)
  }

  predicate ValidEntities(uuid: Text -> bool, e: Entities) {
    && |e.recentTasks| <= MAX_TASKS && (forall i | 0 <= i < |e.recentTasks| :: ValidTask(uuid, e.recentTasks[i]))
    && (e.lastDiscussedTaskId.Some? ==> uuid(e.lastDiscussedTaskId.value))
    && (e.lastProposedCandidateUserId.Some? ==> uuid(e.lastProposedCandidateUserId.value))
    && (e.pendingDecision.Some? ==> ValidPair(uuid, e.pendingDecision.value))
    && |e.rejectedCandidates| <= MAX_REJECTED
    && (forall i | 0 <= i < |e.rejectedCandidates| :: ValidPair(uuid, e.rejectedCandidates[i]))
  }

  function ParseEntities(uuid: Text -> bool, raw: Raw): Entities {
    if raw.Encoded? && ValidEntities(uuid, raw.value) then raw.value else EMPTY
  }

  function SerializeEntities(e: Entities): Raw {
    Encoded(e)
  }

  /** None means the patch leaves the field alone; the source's null is Some(None). */
  datatype Patch = Patch(
    recentTasks: Option<seq<Shown>>,
    lastDiscussedTaskId: Option<Option<Text>>,
    lastProposedCandidateUserId: Option<Option<Text>>,
    pendingDecision: Option<Option<Pair>>,
    rejectedCandidates: Option<seq<Pair>>)

  function OrKeep<T>(patch: Option<T>, current: T): T {
    if patch.Some? then patch.value else current
  }

  function MergeEntities(current: Entities, patch: Patch, now: nat): Entities {
    Entities(
      if patch.recentTasks.Some? then Merged(current.recentTasks, patch.recentTasks.value, now)
      else current.recentTasks,
      OrKeep(patch.lastDiscussedTaskId, current.lastDiscussedTaskId),
      OrKeep(patch.lastProposedCandidateUserId, current.lastProposedCandidateUserId),
      OrKeep(patch.pendingDecision, current.pendingDecision),
      OrKeep(patch.rejectedCandidates, current.rejectedCandidates))
  }

  /** One exposure: read, merge, write. */
  function Recorded(uuid: Text -> bool, raw: Raw, patch: Patch, now: nat): Raw {
    SerializeEntities(MergeEntities(ParseEntities(uuid, raw), patch, now))
  }

  /** A merge changes exactly the fields the patch has. */
  lemma MergeMeans(current: Entities, patch: Patch, now: nat)
    ensures var next := MergeEntities(current, patch, now);
            && (patch.recentTasks.None? ==> next.recentTasks == current.recentTasks)
            && (patch.recentTasks.Some? ==>
                  next.recentTasks == Merged(current.recentTasks, patch.recentTasks.value, now))
            && (if patch.lastDiscussedTaskId.Some? then next.lastDiscussedTaskId == patch.lastDiscussedTaskId.value
                else next.lastDiscussedTaskId == current.lastDiscussedTaskId)
            && (if patch.lastProposedCandidateUserId.Some?
                then next.lastProposedCandidateUserId == patch.lastProposedCandidateUserId.value
                else next.lastProposedCandidateUserId == current.lastProposedCandidateUserId)
            && (if patch.pendingDecision.Some? then next.pendingDecision == patch.pendingDecision.value
                else next.pendingDecision == current.pendingDecision)
            && (if patch.rejectedCandidates.Some? then next.rejectedCandidates == patch.rejectedCandidates.value
                else next.rejectedCandidates == current.rejectedCandidates)
  {
  }

  // ----- What can be read back -----

  predicate ValidId(uuid: Text -> bool, patch: Option<Option<Text>>) {
    patch.Some? && patch.value.Some? ==> uuid(patch.value.value)
  }

  /** The fields of a patch other than the tasks, as the schema wants them. */
  ghost predicate OthersValid(uuid: Text -> bool, p: Patch) {
    && ValidId(uuid, p.lastDiscussedTaskId)
    && ValidId(uuid, p.lastProposedCandidateUserId)
    && (p.pendingDecision.Some? && p.pendingDecision.value.Some? ==> ValidPair(uuid, p.pendingDecision.value.value))
    && (p.rejectedCandidates.Some? ==>
          && |p.rejectedCandidates.value| <= MAX_REJECTED
          && forall i | 0 <= i < |p.rejectedCandidates.value| :: ValidPair(uuid, p.rejectedCandidates.value[i]))
  }

  predicate ValidItem(uuid: Text -> bool, x: Shown) {
    uuid(x.taskId) && x.title != []
  }

  ghost predicate ValidShown(uuid: Text -> bool, s: seq<Shown>) {
    forall i | 0 <= i < |s| :: ValidItem(uuid, s[i])
  }

  /** The merge keeps entry k of the batch. */
  ghost predicate Kept(existing: seq<RecentTask>, incoming: seq<Shown>, now: nat, k: nat)
    requires k < |incoming|
  {
    Stamp(incoming[k], now) in Merged(existing, incoming, now)
  }

  /** The patch is valid but perhaps for tasks that the merge does not keep. */
  ghost predicate Fits(uuid: Text -> bool, existing: seq<RecentTask>, p: Patch, now: nat) {
    && OthersValid(uuid, p)
    && (p.recentTasks.Some? ==>
          forall k | 0 <= k < |p.recentTasks.value| && Kept(existing, p.recentTasks.value, now, k) ::
            ValidItem(uuid, p.recentTasks.value[k]))
  }

  lemma MergedMembers(existing: seq<RecentTask>, incoming: seq<Shown>, now: nat, i: nat)
    requires i < |Merged(existing, incoming, now)|
    ensures var x := Merged(existing, incoming, now)[i];
            x in existing || exists k | 0 <= k < |incoming| :: x == Stamp(incoming[k], now)
  {
    var s := SortTasks(incoming, ById(existing, incoming, now));
    var x := Merged(existing, incoming, now)[i];
    assert x == s[i] && s[i] in multiset(s);
    assert x in ById(existing, incoming, now);
    ByIdMembers(existing, incoming, now, x);
    if x in Known(existing) { KnownMembers(existing, x); }
  }

  /** A merge into valid tasks is valid exactly when what it keeps of the batch is. */
  lemma MergedValid(uuid: Text -> bool, existing: seq<RecentTask>, incoming: seq<Shown>, now: nat)
    requires forall i | 0 <= i < |existing| :: ValidTask(uuid, existing[i])
    ensures var r := Merged(existing, incoming, now);
            (forall i | 0 <= i < |r| :: ValidTask(uuid, r[i]))
            <==> forall k | 0 <= k < |incoming| && Kept(existing, incoming, now, k) :: ValidItem(uuid, incoming[k])
  {
    var r := Merged(existing, incoming, now);
    if forall k | 0 <= k < |incoming| && Kept(existing, incoming, now, k) :: ValidItem(uuid, incoming[k]) {
      forall i | 0 <= i < |r| ensures ValidTask(uuid, r[i]) {
        MergedMembers(existing, incoming, now, i);
        if k :| 0 <= k < |incoming| && r[i] == Stamp(incoming[k], now) { assert Kept(existing, incoming, now, k); }
      }
    } else {
      var k :| 0 <= k < |incoming| && Kept(existing, incoming, now, k) && !ValidItem(uuid, incoming[k]);
      var i :| 0 <= i < |r| && r[i] == Stamp(incoming[k], now);
      assert !ValidTask(uuid, r[i]);
    }
  }

  /** What can be read back of an exposure: all of it if every value of the patch that is kept
      fits the schema, and otherwise nothing at all - not even what was stored before. */
  lemma ReadBackExactly(uuid: Text -> bool, raw: Raw, patch: Patch, now: nat)
    ensures var current := ParseEntities(uuid, raw);
            ParseEntities(uuid, Recorded(uuid, raw, patch, now))
            == if Fits(uuid, current.recentTasks, patch, now) then MergeEntities(current, patch, now) else EMPTY
  {
    var current := ParseEntities(uuid, raw);
    var next := MergeEntities(current, patch, now);
    if patch.recentTasks.Some? {
      MergeShape(current.recentTasks, patch.recentTasks.value, now);
      MergedValid(uuid, current.recentTasks, patch.recentTasks.value, now);
    }
    assert ValidEntities(uuid, next) <==> Fits(uuid, current.recentTasks, patch, now);
  }

  lemma KeptBehind(existing: seq<RecentTask>, incoming: seq<Shown>, now: nat, k: nat)
    requires DistinctShown(incoming) && k < |incoming|
    ensures Kept(existing, incoming, now, k)
            <==> LaterFront(SortTasks(incoming, ById(existing, incoming, now)), now) + k < MAX_TASKS
  {
    var s := SortTasks(incoming, ById(existing, incoming, now));
    BatchPlace(existing, incoming, now, k);
    SortedMap(existing, incoming, now);
    CutHolds(s, LaterFront(s, now) + k);
  }

  /** Of a batch of distinct tasks, exactly those are kept for which ten places are enough behind
      the later stored tasks. */
  lemma KeptExactly(existing: seq<RecentTask>, incoming: seq<Shown>, now: nat, k: nat)
    requires DistinctShown(incoming) && k < |incoming|
    ensures Kept(existing, incoming, now, k) <==> |Later(existing, incoming, now)| + k < 10
  {
    LaterInFront(existing, incoming, now);
    KeptBehind(existing, incoming, now, k);
  }

  /** If it is not before the stored tasks, its first ten and no more. */
  lemma KeepsFirstTen(existing: seq<RecentTask>, incoming: seq<Shown>, now: nat, k: nat)
    requires DistinctShown(incoming) && NoneLater(existing, incoming, now) && k < |incoming|
    ensures Kept(existing, incoming, now, k) <==> k < 10
  {
    assert Later(existing, incoming, now) == {};
    KeptExactly(existing, incoming, now, k);
  }

  lemma CutHolds(s: seq<RecentTask>, k: nat)
    requires DistinctIds(s) && k < |s|
    ensures s[k] in Cut(s) <==> k < MAX_TASKS
  {
    if k < MAX_TASKS { assert Cut(s)[k] == s[k]; }
  }

  /** So for a batch of distinct tasks those first ones decide, with the other fields, whether
      anything can be read back. */
  lemma FirstTenDecide(uuid: Text -> bool, existing: seq<RecentTask>, patch: Patch, now: nat)
    requires patch.recentTasks.Some? && DistinctShown(patch.recentTasks.value)
    ensures var tasks := patch.recentTasks.value;
            Fits(uuid, existing, patch, now)
            <==> OthersValid(uuid, patch)
                 && forall k | 0 <= k < |tasks| && |Later(existing, tasks, now)| + k < MAX_TASKS ::
                      ValidItem(uuid, tasks[k])
  {
    var tasks := patch.recentTasks.value;
    forall k: nat | k < |tasks|
      ensures Kept(existing, tasks, now, k) <==> |Later(existing, tasks, now)| + k < MAX_TASKS
    {
      KeptExactly(existing, tasks, now, k);
    }
  }

  function Batch(tasks: seq<Shown>): Patch {
    Patch(Some(tasks), None, None, None, None)
  }

  lemma BatchFits(uuid: Text -> bool, existing: seq<RecentTask>, tasks: seq<Shown>, now: nat)
    requires ValidShown(uuid, tasks)
    ensures Fits(uuid, existing, Batch(tasks), now)
  {
  }

  /** One task without a title wipes out whatever was stored, unless ten later tasks keep it
      out of the memory. */
  lemma EmptyTitleWipes(uuid: Text -> bool, raw: Raw, id: Text, now: nat)
    ensures var current, batch := ParseEntities(uuid, raw), [Shown(id, [])];
            ParseEntities(uuid, Recorded(uuid, raw, Batch(batch), now))
            == if |Later(current.recentTasks, batch, now)| < MAX_TASKS then EMPTY
               else MergeEntities(current, Batch(batch), now)
  {
    var existing, batch := ParseEntities(uuid, raw).recentTasks, [Shown(id, [])];
    FirstTenDecide(uuid, existing, Batch(batch), now);
    assert !ValidItem(uuid, batch[0]);
    ReadBackExactly(uuid, raw, Batch(batch), now);
  }

  // ----- References -----

  predicate Space(u: CodeUnit) {
    9 <= u <= 13 || u == 32 || u == 160 || u == 0x1680 || 0x2000 <= u <= 0x200A
    || u == 0x2028 || u == 0x2029 || u == 0x202F || u == 0x205F || u == 0x3000 || u == 0xFEFF
  }

  function TrimStart(t: Text): Text {
    if t != [] && Space(t[0]) then TrimStart(t[1..]) else t
  }

  function TrimEnd(t: Text): Text {
    if t != [] && Space(t[|t| - 1]) then TrimEnd(t[..|t| - 1]) else t
  }

  function Trim(t: Text): Text {
    TrimEnd(TrimStart(t))
  }

  /** `toLowerCase` as far as it can produce one of the words below: no unit beyond ASCII has a
      lower-case form among their letters except K (U+212A), and no word has a k. */
  function Lower(t: Text): (r: Text)
    ensures |r| == |t|
  {
    seq(|t|, i requires 0 <= i < |t| => if 65 <= t[i] <= 90 then t[i] + 32 else t[i])
  }

  const HASH: CodeUnit := 35

  function Normalized(raw: Text): Text {
    var t := Lower(Trim(raw));
    Trim(if t != [] && t[0] == HASH then t[1..] else t)
  }

  predicate HexUnit(u: CodeUnit) {
    48 <= u <= 57 || 65 <= u <= 70 || 97 <= u <= 102
  }

  const HYPHEN: CodeUnit := 45

  predicate LooksLikeUuid(t: Text) {
    |t| == 36 && forall i | 0 <= i < 36 :: if i in {8, 13, 18, 23} then t[i] == HYPHEN else HexUnit(t[i])
  }

  predicate Digit(u: CodeUnit) { 48 <= u <= 57 }

  function DigitValue(u: CodeUnit): nat
    requires Digit(u)
  {
    u as int - 48
  }

  predicate Digits(t: Text) {
    t != [] && forall i | 0 <= i < |t| :: Digit(t[i])
  }

  function NumberOf(t: Text): nat
    requires forall i | 0 <= i < |t| :: Digit(t[i])
  {
    if t == [] then 0 else 10 * NumberOf(t[..|t| - 1]) + DigitValue(t[|t| - 1])
  }

  const ORDINALS: seq<string> :=
    ["first", "second", "third", "fourth", "fifth", "sixth", "seventh", "eighth", "ninth", "tenth"]

  /** Which word of the table, counted from 1; 0 if none. */
  function WordOrdinal(t: Text, from: nat): (r: nat)
    requires from <= |ORDINALS|
    ensures r <= |ORDINALS| && (r > 0 ==> r > from && t == Lit(ORDINALS[r - 1]))
    ensures r == 0 ==> forall k | from <= k < |ORDINALS| :: t != Lit(ORDINALS[k])
    decreases |ORDINALS| - from
  {
    if from == |ORDINALS| then 0 else if t == Lit(ORDINALS[from]) then from + 1 else WordOrdinal(t, from + 1)
  }

  function OrdinalOf(t: Text): Option<nat> {
    if WordOrdinal(t, 0) > 0 then Some(WordOrdinal(t, 0)) else if Digits(t) then Some(NumberOf(t)) else None
  }

  predicate LastWord(t: Text) {
    t == Lit("last") || t == Lit("latest") || t == Lit("most recent") || t == Lit("previous")
  }

  datatype Source = Uuid | Ordinal | Keyword

  datatype Resolution = Found(taskId: Text, source: Source) | Unresolved(available: seq<RecentTask>)

  function ResolveTaskRef(uuid: Text -> bool, raw: Raw, rawRef: Text): Resolution {
    if LooksLikeUuid(Trim(rawRef)) then Found(Trim(rawRef), Uuid)
    else
      var ref := Normalized(rawRef);
      var tasks := ParseEntities(uuid, raw).recentTasks;
      if LastWord(ref) then
        if tasks == [] then Unresolved([]) else Found(tasks[0].taskId, Keyword)
      else
        match OrdinalOf(ref)
        case None => Unresolved(tasks)
        case Some(n) => if 1 <= n <= |tasks| then Found(tasks[n - 1].taskId, Ordinal) else Unresolved(tasks)
  }

  ghost predicate Spaces(t: Text) {
    forall i | 0 <= i < |t| :: Space(t[i])
  }

  lemma {:induction false} TrimStartMeans(t: Text) returns (a: Text)
    ensures Spaces(a) && t == a + TrimStart(t) && (TrimStart(t) == [] || !Space(TrimStart(t)[0]))
  {
    if t != [] && Space(t[0]) {
      var b := TrimStartMeans(t[1..]);
      a := [t[0]] + b;
      assert t == [t[0]] + t[1..];
    } else {
      a := [];
    }
  }

  lemma {:induction false} TrimEndMeans(t: Text) returns (b: Text)
    ensures Spaces(b) && t == TrimEnd(t) + b
    ensures TrimEnd(t) == [] || (!Space(TrimEnd(t)[|TrimEnd(t)| - 1]) && TrimEnd(t)[0] == t[0])
  {
    if t != [] && Space(t[|t| - 1]) {
      var n := |t| - 1;
      var c := TrimEndMeans(t[..n]);
      b := c + [t[n]];
      assert t == t[..n] + [t[n]];
    } else {
      b := [];
    }
  }

  /** Trimming takes the spaces off both ends and nothing else. */
  lemma TrimMeans(t: Text) returns (a: Text, b: Text)
    ensures Spaces(a) && Spaces(b) && t == a + Trim(t) + b
    ensures Trim(t) == [] || (!Space(Trim(t)[0]) && !Space(Trim(t)[|Trim(t)| - 1]))
  {
    a := TrimStartMeans(t);
    b := TrimEndMeans(TrimStart(t));
    assert t == a + (Trim(t) + b);
  }

  /** A reference that is a UUID, spaces around it aside, is that task, whatever was shown; and
      nothing else is found that way. */
  lemma UuidMeans(uuid: Text -> bool, raw: Raw, rawRef: Text)
    ensures var t := Trim(rawRef);
            var isUuid := && |t| == 36 && t[8] == HYPHEN && t[13] == HYPHEN && t[18] == HYPHEN && t[23] == HYPHEN
                          && forall i | 0 <= i < 36 && i !in {8, 13, 18, 23} ::
                               48 <= t[i] <= 57 || 65 <= t[i] <= 70 || 97 <= t[i] <= 102;
            && (isUuid ==> ResolveTaskRef(uuid, raw, rawRef) == Found(t, Uuid))
            && (!isUuid ==> !(ResolveTaskRef(uuid, raw, rawRef).Found?
                              && ResolveTaskRef(uuid, raw, rawRef).source == Uuid))
  {
    var t := Trim(rawRef);
    if |t| == 36 && t[8] == HYPHEN && t[13] == HYPHEN && t[18] == HYPHEN && t[23] == HYPHEN
       && forall i | 0 <= i < 36 && i !in {8, 13, 18, 23} ::
            48 <= t[i] <= 57 || 65 <= t[i] <= 70 || 97 <= t[i] <= 102
    {
      assert LooksLikeUuid(t);
    }
  }

  /** A reference that is found is a UUID or a task shown; one that means a place without a task, or
      nothing at all, is refused with the tasks there are. */
  lemma ResolvesExactly(uuid: Text -> bool, raw: Raw, rawRef: Text, n: nat)
    ensures var tasks := ParseEntities(uuid, raw).recentTasks;
            var r := ResolveTaskRef(uuid, raw, rawRef);
            && (Means(rawRef, n) ==>
                  r == if 1 <= n <= |tasks| then Found(tasks[n - 1].taskId, Ordinal) else Unresolved(tasks))
            && (!LooksLikeUuid(Trim(rawRef)) && LastWord(Normalized(rawRef)) ==>
                  r == if tasks == [] then Unresolved(tasks) else Found(tasks[0].taskId, Keyword))
            && (!LooksLikeUuid(Trim(rawRef)) && !LastWord(Normalized(rawRef)) && OrdinalOf(Normalized(rawRef)).None? ==>
                  r == Unresolved(tasks))
  {
  }

  /** A reference that means place n. */
  predicate Means(rawRef: Text, n: nat) {
    !LooksLikeUuid(Trim(rawRef)) && !LastWord(Normalized(rawRef)) && OrdinalOf(Normalized(rawRef)) == Some(n)
  }

  lemma OrdinalFinds(uuid: Text -> bool, raw: Raw, n: nat, rawRef: Text)
    requires 1 <= n <= |ParseEntities(uuid, raw).recentTasks| && Means(rawRef, n)
    ensures ResolveTaskRef(uuid, raw, rawRef) == Found(ParseEntities(uuid, raw).recentTasks[n - 1].taskId, Ordinal)
  {
  }

  /** After showing a batch of distinct valid tasks at a time not before any stored one, place n
      refers to the n-th task of the batch, for all n up to ten and the size of the batch. */
  lemma OrdinalFindsBatch(uuid: Text -> bool, raw: Raw, tasks: seq<Shown>, now: nat, n: nat, rawRef: Text)
    requires DistinctShown(tasks) && ValidShown(uuid, tasks) && NotAfter(ParseEntities(uuid, raw).recentTasks, now)
    requires 1 <= n <= |tasks| && n <= MAX_TASKS && Means(rawRef, n)
    ensures ResolveTaskRef(uuid, Recorded(uuid, raw, Batch(tasks), now), rawRef) == Found(tasks[n - 1].taskId, Ordinal)
  {
    BatchFits(uuid, ParseEntities(uuid, raw).recentTasks, tasks, now);
    ReadBackExactly(uuid, raw, Batch(tasks), now);
    BatchComesFirst(ParseEntities(uuid, raw).recentTasks, tasks, now, n - 1);
    OrdinalFinds(uuid, Recorded(uuid, raw, Batch(tasks), now), n, rawRef);
  }

  /** "last" and its synonyms then mean the first task of the batch. */
  lemma KeywordFindsFirst(uuid: Text -> bool, raw: Raw, tasks: seq<Shown>, now: nat, rawRef: Text)
    requires DistinctShown(tasks) && ValidShown(uuid, tasks) && NotAfter(ParseEntities(uuid, raw).recentTasks, now)
    requires tasks != [] && LastWord(Normalized(rawRef)) && !LooksLikeUuid(Trim(rawRef))
    ensures ResolveTaskRef(uuid, Recorded(uuid, raw, Batch(tasks), now), rawRef) == Found(tasks[0].taskId, Keyword)
  {
    BatchFits(uuid, ParseEntities(uuid, raw).recentTasks, tasks, now);
    ReadBackExactly(uuid, raw, Batch(tasks), now);
    BatchComesFirst(ParseEntities(uuid, raw).recentTasks, tasks, now, 0);
  }

  /** `String(n)` */
  function Decimal(n: nat): (t: Text)
    ensures Digits(t)
  {
    if n < 10 then [48 + n] else Decimal(n / 10) + [48 + n % 10]
  }

  lemma {:induction false} DecimalReads(n: nat)
    ensures NumberOf(Decimal(n)) == n
  {
    if n >= 10 {
      DecimalReads(n / 10);
      assert Decimal(n)[..|Decimal(n)| - 1] == Decimal(n / 10);
    } else {
      assert Decimal(n)[..0] == [];
    }
  }

  lemma NoTrim(t: Text)
    requires t != [] && !Space(t[0]) && !Space(t[|t| - 1])
    ensures Trim(t) == t
  {
  }

  lemma DecimalNormal(n: nat)
    ensures Normalized([HASH] + Decimal(n)) == Decimal(n) && Trim([HASH] + Decimal(n)) == [HASH] + Decimal(n)
  {
    var d := Decimal(n);
    NoTrim([HASH] + d);
    NoTrim(d);
    assert Lower([HASH] + d) == [HASH] + d;
    assert ([HASH] + d)[1..] == d;
  }

  /** "#3" means place 3, and likewise for every number. */
  lemma HashMeans(n: nat)
    ensures Means([HASH] + Decimal(n), n)
  {
    DecimalNormal(n);
    DecimalReads(n);
    var d := Decimal(n);
    assert Digit(d[0]);
    assert !Digit(Lit("last")[0]) && !Digit(Lit("latest")[0]);
    assert !Digit(Lit("most recent")[0]) && !Digit(Lit("previous")[0]);
    NotAWord(d);
    assert !HexUnit(([HASH] + d)[0]);
  }

  lemma NotAWord(d: Text)
    requires d != [] && Digit(d[0])
    ensures WordOrdinal(d, 0) == 0
  {
    var r := WordOrdinal(d, 0);
    if r > 0 { WordInitial(r - 1); }
  }

  lemma WordInitial(k: nat)
    requires k < |ORDINALS|
    ensures Lit(ORDINALS[k]) != [] && !Digit(Lit(ORDINALS[k])[0])
  {
    assert |ORDINALS[k]| > 0 && 'a' <= ORDINALS[k][0] <= 'z';
  }

  predicate LowerCase(w: string) {
    5 <= |w| <= 7 && forall i | 0 <= i < |w| :: 'a' <= w[i] <= 'z'
  }

  /** The first and third letters tell the words of the table apart. */
  lemma WordShape(k: nat)
    requires k < |ORDINALS|
    ensures LowerCase(ORDINALS[k])
    ensures ORDINALS[k][0] == "fstffssent"[k] && ORDINALS[k][2] == "rciufxvgnn"[k]
  {
    if k == 0 { assert LowerCase("first"); }
    else if k == 1 { assert LowerCase("second"); }
    else if k == 2 { assert LowerCase("third"); }
    else if k == 3 { assert LowerCase("fourth"); }
    else if k == 4 { assert LowerCase("fifth"); }
    else if k == 5 { assert LowerCase("sixth"); }
    else if k == 6 { assert LowerCase("seventh"); }
    else if k == 7 { assert LowerCase("eighth"); }
    else if k == 8 { assert LowerCase("ninth"); }
    else { assert LowerCase("tenth"); }
  }

  lemma LetterOf(w: string, i: nat)
    requires LowerCase(w) && i < |w|
    ensures Lit(w)[i] as int == w[i] as int && 97 <= Lit(w)[i] <= 122
  {
  }

  lemma WordsDiffer(j: nat, k: nat)
    requires j < |ORDINALS| && k < |ORDINALS| && Lit(ORDINALS[j]) == Lit(ORDINALS[k])
    ensures j == k
  {
    WordShape(j);
    WordShape(k);
    LetterOf(ORDINALS[j], 0);
    LetterOf(ORDINALS[k], 0);
    LetterOf(ORDINALS[j], 2);
    LetterOf(ORDINALS[k], 2);
  }

  /** The word in any mixture of cases. */
  ghost predicate Spells(t: Text, w: string) {
    |t| == |w| && forall i | 0 <= i < |w| :: t[i] == w[i] as int || t[i] == w[i] as int - 32
  }

  lemma WordNormal(w: string, t: Text)
    requires LowerCase(w) && Spells(t, w)
    ensures Trim(t) == t && Normalized(t) == Lit(w)
  {
    forall i: nat | i < |w| ensures 97 <= Lit(w)[i] <= 122 && Lower(t)[i] == Lit(w)[i] && 65 <= t[i] <= 122 {
      LetterOf(w, i);
    }
    NoTrim(t);
    assert Lower(t) == Lit(w);
    NoTrim(Lit(w));
  }

  /** "first" to "tenth", in any mixture of cases, mean places 1 to 10. */
  lemma WordMeans(n: nat, t: Text)
    requires 1 <= n <= |ORDINALS| && Spells(t, ORDINALS[n - 1])
    ensures Means(t, n)
  {
    var w := ORDINALS[n - 1];
    WordShape(n - 1);
    WordNormal(w, t);
    var r := WordOrdinal(Lit(w), 0);
    assert r > 0;
    WordsDiffer(r - 1, n - 1);
    LetterOf(w, 0);
    NotLastWord(Lit(w));
  }

  /** The table of the words. */
  lemma WordTable()
    ensures ORDINALS[..5] == ["first", "second", "third", "fourth", "fifth"]
    ensures ORDINALS[5..] == ["sixth", "seventh", "eighth", "ninth", "tenth"]
  {
  }

  /** "last", "latest", "most recent" and "previous" mean the newest. */
  lemma LastWordsMean(w: string)
    requires w in ["last", "latest", "most recent", "previous"]
    ensures LastWord(Normalized(Lit(w))) && !LooksLikeUuid(Trim(Lit(w)))
  {
    var t := Lit(w);
    forall i: nat | i < |w| ensures t[i] == w[i] as int && !(65 <= t[i] <= 90) && t[i] != HASH {}
    NoTrim(t);
    assert Lower(t) == t;
  }

  lemma NotLastWord(t: Text)
    requires t != [] && t[0] != 108 && t[0] != 109 && t[0] != 112
    ensures !LastWord(t)
  {
    assert Lit("last")[0] == 108 && Lit("latest")[0] == 108;
    assert Lit("most recent")[0] == 109 && Lit("previous")[0] == 112;
  }
}
