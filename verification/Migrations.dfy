/** The migration runner: a ledger of applied files with their checksums, in one transaction. */
module Migrations {
  import opened Options
  import opened JsText

  /** A body that cannot be read is None. */
  datatype Entry = Entry(filename: Text, body: Option<Text>)

  /** What `readdirSync` gives for the directory of a module. */
  datatype Listing = NoEntry | Unreadable | Entries(entries: seq<Entry>)

  datatype ModuleMigration = ModuleMigration(name: Text, dir: Listing)

  datatype Key = Key(name: Text, filename: Text)

  /** A migration as the loops meet it; a checksum stands for its text. */
  datatype Item = Broken | File(key: Key, checksum: Text)

  const SQL := Lit(".sql")

  predicate IsSql(filename: Text) {
    |filename| >= 4 && filename[|filename| - 4..] == SQL
  }

  function SqlNames(entries: seq<Entry>): seq<Text> {
    if entries == [] then []
    else (if IsSql(entries[0].filename) then [entries[0].filename] else []) + SqlNames(entries[1..])
  }

  function ListSqlFiles(dir: Listing): seq<Text> {
    if dir.Entries? then Sort(SqlNames(dir.entries)) else []
  }

  lemma {:induction false} SqlNamesExactly(entries: seq<Entry>, f: Text)
    ensures f in SqlNames(entries) <==> IsSql(f) && exists i | 0 <= i < |entries| :: entries[i].filename == f
  {
    if entries != [] {
      var rest := entries[1..];
      SqlNamesExactly(rest, f);
      if i :| 0 <= i < |entries| && entries[i].filename == f {
        assert i > 0 ==> rest[i - 1].filename == f;
      }
      if i :| 0 <= i < |rest| && rest[i].filename == f { assert entries[i + 1].filename == f; }
    }
  }

  /** A directory is gone through in ascending order of code units, its SQL files and no others. */
  lemma ListsSqlFilesInOrder(entries: seq<Entry>, f: Text)
    ensures var files := ListSqlFiles(Entries(entries));
            && (forall i, j | 0 <= i < j < |files| ::
                  || files[i] <= files[j]
                  || exists p :: 0 <= p < |files[i]| && p < |files[j]|
                                 && files[i][..p] == files[j][..p] && files[i][p] < files[j][p])
            && (f in files <==>
                  && |f| >= 4 && f[|f| - 4..] == Lit(".sql")
                  && exists i | 0 <= i < |entries| :: entries[i].filename == f)
  {
    var names := SqlNames(entries);
    var files := Sort(names);
    SortSorted(names);
    SqlNamesExactly(entries, f);
    assert f in files <==> f in multiset(files);
    assert f in names <==> f in multiset(names);
    forall i, j | 0 <= i < j < |files|
      ensures || files[i] <= files[j]
              || exists p :: 0 <= p < |files[i]| && p < |files[j]|
                             && files[i][..p] == files[j][..p] && files[i][p] < files[j][p]
    {
      LeMeans(files[i], files[j]);
    }
  }

  function BodyOf(entries: seq<Entry>, filename: Text): Option<Text> {
    if entries == [] then None
    else if entries[0].filename == filename then entries[0].body
    else BodyOf(entries[1..], filename)
  }

  function ItemOf(m: ModuleMigration, filename: Text): Item {
    var body := if m.dir.Entries? then BodyOf(m.dir.entries, filename) else None;
    if body.None? then Broken else File(Key(m.name, filename), body.value)
  }

  /** The first n files of a module. */
  function ModuleItems(m: ModuleMigration, n: nat): (r: seq<Item>)
    requires n <= |ListSqlFiles(m.dir)|
    ensures |r| == n
  {
    if n == 0 then [] else ModuleItems(m, n - 1) + [ItemOf(m, ListSqlFiles(m.dir)[n - 1])]
  }

  function AllItems(m: ModuleMigration): seq<Item> {
    if m.dir.Unreadable? then [Broken] else ModuleItems(m, |ListSqlFiles(m.dir)|)
  }

  /** Everything a call goes through, module by module, files in name order. */
  function Plan(modules: seq<ModuleMigration>): seq<Item> {
    if modules == [] then [] else Plan(modules[..|modules| - 1]) + AllItems(modules[|modules| - 1])
  }

  /** The database: ledger, and the migrations whose bodies took effect, in order. */
  datatype Db = Db(ledger: map<Key, Text>, effects: seq<Key>)

  datatype Progress = Progress(db: Db, lag: seq<Key>)

  datatype Mode = Mode(assertOnly: bool, failing: set<Key>)

  /** One file; None is an exception. `failing` are the bodies the database rejects. */
  function Step(mode: Mode, p: Progress, item: Item): Option<Progress> {
    if item.Broken? then None
    else if item.key in p.db.ledger then if p.db.ledger[item.key] == item.checksum then Some(p) else None
    else if mode.assertOnly then Some(p.(lag := p.lag + [item.key]))
    else if item.key in mode.failing then None
    else Some(p.(db := Db(p.db.ledger[item.key := item.checksum], p.db.effects + [item.key])))
  }

  function Pass(mode: Mode, p: Progress, items: seq<Item>): Option<Progress> {
    if items == [] then Some(p)
    else
      match Pass(mode, p, items[..|items| - 1])
      case None => None
      case Some(q) => Step(mode, q, items[|items| - 1])
  }

  /** What a call inside its transaction comes to. */
  function Attempt(mode: Mode, db: Db, modules: seq<ModuleMigration>): Option<Progress> {
    Pass(mode, Progress(db, []), Plan(modules))
  }

  /** The database after a call: committed or rolled back. */
  function Called(mode: Mode, db: Db, modules: seq<ModuleMigration>): Db {
    var r := Attempt(mode, db, modules);
    if r.Some? then r.value.db else db
  }

  lemma PassLast(mode: Mode, p: Progress, items: seq<Item>, item: Item)
    ensures Pass(mode, p, items + [item])
            == match Pass(mode, p, items) { case None => None case Some(q) => Step(mode, q, item) }
  {
    assert (items + [item])[..|items|] == items;
  }

  lemma {:induction false} PassStuck(mode: Mode, p: Progress, a: seq<Item>, b: seq<Item>)
    requires Pass(mode, p, a).None?
    ensures Pass(mode, p, a + b).None?
  {
    if b == [] {
      assert a + b == a;
    } else {
      PassStuck(mode, p, a, b[..|b| - 1]);
      assert a + b == (a + b[..|b| - 1]) + [b[|b| - 1]];
      PassLast(mode, p, a + b[..|b| - 1], b[|b| - 1]);
    }
  }

  // ----- The call, as the source writes it -----

  class Database {
    var ledger: map<Key, Text>
    var effects: seq<Key>

    function Value(): Db
      reads this
    {
      Db(ledger, effects)
    }

    constructor ()
      ensures Value() == Db(map[], [])
    {
      ledger, effects := map[], [];
    }

    method Rollback(ledger: map<Key, Text>, effects: seq<Key>)
      modifies this
      ensures Value() == Db(ledger, effects)
    {
      this.ledger, this.effects := ledger, effects;
    }
  }

  /** None is an exception. */
  method RunMigrations(db: Database, modules: seq<ModuleMigration>, assertOnly: bool, failing: set<Key>)
    returns (r: Option<seq<Key>>)
    modifies db
    ensures db.Value() == Called(Mode(assertOnly, failing), old(db.Value()), modules)
    ensures r.Some? <==> Attempt(Mode(assertOnly, failing), old(db.Value()), modules).Some?
    ensures r.Some? ==> r.value == Attempt(Mode(assertOnly, failing), old(db.Value()), modules).value.lag
  {
    var ledger, effects := db.ledger, db.effects;
    var lag: seq<Key> := [];
    ghost var mode := Mode(assertOnly, failing);
    ghost var start := Progress(db.Value(), []);
    var i := 0;
    while i < |modules|
      invariant i <= |modules|
      invariant Pass(mode, start, Plan(modules[..i])) == Some(Progress(db.Value(), lag))
    {
      var m := modules[i];
      var more := RunModule(db, m, assertOnly, failing, Plan(modules[..i]), start, lag);
      ghost var front := modules[..i + 1];
      assert front[..|front| - 1] == modules[..i] && front[|front| - 1] == m;
      assert Plan(front) == Plan(modules[..i]) + AllItems(m);
      if more.None? {
        db.Rollback(ledger, effects);
        PlanStuck(mode, start, modules, i + 1);
        return None;
      }
      lag := more.value;
      i := i + 1;
    }
    assert modules[..|modules|] == modules;
    return Some(lag);
  }

  lemma {:induction false} PlanStuck(mode: Mode, p: Progress, modules: seq<ModuleMigration>, n: nat)
    requires n <= |modules| && Pass(mode, p, Plan(modules[..n])).None?
    ensures Pass(mode, p, Plan(modules)).None?
    decreases |modules|
  {
    if n == |modules| {
      assert modules[..n] == modules;
    } else {
      var front := modules[..|modules| - 1];
      assert front[..n] == modules[..n];
      PlanStuck(mode, p, front, n);
      PassStuck(mode, p, Plan(front), AllItems(modules[|modules| - 1]));
    }
  }

  /** The inner loop; `before` is what the call has gone through so far. */
  method RunModule(db: Database, m: ModuleMigration, assertOnly: bool, failing: set<Key>,
                   ghost before: seq<Item>, ghost start: Progress, lag: seq<Key>)
    returns (r: Option<seq<Key>>)
    requires Pass(Mode(assertOnly, failing), start, before) == Some(Progress(db.Value(), lag))
    modifies db
    ensures r.Some? ==>
              Pass(Mode(assertOnly, failing), start, before + AllItems(m)) == Some(Progress(db.Value(), r.value))
    ensures r.None? ==> Pass(Mode(assertOnly, failing), start, before + AllItems(m)).None?
  {
    ghost var mode := Mode(assertOnly, failing);
    if m.dir.Unreadable? {
      PassLast(mode, start, before, Broken);
      return None;
    }
    var entries := ListSqlFiles(m.dir);
    var found := lag;
    assert before + ModuleItems(m, 0) == before;
    for j := 0 to |entries|
      invariant Pass(mode, start, before + ModuleItems(m, j)) == Some(Progress(db.Value(), found))
    {
      var file := entries[j];
      NextItem(mode, start, before, m, j, Progress(db.Value(), found));
      var body := if m.dir.Entries? then BodyOf(m.dir.entries, file) else None;
      var key := Key(m.name, file);
      if body.None? || (key in db.ledger && db.ledger[key] != body.value)
         || (key !in db.ledger && !assertOnly && key in failing) {
        StuckInModule(mode, start, before, m, j + 1);
        return None;
      }
      if key !in db.ledger {
        if assertOnly {
          found := found + [key];
        } else {
          db.effects := db.effects + [key];
          db.ledger := db.ledger[key := body.value];
        }
      }
    }
    return Some(found);
  }

  lemma NextItem(mode: Mode, start: Progress, before: seq<Item>, m: ModuleMigration, j: nat, p: Progress)
    requires j < |ListSqlFiles(m.dir)| && Pass(mode, start, before + ModuleItems(m, j)) == Some(p)
    ensures Pass(mode, start, before + ModuleItems(m, j + 1)) == Step(mode, p, ItemOf(m, ListSqlFiles(m.dir)[j]))
  {
    var item := ItemOf(m, ListSqlFiles(m.dir)[j]);
    PassLast(mode, start, before + ModuleItems(m, j), item);
    assert before + ModuleItems(m, j + 1) == before + ModuleItems(m, j) + [item];
  }

  lemma StuckInModule(mode: Mode, p: Progress, before: seq<Item>, m: ModuleMigration, n: nat)
    requires !m.dir.Unreadable? && n <= |ListSqlFiles(m.dir)|
    requires Pass(mode, p, before + ModuleItems(m, n)).None?
    ensures Pass(mode, p, before + AllItems(m)).None?
  {
    var rest := SplitItems(m, n, |ListSqlFiles(m.dir)|);
    PassStuck(mode, p, before + ModuleItems(m, n), rest);
    assert before + AllItems(m) == before + ModuleItems(m, n) + rest;
  }

  lemma {:induction false} SplitItems(m: ModuleMigration, n: nat, k: nat) returns (rest: seq<Item>)
    requires n <= k <= |ListSqlFiles(m.dir)|
    ensures ModuleItems(m, k) == ModuleItems(m, n) + rest
  {
    if n == k {
      rest := [];
    } else {
      rest := SplitItems(m, n, k - 1);
      rest := rest + [ItemOf(m, ListSqlFiles(m.dir)[k - 1])];
    }
  }

  // ----- What a call does -----

  /** The files of the plan that the ledger does not know, in order. */
  function Pending(ledger: map<Key, Text>, items: seq<Item>): (r: seq<Key>)
    ensures forall k | k in r :: k !in ledger
  {
    if items == [] then []
    else
      var item := items[|items| - 1];
      Pending(ledger, items[..|items| - 1]) + if item.File? && item.key !in ledger then [item.key] else []
  }

  lemma {:induction false} PendingHas(ledger: map<Key, Text>, items: seq<Item>, k: Key)
    ensures k in Pending(ledger, items) <==>
              k !in ledger && exists i | 0 <= i < |items| :: items[i].File? && items[i].key == k
  {
    if items != [] {
      var front := items[..|items| - 1];
      PendingHas(ledger, front, k);
      if k !in ledger && exists i | 0 <= i < |items| :: items[i].File? && items[i].key == k {
        var i :| 0 <= i < |items| && items[i].File? && items[i].key == k;
        assert i < |front| ==> front[i].File? && front[i].key == k;
      }
      if k in Pending(ledger, front) {
        var i :| 0 <= i < |front| && front[i].File? && front[i].key == k;
        assert items[i].File? && items[i].key == k;
      }
    }
  }

  lemma DedupeLast<T(!new)>(s: seq<T>, x: T)
    ensures Dedupe(s + [x]) == if x in s then Dedupe(s) else Dedupe(s) + [x]
  {
    assert (s + [x])[..|s|] == s;
  }

  /** A file readable and, if recorded, unchanged. */
  predicate FileFits(ledger: map<Key, Text>, item: Item) {
    item.File? && (item.key in ledger ==> ledger[item.key] == item.checksum)
  }

  ghost predicate AllFit(ledger: map<Key, Text>, items: seq<Item>) {
    forall i | 0 <= i < |items| :: FileFits(ledger, items[i])
  }

  /** An assert-only call succeeds exactly when every file can be read and no recorded one has
      changed; it returns the unknown files in order and leaves the database alone. */
  lemma {:induction false} AssertOnlyExactly(failing: set<Key>, p: Progress, items: seq<Item>)
    ensures Pass(Mode(true, failing), p, items)
            == if AllFit(p.db.ledger, items) then Some(Progress(p.db, p.lag + Pending(p.db.ledger, items))) else None
    ensures AllFit(p.db.ledger, items) <==>
              forall i | 0 <= i < |items| ::
                && items[i].File?
                && (items[i].key in p.db.ledger ==> p.db.ledger[items[i].key] == items[i].checksum)
  {
    if items != [] {
      var front, item := items[..|items| - 1], items[|items| - 1];
      AssertOnlyExactly(failing, p, front);
      assert items == front + [item];
      assert AllFit(p.db.ledger, items) <==> AllFit(p.db.ledger, front) && FileFits(p.db.ledger, item);
      var known := Pending(p.db.ledger, front);
      if item.File? {
        PendingLast(p.db.ledger, front, item);
        assert p.lag + (known + [item.key]) == p.lag + known + [item.key] && known + [] == known;
      }
    } else {
      assert p.lag + Pending(p.db.ledger, items) == p.lag;
    }
  }

  predicate Recorded(ledger: map<Key, Text>, item: Item) {
    item.File? && item.key in ledger && ledger[item.key] == item.checksum
  }

  ghost predicate AllRecorded(ledger: map<Key, Text>, items: seq<Item>) {
    forall i | 0 <= i < |items| :: Recorded(ledger, items[i])
  }

  ghost predicate Keeps(p: map<Key, Text>, q: map<Key, Text>) {
    forall k | k in p :: k in q && q[k] == p[k]
  }

  ghost predicate OnlyNew(p: map<Key, Text>, q: map<Key, Text>, pending: seq<Key>) {
    forall k | k in q :: k in p || k in pending
  }

  /** What applying leaves: every file recorded as it is, older records kept, the unknown ones
      run once each in order of first mention. */
  ghost predicate Applied(p: Db, items: seq<Item>, q: Db) {
    && AllRecorded(q.ledger, items)
    && Keeps(p.ledger, q.ledger)
    && OnlyNew(p.ledger, q.ledger, Pending(p.ledger, items))
    && q.effects == p.effects + Dedupe(Pending(p.ledger, items))
  }

  lemma PendingLast(ledger: map<Key, Text>, front: seq<Item>, item: Item)
    requires item.File?
    ensures Pending(ledger, front + [item]) == Pending(ledger, front) + if item.key in ledger then [] else [item.key]
  {
    assert (front + [item])[..|front|] == front;
  }

  lemma RecordedStays(p: map<Key, Text>, items: seq<Item>, q: map<Key, Text>)
    requires AllRecorded(p, items) && Keeps(p, q)
    ensures AllRecorded(q, items)
  {
    forall i | 0 <= i < |items| ensures Recorded(q, items[i]) {
      assert Recorded(p, items[i]);
    }
  }

  lemma ApplyKnown(p: Db, front: seq<Item>, q: Db, item: Item)
    requires Applied(p, front, q) && Recorded(q.ledger, item)
    ensures Applied(p, front + [item], q)
  {
    KnownPending(p.ledger, front, item);
    RecordedLast(q.ledger, front, item);
  }

  /** A file already recorded adds nothing to what is executed. */
  lemma KnownPending(ledger: map<Key, Text>, front: seq<Item>, item: Item)
    requires item.File? && (item.key in ledger || item.key in Pending(ledger, front))
    ensures Dedupe(Pending(ledger, front + [item])) == Dedupe(Pending(ledger, front))
    ensures forall k :: k in Pending(ledger, front + [item]) <==> k in Pending(ledger, front)
  {
    var before := Pending(ledger, front);
    PendingLast(ledger, front, item);
    if item.key !in ledger { DedupeLast(before, item.key); } else { assert before + [] == before; }
  }

  lemma UnrecordedIsNew(p: map<Key, Text>, q: map<Key, Text>, items: seq<Item>, key: Key)
    requires AllRecorded(q, items) && key !in q
    ensures key !in Pending(p, items)
  {
    forall i | 0 <= i < |items| ensures Recorded(q, items[i]) && items[i].key != key {}
    PendingHas(p, items, key);
  }

  lemma RecordedLast(ledger: map<Key, Text>, front: seq<Item>, item: Item)
    requires AllRecorded(ledger, front) && Recorded(ledger, item)
    ensures AllRecorded(ledger, front + [item])
  {
  }

  lemma OnlyNewMore(p: map<Key, Text>, q: map<Key, Text>, pending: seq<Key>, key: Key, checksum: Text)
    requires Keeps(p, q) && OnlyNew(p, q, pending) && key !in q
    ensures Keeps(p, q[key := checksum]) && OnlyNew(p, q[key := checksum], pending + [key])
  {
  }

  lemma Associative<T>(a: seq<T>, b: seq<T>, c: seq<T>)
    ensures a + (b + c) == a + b + c
  {
  }

  /** A file not yet recorded is the next of the unknown ones. */
  lemma PendingMore(p: map<Key, Text>, q: map<Key, Text>, front: seq<Item>, item: Item)
    requires AllRecorded(q, front) && Keeps(p, q) && item.File? && item.key !in q
    ensures Pending(p, front + [item]) == Pending(p, front) + [item.key]
    ensures Dedupe(Pending(p, front + [item])) == Dedupe(Pending(p, front)) + [item.key]
  {
    PendingLast(p, front, item);
    UnrecordedIsNew(p, q, front, item.key);
    DedupeLast(Pending(p, front), item.key);
  }

  lemma ApplyNew(p: Db, front: seq<Item>, q: Db, item: Item)
    requires Applied(p, front, q) && item.File? && item.key !in q.ledger
    ensures Applied(p, front + [item], Db(q.ledger[item.key := item.checksum], q.effects + [item.key]))
  {
    var before := Pending(p.ledger, front);
    var r := q.ledger[item.key := item.checksum];
    PendingMore(p.ledger, q.ledger, front, item);
    RecordedStays(q.ledger, front, r);
    RecordedLast(r, front, item);
    OnlyNewMore(p.ledger, q.ledger, before, item.key, item.checksum);
    Associative(p.effects, Dedupe(before), [item.key]);
  }

  lemma ApplyStep(failing: set<Key>, p: Db, front: seq<Item>, q: Progress, item: Item)
    requires Applied(p, front, q.db) && Step(Mode(false, failing), q, item).Some?
    ensures Applied(p, front + [item], Step(Mode(false, failing), q, item).value.db)
    ensures Step(Mode(false, failing), q, item).value.lag == q.lag
  {
    if item.key in q.db.ledger { ApplyKnown(p, front, q.db, item); } else { ApplyNew(p, front, q.db, item); }
  }

  lemma {:induction false} ApplyDoes(failing: set<Key>, p: Progress, items: seq<Item>)
    requires Pass(Mode(false, failing), p, items).Some?
    ensures Applied(p.db, items, Pass(Mode(false, failing), p, items).value.db)
    ensures var q := Pass(Mode(false, failing), p, items).value.db;
            && (forall i | 0 <= i < |items| ::
                  items[i].File? && items[i].key in q.ledger && q.ledger[items[i].key] == items[i].checksum)
            && (forall k | k in p.db.ledger :: k in q.ledger && q.ledger[k] == p.db.ledger[k])
            && q.effects == p.db.effects + Dedupe(Pending(p.db.ledger, items))
    ensures Pass(Mode(false, failing), p, items).value.lag == p.lag
  {
    if items == [] {
      assert p.db.effects + [] == p.db.effects;
    } else {
      var front, item := items[..|items| - 1], items[|items| - 1];
      assert items == front + [item];
      PassLast(Mode(false, failing), p, front, item);
      ApplyDoes(failing, p, front);
      ApplyStep(failing, p.db, front, Pass(Mode(false, failing), p, front).value, item);
    }
  }

  /** Files mentioned twice have one text. */
  ghost predicate OneText(items: seq<Item>) {
    forall i, j | 0 <= i < j < |items| && items[i].File? && items[j].File? && items[i].key == items[j].key ::
      items[i].checksum == items[j].checksum
  }

  ghost predicate NonePendingFails(failing: set<Key>, ledger: map<Key, Text>, items: seq<Item>) {
    forall k | k in Pending(ledger, items) :: k !in failing
  }

  /** An applying call succeeds exactly when every file can be read, no recorded one has changed,
      no two files of one name differ, and the database rejects none of the unknown ones. */
  lemma {:induction false} ApplySucceedsExactly(failing: set<Key>, p: Progress, items: seq<Item>)
    ensures Pass(Mode(false, failing), p, items).Some?
            <==> AllFit(p.db.ledger, items) && OneText(items) && NonePendingFails(failing, p.db.ledger, items)
    ensures AllFit(p.db.ledger, items) <==>
              forall i | 0 <= i < |items| ::
                && items[i].File?
                && (items[i].key in p.db.ledger ==> p.db.ledger[items[i].key] == items[i].checksum)
  {
    if items != [] {
      var front, item := items[..|items| - 1], items[|items| - 1];
      assert items == front + [item];
      ApplySucceedsExactly(failing, p, front);
      ApplyParts(failing, p.db.ledger, front, item);
      if Pass(Mode(false, failing), p, front).Some? {
        ApplyDoes(failing, p, front);
        LastFits(failing, p.db, front, Pass(Mode(false, failing), p, front).value, item);
      }
    }
  }

  /** A further file that agrees with the earlier ones of its name. */
  ghost predicate Agrees(front: seq<Item>, item: Item) {
    forall i | 0 <= i < |front| && front[i].File? && item.File? && front[i].key == item.key ::
      front[i].checksum == item.checksum
  }

  lemma ApplyParts(failing: set<Key>, ledger: map<Key, Text>, front: seq<Item>, item: Item)
    ensures AllFit(ledger, front + [item]) <==> AllFit(ledger, front) && FileFits(ledger, item)
    ensures OneText(front + [item]) <==> OneText(front) && Agrees(front, item)
    ensures NonePendingFails(failing, ledger, front + [item])
            <==> NonePendingFails(failing, ledger, front)
                 && (item.File? && item.key !in ledger ==> item.key !in failing)
  {
    var items := front + [item];
    assert items[..|front|] == front;
    assert forall i | 0 <= i < |front| :: items[i] == front[i];
    assert items[|front|] == item;
  }

  lemma LastFits(failing: set<Key>, p: Db, front: seq<Item>, q: Progress, item: Item)
    requires Applied(p, front, q.db) && NonePendingFails(failing, p.ledger, front)
    ensures Step(Mode(false, failing), q, item).Some?
            <==> FileFits(p.ledger, item) && Agrees(front, item)
                 && (item.File? && item.key !in p.ledger ==> item.key !in failing)
  {
    if item.File? {
      PendingHas(p.ledger, front, item.key);
      if item.key in q.db.ledger && item.key !in p.ledger {
        var i :| 0 <= i < |front| && front[i].File? && front[i].key == item.key;
        assert Recorded(q.db.ledger, front[i]);
      }
    }
  }

  /** After a successful apply a check of the same files finds nothing to do. */
  lemma ApplyCatchesUp(failing: set<Key>, other: set<Key>, db: Db, modules: seq<ModuleMigration>)
    requires Attempt(Mode(false, failing), db, modules).Some?
    ensures Attempt(Mode(true, other), Called(Mode(false, failing), db, modules), modules)
            == Some(Progress(Called(Mode(false, failing), db, modules), []))
  {
    var items := Plan(modules);
    var after := Called(Mode(false, failing), db, modules);
    ApplyDoes(failing, Progress(db, []), items);
    AssertOnlyExactly(other, Progress(after, []), items);
    forall i | 0 <= i < |items| ensures FileFits(after.ledger, items[i]) {
      assert Recorded(after.ledger, items[i]);
    }
    NothingPending(after.ledger, items);
  }

  lemma {:induction false} NothingPending(ledger: map<Key, Text>, items: seq<Item>)
    requires forall i | 0 <= i < |items| :: Recorded(ledger, items[i])
    ensures Pending(ledger, items) == []
  {
    if items != [] {
      assert Recorded(ledger, items[|items| - 1]);
      NothingPending(ledger, items[..|items| - 1]);
    }
  }

  /** No file without a record is listed twice. */
  ghost predicate UnrecordedOnce(ledger: map<Key, Text>, items: seq<Item>) {
    forall i, j | 0 <= i < j < |items| && items[i].File? && items[j].File? && items[i].key == items[j].key ::
      items[i].key in ledger
  }

  lemma DistinctLast<T>(s: seq<T>, x: T)
    ensures Distinct(s + [x]) <==> Distinct(s) && x !in s
  {
    var all := s + [x];
    assert forall i | 0 <= i < |s| :: all[i] == s[i];
    assert all[|s|] == x;
  }

  lemma UnrecordedOnceLast(ledger: map<Key, Text>, front: seq<Item>, item: Item)
    ensures UnrecordedOnce(ledger, front + [item])
            <==> UnrecordedOnce(ledger, front) && (item.File? ==> item.key !in Pending(ledger, front))
  {
    var items := front + [item];
    assert forall i | 0 <= i < |front| :: items[i] == front[i];
    assert items[|front|] == item;
    if item.File? { PendingHas(ledger, front, item.key); }
  }

  lemma {:induction false} PendingDistinctExactly(ledger: map<Key, Text>, items: seq<Item>)
    ensures Distinct(Pending(ledger, items)) <==> UnrecordedOnce(ledger, items)
  {
    if items != [] {
      var front, item := items[..|items| - 1], items[|items| - 1];
      assert items == front + [item];
      PendingDistinctExactly(ledger, front);
      UnrecordedOnceLast(ledger, front, item);
      if item.File? {
        PendingLast(ledger, front, item);
        DistinctLast(Pending(ledger, front), item.key);
      }
      assert Pending(ledger, front) + [] == Pending(ledger, front);
    }
  }

  /** The lag a check reports is what an apply from there executes, in the same order, save that
      a file listed twice is reported twice and executed once: the two are equal exactly when no
      file without a record is listed twice. */
  lemma LagIsWhatApplyExecutes(failing: set<Key>, other: set<Key>, db: Db, modules: seq<ModuleMigration>)
    requires Attempt(Mode(false, failing), db, modules).Some?
    ensures Attempt(Mode(true, other), db, modules).Some?
    ensures Called(Mode(false, failing), db, modules).effects
            == db.effects + Dedupe(Attempt(Mode(true, other), db, modules).value.lag)
    ensures Called(Mode(false, failing), db, modules).effects
            == db.effects + Attempt(Mode(true, other), db, modules).value.lag
            <==> UnrecordedOnce(db.ledger, Plan(modules))
  {
    var items, p := Plan(modules), Progress(db, []);
    ApplyDoes(failing, p, items);
    ApplySucceedsExactly(failing, p, items);
    AssertOnlyExactly(other, p, items);
    var lag := Pending(db.ledger, items);
    assert [] + lag == lag;
    DedupeDistinct(lag);
    SameTail(db.effects, Dedupe(lag), lag);
    PendingDistinctExactly(db.ledger, items);
  }

  /** A module listed twice, with one new file: the check reports two files, the apply executes
      one. */
  lemma ListedTwice(failing: set<Key>, other: set<Key>, db: Db, name: Text, filename: Text, body: Text)
    requires IsSql(filename) && Key(name, filename) !in db.ledger && Key(name, filename) !in failing
    ensures var m, k := ModuleMigration(name, Entries([Entry(filename, Some(body))])), Key(name, filename);
            && Attempt(Mode(true, other), db, [m, m]) == Some(Progress(db, [k, k]))
            && Called(Mode(false, failing), db, [m, m]).effects == db.effects + [k]
  {
    var entries, k := [Entry(filename, Some(body))], Key(name, filename);
    var m, file := ModuleMigration(name, Entries(entries)), File(k, body);
    assert SqlNames(entries[1..]) == [] && SqlNames(entries) == [filename];
    assert Sort([filename][1..]) == [] && Sort([filename]) == [filename];
    assert ModuleItems(m, 0) == [] && ModuleItems(m, 1) == [] + [file] && AllItems(m) == [file];
    assert [m][..0] == [] && [m, m][..1] == [m];
    assert Plan([m]) == [file] && Plan([m, m]) == [file] + [file];
    PlannedTwice(Mode(true, other), Progress(db, []), file);
    assert [] + [k] + [k] == [k, k];
    PlannedTwice(Mode(false, failing), Progress(db, []), file);
  }

  lemma PlannedTwice(mode: Mode, p: Progress, file: Item)
    requires file.File? && file.key !in p.db.ledger && (mode.assertOnly || file.key !in mode.failing)
    ensures mode.assertOnly ==>
              Pass(mode, p, [file] + [file]) == Some(p.(lag := p.lag + [file.key] + [file.key]))
    ensures !mode.assertOnly ==>
              && Pass(mode, p, [file] + [file]).Some?
              && Pass(mode, p, [file] + [file]).value.db.effects == p.db.effects + [file.key]
  {
    PassLast(mode, p, [], file);
    assert [] + [file] == [file];
    PassLast(mode, p, [file], file);
  }

  lemma SameTail<T>(a: seq<T>, b: seq<T>, c: seq<T>)
    ensures a + b == a + c <==> b == c
  {
    assert (a + b)[|a|..] == b && (a + c)[|a|..] == c;
  }

  lemma {:induction false} DedupeDistinct<T(!new)>(s: seq<T>)
    ensures Dedupe(s) == s <==> Distinct(s)
  {
    if s != [] {
      var front, x := s[..|s| - 1], s[|s| - 1];
      assert s == front + [x];
      DedupeDistinct(front);
      if Distinct(s) {
        assert Distinct(front);
        assert x !in front;
      }
    }
  }

  // ----- What a call goes through -----

  lemma {:induction false} PlanMembers(modules: seq<ModuleMigration>, item: Item)
    ensures item in Plan(modules) <==> exists i :: 0 <= i < |modules| && item in AllItems(modules[i])
  {
    if modules != [] {
      var n := |modules| - 1;
      PlanMembers(modules[..n], item);
      assert item in Plan(modules) <==> item in Plan(modules[..n]) || item in AllItems(modules[n]);
      ListedEarlier(modules, item);
    }
  }

  lemma ListedEarlier(modules: seq<ModuleMigration>, item: Item)
    requires modules != []
    ensures var n := |modules| - 1;
            (exists i :: 0 <= i < |modules| && item in AllItems(modules[i]))
            <==> item in AllItems(modules[n]) || exists i :: 0 <= i < n && item in AllItems(modules[..n][i])
  {
    var n := |modules| - 1;
    assert forall i | 0 <= i < n :: modules[..n][i] == modules[i];
    if i :| 0 <= i < n && item in AllItems(modules[i]) { assert item in AllItems(modules[..n][i]); }
    if i :| 0 <= i < n && item in AllItems(modules[..n][i]) { assert item in AllItems(modules[i]); }
  }

  lemma {:induction false} ModuleItemAt(m: ModuleMigration, n: nat, k: nat)
    requires k < n <= |ListSqlFiles(m.dir)|
    ensures ModuleItems(m, n)[k] == ItemOf(m, ListSqlFiles(m.dir)[k])
  {
    if k < n - 1 { ModuleItemAt(m, n - 1, k); }
  }

  lemma ModuleMembers(m: ModuleMigration, item: Item)
    requires item.File?
    ensures item in AllItems(m) <==> exists f :: f in ListSqlFiles(m.dir) && item == ItemOf(m, f)
  {
    var files := ListSqlFiles(m.dir);
    if !m.dir.Unreadable? {
      forall k | 0 <= k < |files| ensures AllItems(m)[k] == ItemOf(m, files[k]) { ModuleItemAt(m, |files|, k); }
      if f :| f in files && item == ItemOf(m, f) {
        var k :| 0 <= k < |files| && files[k] == f;
        assert AllItems(m)[k] == item;
      }
      if item in AllItems(m) {
        var k :| 0 <= k < |files| && AllItems(m)[k] == item;
        assert files[k] in files && item == ItemOf(m, files[k]);
      }
    }
  }

  ghost predicate DistinctFiles(entries: seq<Entry>) {
    forall i, j | 0 <= i < j < |entries| :: entries[i].filename != entries[j].filename
  }

  lemma {:induction false} BodyFound(entries: seq<Entry>, f: Text, body: Text)
    requires DistinctFiles(entries)
    ensures BodyOf(entries, f) == Some(body) <==> Entry(f, Some(body)) in entries
  {
    if entries != [] {
      var rest := entries[1..];
      BodyFound(rest, f, body);
      assert entries == [entries[0]] + rest;
      if Entry(f, Some(body)) in rest {
        var i :| 0 <= i < |rest| && rest[i] == Entry(f, Some(body));
        assert entries[i + 1].filename == f;
      }
    }
  }

  lemma ModuleReads(m: ModuleMigration, f: Text, body: Text)
    requires m.dir.Entries? ==> DistinctFiles(m.dir.entries)
    ensures (f in ListSqlFiles(m.dir) && ItemOf(m, f) == File(Key(m.name, f), body))
            <==> m.dir.Entries? && Entry(f, Some(body)) in m.dir.entries && |f| >= 4 && f[|f| - 4..] == Lit(".sql")
  {
    if m.dir.Entries? {
      BodyFound(m.dir.entries, f, body);
      ListsSqlFilesInOrder(m.dir.entries, f);
      if Entry(f, Some(body)) in m.dir.entries {
        var i :| 0 <= i < |m.dir.entries| && m.dir.entries[i] == Entry(f, Some(body));
        assert m.dir.entries[i].filename == f;
      }
    }
  }

  /** A call goes through a file under its module's name and with the text of its entry, and
      through nothing else that can be read. */
  lemma GoesThroughExactly(modules: seq<ModuleMigration>, name: Text, f: Text, body: Text)
    requires forall i | 0 <= i < |modules| && modules[i].dir.Entries? :: DistinctFiles(modules[i].dir.entries)
    ensures File(Key(name, f), body) in Plan(modules)
            <==> && |f| >= 4 && f[|f| - 4..] == Lit(".sql")
                 && exists i :: && 0 <= i < |modules| && modules[i].name == name && modules[i].dir.Entries?
                                && Entry(f, Some(body)) in modules[i].dir.entries
  {
    var item := File(Key(name, f), body);
    PlanMembers(modules, item);
    forall i | 0 <= i < |modules|
      ensures item in AllItems(modules[i])
              <==> && modules[i].name == name && modules[i].dir.Entries?
                   && Entry(f, Some(body)) in modules[i].dir.entries && |f| >= 4 && f[|f| - 4..] == Lit(".sql")
    {
      ModuleMembers(modules[i], item);
      ModuleReads(modules[i], f, body);
    }
  }

  // ----- The order of an apply -----

  ghost predicate DistinctNames(modules: seq<ModuleMigration>) {
    forall i, j | 0 <= i < j < |modules| :: modules[i].name != modules[j].name
  }

  /** The first key is of an earlier module, or of the same one and not behind in it. */
  ghost predicate KeyLe(modules: seq<ModuleMigration>, k: Key, l: Key) {
    forall i, j | 0 <= i < |modules| && 0 <= j < |modules| && modules[i].name == k.name && modules[j].name == l.name ::
      i < j || (i == j && Le(k.filename, l.filename))
  }

  ghost predicate ItemsOrdered(modules: seq<ModuleMigration>, items: seq<Item>) {
    forall x, y | 0 <= x < y < |items| && items[x].File? && items[y].File? :: KeyLe(modules, items[x].key, items[y].key)
  }

  ghost predicate KeysOrdered(modules: seq<ModuleMigration>, ks: seq<Key>) {
    forall x, y | 0 <= x < y < |ks| :: KeyLe(modules, ks[x], ks[y])
  }

  lemma ListedAscending(m: ModuleMigration)
    ensures Sorted(ListSqlFiles(m.dir))
  {
    if m.dir.Entries? { SortSorted(SqlNames(m.dir.entries)); }
  }

  /** The files of module n, in order. */
  lemma ModuleOrdered(modules: seq<ModuleMigration>, n: nat)
    requires DistinctNames(modules) && n < |modules|
    ensures ItemsOrdered(modules, AllItems(modules[n]))
    ensures forall x | 0 <= x < |AllItems(modules[n])| && AllItems(modules[n])[x].File? ::
              AllItems(modules[n])[x].key.name == modules[n].name
  {
    var m := modules[n];
    var files := ListSqlFiles(m.dir);
    if !m.dir.Unreadable? {
      ListedAscending(m);
      forall x | 0 <= x < |files| ensures AllItems(m)[x] == ItemOf(m, files[x]) {
        ModuleItemAt(m, |files|, x);
      }
      forall x, y | 0 <= x < y < |files| && AllItems(m)[x].File? && AllItems(m)[y].File?
        ensures KeyLe(modules, AllItems(m)[x].key, AllItems(m)[y].key)
      {
        assert Le(files[x], files[y]);
      }
    }
  }

  ghost predicate NamedIn(modules: seq<ModuleMigration>, n: nat, items: seq<Item>)
    requires n <= |modules|
  {
    forall x | 0 <= x < |items| && items[x].File? :: exists i | 0 <= i < n :: modules[i].name == items[x].key.name
  }

  lemma AppendOrdered(modules: seq<ModuleMigration>, n: nat, front: seq<Item>, items: seq<Item>)
    requires DistinctNames(modules) && n < |modules|
    requires ItemsOrdered(modules, front) && NamedIn(modules, n, front)
    requires ItemsOrdered(modules, items)
    requires forall x | 0 <= x < |items| && items[x].File? :: items[x].key.name == modules[n].name
    ensures ItemsOrdered(modules, front + items) && NamedIn(modules, n + 1, front + items)
  {
    var all := front + items;
    forall x | 0 <= x < |all| && all[x].File? ensures exists i | 0 <= i < n + 1 :: modules[i].name == all[x].key.name {
      if x < |front| {
        var i :| 0 <= i < n && modules[i].name == front[x].key.name;
        assert modules[i].name == all[x].key.name;
      } else {
        assert modules[n].name == all[x].key.name;
      }
    }
    forall x, y | 0 <= x < y < |all| && all[x].File? && all[y].File? ensures KeyLe(modules, all[x].key, all[y].key) {
      if x < |front| <= y {
        var i :| 0 <= i < n && modules[i].name == front[x].key.name;
        assert all[y] == items[y - |front|];
      }
    }
  }

  lemma {:induction false} PlanOrdered(modules: seq<ModuleMigration>, n: nat)
    requires DistinctNames(modules) && n <= |modules|
    ensures ItemsOrdered(modules, Plan(modules[..n])) && NamedIn(modules, n, Plan(modules[..n]))
  {
    if n > 0 {
      PlanOrdered(modules, n - 1);
      ModuleOrdered(modules, n - 1);
      assert modules[..n][..n - 1] == modules[..n - 1];
      AppendOrdered(modules, n - 1, Plan(modules[..n - 1]), AllItems(modules[n - 1]));
    }
  }

  lemma {:induction false} PendingOrdered(modules: seq<ModuleMigration>, ledger: map<Key, Text>, items: seq<Item>)
    requires ItemsOrdered(modules, items)
    ensures KeysOrdered(modules, Pending(ledger, items))
  {
    if items != [] {
      var n := |items| - 1;
      var front, item := items[..n], items[n];
      PendingOrdered(modules, ledger, front);
      var ks := Pending(ledger, front);
      forall x | 0 <= x < |ks| && item.File? ensures KeyLe(modules, ks[x], item.key) {
        PendingHas(ledger, front, ks[x]);
        var y :| 0 <= y < n && front[y].File? && front[y].key == ks[x];
        assert KeyLe(modules, items[y].key, items[n].key);
      }
    }
  }

  lemma {:induction false} DedupeOrdered(modules: seq<ModuleMigration>, ks: seq<Key>)
    requires KeysOrdered(modules, ks)
    ensures KeysOrdered(modules, Dedupe(ks))
  {
    if ks != [] {
      var n := |ks| - 1;
      DedupeOrdered(modules, ks[..n]);
      var front := Dedupe(ks[..n]);
      forall x | 0 <= x < |front| ensures KeyLe(modules, front[x], ks[n]) {
        assert front[x] in ks[..n];
        var y :| 0 <= y < n && ks[y] == front[x];
        assert KeyLe(modules, ks[y], ks[n]);
      }
    }
  }

  lemma StrictlyBefore(modules: seq<ModuleMigration>, k: Key, l: Key, i: nat, j: nat)
    requires KeyLe(modules, k, l) && k != l
    requires i < |modules| && j < |modules| && modules[i].name == k.name && modules[j].name == l.name
    ensures var f, g := k.filename, l.filename;
            || i < j
            || (&& i == j && f != g
                && (f <= g || exists p :: 0 <= p < |f| && p < |g| && f[..p] == g[..p] && f[p] < g[p]))
  {
    LeMeans(k.filename, l.filename);
  }

  lemma DoneOrdered(failing: set<Key>, db: Db, modules: seq<ModuleMigration>) returns (done: seq<Key>)
    requires DistinctNames(modules) && Attempt(Mode(false, failing), db, modules).Some?
    ensures Called(Mode(false, failing), db, modules).effects == db.effects + done
    ensures KeysOrdered(modules, done) && Distinct(done)
  {
    var items := Plan(modules);
    ApplyDoes(failing, Progress(db, []), items);
    assert modules[..|modules|] == modules;
    PlanOrdered(modules, |modules|);
    PendingOrdered(modules, db.ledger, items);
    DedupeOrdered(modules, Pending(db.ledger, items));
    done := Dedupe(Pending(db.ledger, items));
  }

  /** In what order a successful apply executes: the modules as they are listed, and the files of
      each by the first unit in which their names differ. */
  lemma AppliesInOrder(failing: set<Key>, db: Db, modules: seq<ModuleMigration>)
    requires DistinctNames(modules) && Attempt(Mode(false, failing), db, modules).Some?
    ensures db.effects <= Called(Mode(false, failing), db, modules).effects
    ensures var done := Called(Mode(false, failing), db, modules).effects[|db.effects|..];
            forall x, y, i, j |
              && 0 <= x < y < |done| && 0 <= i < |modules| && 0 <= j < |modules|
              && modules[i].name == done[x].name && modules[j].name == done[y].name ::
              var f, g := done[x].filename, done[y].filename;
              || i < j
              || (&& i == j && f != g
                  && (f <= g || exists p :: 0 <= p < |f| && p < |g| && f[..p] == g[..p] && f[p] < g[p]))
  {
    var done := DoneOrdered(failing, db, modules);
    assert Called(Mode(false, failing), db, modules).effects[|db.effects|..] == done;
    forall x, y, i, j |
      && 0 <= x < y < |done| && 0 <= i < |modules| && 0 <= j < |modules|
      && modules[i].name == done[x].name && modules[j].name == done[y].name
      ensures var f, g := done[x].filename, done[y].filename;
              || i < j
              || (&& i == j && f != g
                  && (f <= g || exists p :: 0 <= p < |f| && p < |g| && f[..p] == g[..p] && f[p] < g[p]))
    {
      assert KeyLe(modules, done[x], done[y]) && done[x] != done[y];
      StrictlyBefore(modules, done[x], done[y], i, j);
    }
  }

  // ----- Sequences of calls -----

  datatype Call = Call(mode: Mode, modules: seq<ModuleMigration>)

  function After(db: Db, calls: seq<Call>): Db {
    if calls == [] then db
    else Called(calls[|calls| - 1].mode, After(db, calls[..|calls| - 1]), calls[|calls| - 1].modules)
  }

  ghost predicate Tallies(db: Db) {
    Distinct(db.effects) && forall k :: k in db.effects <==> k in db.ledger
  }

  lemma TalliesStep(mode: Mode, p: Progress, item: Item)
    requires Tallies(p.db) && Step(mode, p, item).Some?
    ensures Tallies(Step(mode, p, item).value.db) && Grows(p.db, Step(mode, p, item).value.db)
  {
    assert p.db.effects <= p.db.effects + [];
  }

  ghost predicate Grows(p: Db, q: Db) {
    p.effects <= q.effects && forall k | k in p.ledger :: k in q.ledger && q.ledger[k] == p.ledger[k]
  }

  lemma {:induction false} PassTallies(mode: Mode, p: Progress, items: seq<Item>)
    requires Tallies(p.db) && Pass(mode, p, items).Some?
    ensures Tallies(Pass(mode, p, items).value.db) && Grows(p.db, Pass(mode, p, items).value.db)
  {
    if items != [] {
      PassTallies(mode, p, items[..|items| - 1]);
      TalliesStep(mode, Pass(mode, p, items[..|items| - 1]).value, items[|items| - 1]);
    }
  }

  /** Over any sequence of calls, failing or not, each body takes effect at most once, exactly the
      recorded ones have, and a record is never changed. */
  lemma {:induction false} EachBodyOnce(db: Db, calls: seq<Call>)
    requires Tallies(db)
    ensures Tallies(After(db, calls)) && Grows(db, After(db, calls))
  {
    if calls != [] {
      var front, c := calls[..|calls| - 1], calls[|calls| - 1];
      EachBodyOnce(db, front);
      if Attempt(c.mode, After(db, front), c.modules).Some? {
        PassTallies(c.mode, Progress(After(db, front), []), Plan(c.modules));
      }
    }
  }
}
