/** The sliding-window rate limiter: one bucket per tenant, user and second, a window of
    60 000 ms, and a Retry-After computed from the buckets that will expire first. Times
    are epoch milliseconds; calls are serialised by the advisory lock. */
module RateLimit {
  const WINDOW_MS: int := 60_000

  datatype RowKey = RowKey(tenant: string, user: string, windowStart: nat)

  datatype Bucket = Bucket(tokensIn: int, tokensOut: int, turns: int)

  type Table = map<RowKey, Bucket>

  datatype Row = Row(windowStart: nat, bucket: Bucket)

  datatype Request = Request(tenant: string, user: string, estimate: nat, turnLimit: int, tpmLimit: int)

  function FloorToSecond(t: nat): nat {
    t / 1_000 * 1_000
  }

  /** `Math.ceil(ms / 1000)` */
  function CeilSeconds(ms: int): int {
    -(-ms / 1_000)
  }

  // ----- The active rows -----

  function Windows(t: Table, tenant: string, user: string, from: int, upTo: int): set<nat> {
    set k | k in t && k.tenant == tenant && k.user == user && from < k.windowStart <= upTo :: k.windowStart
  }

  ghost predicate IsLeast(m: nat, s: set<nat>) {
    m in s && forall x | x in s :: m <= x
  }

  lemma {:induction false} LeastExists(s: set<nat>, y: nat)
    requires y in s
    ensures exists m :: IsLeast(m, s)
  {
    var rest := s - {y};
    if z :| z in rest {
      LeastExists(rest, z);
      var m: nat :| IsLeast(m, rest);
      var least: nat := if m <= y then m else y;
      forall x | x in s ensures least <= x { assert x == y || x in rest; }
      assert IsLeast(least, s);
    } else {
      forall x | x in s ensures y <= x { assert x == y || x in rest; }
      assert IsLeast(y, s);
    }
  }

  function Least(s: set<nat>): (m: nat)
    requires s != {}
    ensures IsLeast(m, s)
  {
    var y :| y in s;
    LeastExists(s, y);
    assert exists m: nat :: IsLeast(m, s);
    var m :| m in s && forall x | x in s :: m <= x;
    m
  }

  ghost predicate Ascends(ws: seq<nat>) {
    forall i, j | 0 <= i < j < |ws| :: ws[i] < ws[j]
  }

  /** ORDER BY window_start ASC */
  function Ascending(s: set<nat>): (ws: seq<nat>)
    ensures forall x :: x in ws <==> x in s
    ensures Ascends(ws)
  {
    if s == {} then []
    else
      var m := Least(s);
      [m] + Ascending(s - {m})
  }

  lemma {:induction false} AscendingUnique(a: seq<nat>, b: seq<nat>)
    requires Ascends(a) && Ascends(b) && forall x: nat :: x in a <==> x in b
    ensures a == b
  {
    assert |b| > 0 ==> b[0] in b && b[0] in a;
    if |a| > 0 {
      assert a[0] in a && a[0] in b;
      assert a[0] == b[0];
      forall x: nat ensures x in a[1..] <==> x in b[1..] {
        assert x in a <==> x == a[0] || x in a[1..];
        assert x in b <==> x == b[0] || x in b[1..];
        assert a[0] !in a[1..] && b[0] !in b[1..];
      }
      AscendingUnique(a[1..], b[1..]);
    }
  }

  function ActiveWindows(t: Table, tenant: string, user: string, now: nat): seq<nat> {
    Ascending(Windows(t, tenant, user, now - WINDOW_MS, FloorToSecond(now)))
  }

  function RowsOf(t: Table, tenant: string, user: string, ws: seq<nat>): (rows: seq<Row>)
    requires forall w | w in ws :: RowKey(tenant, user, w) in t
    ensures |rows| == |ws|
    ensures forall i | 0 <= i < |ws| :: rows[i] == Row(ws[i], t[RowKey(tenant, user, ws[i])])
  {
    seq(|ws|, i requires 0 <= i < |ws| => Row(ws[i], t[RowKey(tenant, user, ws[i])]))
  }

  /** The SELECT under the lock. */
  function Active(t: Table, tenant: string, user: string, now: nat): seq<Row> {
    RowsOf(t, tenant, user, ActiveWindows(t, tenant, user, now))
  }

  function Turns(rows: seq<Row>): int {
    if rows == [] then 0 else rows[0].bucket.turns + Turns(rows[1..])
  }

  function Tokens(rows: seq<Row>): int {
    if rows == [] then 0 else rows[0].bucket.tokensIn + rows[0].bucket.tokensOut + Tokens(rows[1..])
  }

  predicate Admits(rows: seq<Row>, req: Request) {
    Turns(rows) + 1 <= req.turnLimit && Tokens(rows) + req.estimate <= req.tpmLimit
  }

  // ----- Retry-After -----

  /** The number of oldest rows that must expire before the request fits, if that helps. */
  function Relief(rows: seq<Row>, req: Request): (n: nat)
    ensures n <= |rows| + 1
  {
    if Admits(rows, req) then 0
    else if rows == [] then 1
    else 1 + Relief(rows[1..], req)
  }

  /** Waiting for the n oldest rows to leave the window. */
  function WaitFor(rows: seq<Row>, n: nat, now: nat): int
    requires 0 < n <= |rows|
  {
    CeilSeconds(rows[n - 1].windowStart + WINDOW_MS - now)
  }

  function RetryAfter(rows: seq<Row>, req: Request, now: nat): int {
    var n := Relief(rows, req);
    if 0 < n <= |rows| then
      var wait := WaitFor(rows, n, now);
      if wait < 1 then 1 else wait
    else CeilSeconds(WINDOW_MS)
  }

  /** The loop over running totals computes the relief point. */
  method RetryAfterSeconds(rows: seq<Row>, req: Request, now: nat) returns (seconds: int)
    requires !Admits(rows, req)
    ensures seconds == RetryAfter(rows, req, now)
  {
    var turns := Turns(rows);
    var tokens := Tokens(rows);
    var i := 0;
    while i < |rows|
      invariant 0 <= i <= |rows|
      invariant turns == Turns(rows[i..]) && tokens == Tokens(rows[i..])
      invariant !Admits(rows[i..], req)
      invariant Relief(rows, req) == i + Relief(rows[i..], req)
    {
      var b := rows[i].bucket;
      assert rows[i..][1..] == rows[i + 1..];
      turns := turns - b.turns;
      tokens := tokens - (b.tokensIn + b.tokensOut);
      if turns + 1 <= req.turnLimit && tokens + req.estimate <= req.tpmLimit {
        var expiresAt := rows[i].windowStart + WINDOW_MS;
        var wait := CeilSeconds(expiresAt - now);
        return if wait < 1 then 1 else wait;
      }
      i := i + 1;
    }
    return CeilSeconds(WINDOW_MS);
  }

  // ----- Reserving and committing -----

  datatype Verdict = Granted(windowStart: nat) | Refused(retryAfterSeconds: int)

  function Judge(t: Table, req: Request, now: nat): Verdict {
    var rows := Active(t, req.tenant, req.user, now);
    if Admits(rows, req) then Granted(FloorToSecond(now)) else Refused(RetryAfter(rows, req, now))
  }

  /** INSERT ... ON CONFLICT DO UPDATE */
  function Charge(t: Table, key: RowKey, estimate: int): Table {
    if key in t then t[key := t[key].(tokensIn := t[key].tokensIn + estimate, turns := t[key].turns + 1)]
    else t[key := Bucket(estimate, 0, 1)]
  }

  /** The commit's UPDATE; a missing row only logs a warning. */
  function Settle(t: Table, key: RowKey, estimate: int, actualIn: int, actualOut: int): Table {
    if key in t then
      t[key := t[key].(tokensIn := t[key].tokensIn + (actualIn - estimate), tokensOut := t[key].tokensOut + actualOut)]
    else t
  }

  class Limiter {
    var rows: Table

    constructor ()
      ensures rows == map[]
    {
      rows := map[];
    }

    method ReserveTurn(req: Request, now: nat) returns (v: Verdict)
      modifies this
      ensures v == Judge(old(rows), req, now)
      ensures rows == if v.Granted? then Charge(old(rows), RowKey(req.tenant, req.user, v.windowStart), req.estimate)
                      else old(rows)
      ensures v.Granted? ==>
                var key := RowKey(req.tenant, req.user, now - now % 1_000);
                var b := if key in old(rows) then old(rows)[key] else Bucket(0, 0, 0);
                rows == old(rows)[key := Bucket(b.tokensIn + req.estimate, b.tokensOut, b.turns + 1)]
    {
      var windowStart := FloorToSecond(now);
      var buckets := Active(rows, req.tenant, req.user, now);
      var turns, tokens := Turns(buckets), Tokens(buckets);
      if turns + 1 > req.turnLimit || tokens + req.estimate > req.tpmLimit {
        var seconds := RetryAfterSeconds(buckets, req, now);
        return Refused(seconds);
      }
      var key := RowKey(req.tenant, req.user, windowStart);
      if key in rows {
        var b := rows[key];
        rows := rows[key := b.(tokensIn := b.tokensIn + req.estimate, turns := b.turns + 1)];
      } else {
        rows := rows[key := Bucket(req.estimate, 0, 1)];
      }
      v := Granted(windowStart);
    }

    method CommitActualTokens(key: RowKey, estimate: int, actualIn: int, actualOut: int)
      modifies this
      ensures rows == Settle(old(rows), key, estimate, actualIn, actualOut)
      ensures rows == if key !in old(rows) then old(rows)
                      else
                        var b := old(rows)[key];
                        old(rows)[key := Bucket(b.tokensIn - estimate + actualIn, b.tokensOut + actualOut, b.turns)]
    {
      var delta := actualIn - estimate;
      if key in rows {
        var b := rows[key];
        rows := rows[key := b.(tokensIn := b.tokensIn + delta, tokensOut := b.tokensOut + actualOut)];
      }
    }
  }

  // ----- Whole runs -----

  datatype Commit = Open | Committed(tokensIn: nat, tokensOut: nat)

  /** A granted reservation and what became of it. */
  datatype Grant = Grant(req: Request, at: nat, commit: Commit)

  datatype State = State(table: Table, clock: nat, grants: seq<Grant>)

  datatype Event =
    | Reserve(req: Request, now: nat)
    | CommitGrant(index: nat, actualIn: nat, actualOut: nat)

  function KeyOf(g: Grant): RowKey {
    RowKey(g.req.tenant, g.req.user, FloorToSecond(g.at))
  }

  /** `now` does not go back in lock order; each reservation is committed at most once. */
  predicate Enabled(s: State, e: Event) {
    match e
    case Reserve(_, now) => s.clock <= now
    case CommitGrant(i, _, _) => i < |s.grants| && s.grants[i].commit.Open?
  }

  function Do(s: State, e: Event): State
    requires Enabled(s, e)
  {
    match e
    case Reserve(req, now) =>
      var v := Judge(s.table, req, now);
      if v.Granted? then
        State(Charge(s.table, RowKey(req.tenant, req.user, v.windowStart), req.estimate), now,
              s.grants + [Grant(req, now, Open)])
      else s.(clock := now)
    case CommitGrant(i, actualIn, actualOut) =>
      var g := s.grants[i];
      s.(table := Settle(s.table, KeyOf(g), g.req.estimate, actualIn, actualOut),
         grants := s.grants[i := g.(commit := Committed(actualIn, actualOut))])
  }

  predicate Runs(s: State, events: seq<Event>)
    decreases |events|
  {
    events == [] || (Enabled(s, events[0]) && Runs(Do(s, events[0]), events[1..]))
  }

  function After(s: State, events: seq<Event>): State
    requires Runs(s, events)
    decreases |events|
  {
    if events == [] then s else After(Do(s, events[0]), events[1..])
  }

  function Init(clock: nat): State {
    State(map[], clock, [])
  }

  // ----- What each bucket holds -----

  function OneTurn(g: Grant): int { 1 }

  function InTokens(g: Grant): int {
    if g.commit.Open? then g.req.estimate else g.commit.tokensIn
  }

  function OutTokens(g: Grant): int {
    if g.commit.Open? then 0 else g.commit.tokensOut
  }

  /** Sum of a weight over the grants charged to one row. */
  function SumFor(grants: seq<Grant>, key: RowKey, w: Grant -> int): int {
    if grants == [] then 0
    else
      var last := grants[|grants| - 1];
      SumFor(grants[..|grants| - 1], key, w) + (if KeyOf(last) == key then w(last) else 0)
  }

  ghost predicate Ledger(t: Table, grants: seq<Grant>) {
    && (forall k | k in t ::
          t[k] == Bucket(SumFor(grants, k, InTokens), SumFor(grants, k, OutTokens), SumFor(grants, k, OneTurn)))
    && (forall i | 0 <= i < |grants| :: KeyOf(grants[i]) in t)
    && (forall k | k in t :: exists i :: 0 <= i < |grants| && KeyOf(grants[i]) == k)
  }

  lemma SumForAppend(grants: seq<Grant>, g: Grant, key: RowKey, w: Grant -> int)
    ensures SumFor(grants + [g], key, w) == SumFor(grants, key, w) + (if KeyOf(g) == key then w(g) else 0)
  {
    assert (grants + [g])[..|grants|] == grants;
  }

  lemma {:induction false} SumForUpdate(grants: seq<Grant>, i: nat, g: Grant, key: RowKey, w: Grant -> int)
    requires i < |grants| && KeyOf(g) == KeyOf(grants[i])
    ensures SumFor(grants[i := g], key, w)
            == SumFor(grants, key, w) + (if KeyOf(g) == key then w(g) - w(grants[i]) else 0)
  {
    var n := |grants| - 1;
    if i == n {
      assert grants[i := g][..n] == grants[..n];
    } else {
      assert grants[i := g][..n] == grants[..n][i := g];
      SumForUpdate(grants[..n], i, g, key, w);
    }
  }

  lemma {:induction false} SumForAbsent(grants: seq<Grant>, key: RowKey, w: Grant -> int)
    requires forall i | 0 <= i < |grants| :: KeyOf(grants[i]) != key
    ensures SumFor(grants, key, w) == 0
  {
    if grants != [] { SumForAbsent(grants[..|grants| - 1], key, w); }
  }

  lemma LedgerReserve(t: Table, grants: seq<Grant>, g: Grant)
    requires Ledger(t, grants) && g.commit.Open?
    ensures Ledger(Charge(t, KeyOf(g), g.req.estimate), grants + [g])
  {
    var u := Charge(t, KeyOf(g), g.req.estimate);
    var all := grants + [g];
    forall k | k in u
      ensures u[k] == Bucket(SumFor(all, k, InTokens), SumFor(all, k, OutTokens), SumFor(all, k, OneTurn))
      ensures exists i :: 0 <= i < |all| && KeyOf(all[i]) == k
    {
      SumForAppend(grants, g, k, InTokens);
      SumForAppend(grants, g, k, OutTokens);
      SumForAppend(grants, g, k, OneTurn);
      if k == KeyOf(g) {
        assert KeyOf(all[|grants|]) == k;
        if k !in t {
          SumForAbsent(grants, k, InTokens);
          SumForAbsent(grants, k, OutTokens);
          SumForAbsent(grants, k, OneTurn);
        }
      } else {
        var i :| 0 <= i < |grants| && KeyOf(grants[i]) == k;
        assert KeyOf(all[i]) == k;
      }
    }
  }

  lemma LedgerCommit(t: Table, grants: seq<Grant>, i: nat, actualIn: nat, actualOut: nat)
    requires Ledger(t, grants) && i < |grants| && grants[i].commit.Open?
    ensures Ledger(Settle(t, KeyOf(grants[i]), grants[i].req.estimate, actualIn, actualOut),
                   grants[i := grants[i].(commit := Committed(actualIn, actualOut))])
  {
    var g := grants[i].(commit := Committed(actualIn, actualOut));
    var u := Settle(t, KeyOf(g), g.req.estimate, actualIn, actualOut);
    var all := grants[i := g];
    forall k | k in u
      ensures u[k] == Bucket(SumFor(all, k, InTokens), SumFor(all, k, OutTokens), SumFor(all, k, OneTurn))
      ensures exists j :: 0 <= j < |all| && KeyOf(all[j]) == k
    {
      SumForUpdate(grants, i, g, k, InTokens);
      SumForUpdate(grants, i, g, k, OutTokens);
      SumForUpdate(grants, i, g, k, OneTurn);
      var j :| 0 <= j < |grants| && KeyOf(grants[j]) == k;
      assert KeyOf(all[j]) == k;
    }
  }

  /** What holds after every run: the ledger, grants in time order, none after the clock. */
  ghost predicate Inv(s: State) {
    && Ledger(s.table, s.grants)
    && Ordered(s.grants, s.clock)
    && Fair(s.grants)
  }

  ghost predicate Ordered(grants: seq<Grant>, clock: nat) {
    && (forall i, j | 0 <= i <= j < |grants| :: grants[i].at <= grants[j].at)
    && (forall i | 0 <= i < |grants| :: grants[i].at <= clock)
  }

  /** Grants of one tenant and user made in [from, upTo]. */
  function CountWithin(grants: seq<Grant>, tenant: string, user: string, from: int, upTo: int): nat {
    if grants == [] then 0
    else
      var g := grants[|grants| - 1];
      CountWithin(grants[..|grants| - 1], tenant, user, from, upTo)
      + (if g.req.tenant == tenant && g.req.user == user && from <= g.at <= upTo then 1 else 0)
  }

  const SAFE_MS: int := 59_000

  /** No grant exceeded its own limit, counting back SAFE_MS from it. */
  ghost predicate Fair(grants: seq<Grant>) {
    forall j | 0 <= j < |grants| :: FairAt(grants, j)
  }

  ghost predicate FairAt(grants: seq<Grant>, j: nat)
    requires j < |grants|
  {
    var g := grants[j];
    CountWithin(grants[..j + 1], g.req.tenant, g.req.user, g.at - SAFE_MS, g.at) <= g.req.turnLimit
  }

  // ----- Active rows count grants -----

  /** Weight of the grants of one tenant and user whose bucket starts in (from, upTo]. */
  function WeightIn(grants: seq<Grant>, tenant: string, user: string, from: int, upTo: int, w: Grant -> int): int {
    if grants == [] then 0
    else
      var g := grants[|grants| - 1];
      WeightIn(grants[..|grants| - 1], tenant, user, from, upTo, w)
      + (if g.req.tenant == tenant && g.req.user == user && from < FloorToSecond(g.at) <= upTo then w(g) else 0)
  }

  function SumOver(ws: seq<nat>, grants: seq<Grant>, tenant: string, user: string, w: Grant -> int): int {
    if ws == [] then 0
    else SumFor(grants, RowKey(tenant, user, ws[0]), w) + SumOver(ws[1..], grants, tenant, user, w)
  }

  lemma {:induction false} RowsSum(t: Table, grants: seq<Grant>, tenant: string, user: string, ws: seq<nat>)
    requires Ledger(t, grants) && forall w | w in ws :: RowKey(tenant, user, w) in t
    ensures Turns(RowsOf(t, tenant, user, ws)) == SumOver(ws, grants, tenant, user, OneTurn)
    ensures Tokens(RowsOf(t, tenant, user, ws))
            == SumOver(ws, grants, tenant, user, InTokens) + SumOver(ws, grants, tenant, user, OutTokens)
  {
    if ws != [] {
      RowsSum(t, grants, tenant, user, ws[1..]);
      assert RowsOf(t, tenant, user, ws)[1..] == RowsOf(t, tenant, user, ws[1..]);
      assert RowKey(tenant, user, ws[0]) in t;
    }
  }

  lemma {:induction false} SumOverAppend(ws: seq<nat>, grants: seq<Grant>, g: Grant,
                                         tenant: string, user: string, w: Grant -> int)
    requires Ascends(ws)
    ensures SumOver(ws, grants + [g], tenant, user, w)
            == SumOver(ws, grants, tenant, user, w)
               + (if g.req.tenant == tenant && g.req.user == user && FloorToSecond(g.at) in ws then w(g) else 0)
  {
    if ws != [] {
      SumOverAppend(ws[1..], grants, g, tenant, user, w);
      SumForAppend(grants, g, RowKey(tenant, user, ws[0]), w);
      assert ws[0] !in ws[1..];
      assert FloorToSecond(g.at) in ws <==> FloorToSecond(g.at) == ws[0] || FloorToSecond(g.at) in ws[1..];
    }
  }

  lemma {:induction false} SumOverNone(ws: seq<nat>, tenant: string, user: string, w: Grant -> int)
    ensures SumOver(ws, [], tenant, user, w) == 0
  {
    if ws != [] { SumOverNone(ws[1..], tenant, user, w); }
  }

  lemma {:induction false} SumOverIsWeight(ws: seq<nat>, grants: seq<Grant>,
                                           tenant: string, user: string, from: int, upTo: int, w: Grant -> int)
    requires Ascends(ws)
    requires forall i | 0 <= i < |grants| && grants[i].req.tenant == tenant && grants[i].req.user == user ::
               FloorToSecond(grants[i].at) in ws <==> from < FloorToSecond(grants[i].at) <= upTo
    ensures SumOver(ws, grants, tenant, user, w) == WeightIn(grants, tenant, user, from, upTo, w)
  {
    if grants == [] {
      SumOverNone(ws, tenant, user, w);
    } else {
      var n := |grants| - 1;
      assert grants == grants[..n] + [grants[n]];
      SumOverIsWeight(ws, grants[..n], tenant, user, from, upTo, w);
      SumOverAppend(ws, grants[..n], grants[n], tenant, user, w);
    }
  }

  /** The sums the limiter computes over its active rows are sums over grants. */
  lemma ActiveSums(t: Table, grants: seq<Grant>, tenant: string, user: string, now: nat)
    requires Ledger(t, grants)
    ensures var rows := Active(t, tenant, user, now);
            var from, upTo := now - WINDOW_MS, FloorToSecond(now);
            && Turns(rows) == WeightIn(grants, tenant, user, from, upTo, OneTurn)
            && Tokens(rows) == WeightIn(grants, tenant, user, from, upTo, InTokens)
                               + WeightIn(grants, tenant, user, from, upTo, OutTokens)
  {
    var ws := ActiveWindows(t, tenant, user, now);
    var from, upTo := now - WINDOW_MS, FloorToSecond(now);
    RowsSum(t, grants, tenant, user, ws);
    forall i | 0 <= i < |grants| && grants[i].req.tenant == tenant && grants[i].req.user == user
      ensures FloorToSecond(grants[i].at) in ws <==> from < FloorToSecond(grants[i].at) <= upTo
    {
      assert KeyOf(grants[i]) in t;
    }
    SumOverIsWeight(ws, grants, tenant, user, from, upTo, OneTurn);
    SumOverIsWeight(ws, grants, tenant, user, from, upTo, InTokens);
    SumOverIsWeight(ws, grants, tenant, user, from, upTo, OutTokens);
  }

  lemma {:induction false} RecentAreActive(grants: seq<Grant>, tenant: string, user: string, now: nat)
    requires forall i | 0 <= i < |grants| :: grants[i].at <= now
    ensures CountWithin(grants, tenant, user, now - SAFE_MS, now)
            <= WeightIn(grants, tenant, user, now - WINDOW_MS, FloorToSecond(now), OneTurn)
  {
    if grants != [] { RecentAreActive(grants[..|grants| - 1], tenant, user, now); }
  }

  lemma {:induction false} CountIgnoresCommits(a: seq<Grant>, b: seq<Grant>,
                                               tenant: string, user: string, from: int, upTo: int)
    requires |a| == |b| && forall i | 0 <= i < |a| :: a[i].req == b[i].req && a[i].at == b[i].at
    ensures CountWithin(a, tenant, user, from, upTo) == CountWithin(b, tenant, user, from, upTo)
  {
    if a != [] { CountIgnoresCommits(a[..|a| - 1], b[..|b| - 1], tenant, user, from, upTo); }
  }

  /** The verdict in terms of past grants instead of rows. */
  ghost predicate Room(grants: seq<Grant>, req: Request, now: nat) {
    var from, upTo := now - WINDOW_MS, FloorToSecond(now);
    && WeightIn(grants, req.tenant, req.user, from, upTo, OneTurn) + 1 <= req.turnLimit
    && WeightIn(grants, req.tenant, req.user, from, upTo, InTokens)
       + WeightIn(grants, req.tenant, req.user, from, upTo, OutTokens) + req.estimate <= req.tpmLimit
  }

  /** A request is granted exactly when the turns and tokens of the grants whose buckets are
      in the window leave room for it. */
  lemma GrantedWhenRoom(t: Table, grants: seq<Grant>, req: Request, now: nat)
    requires Ledger(t, grants)
    ensures Judge(t, req, now).Granted? <==> Room(grants, req, now)
  {
    ActiveSums(t, grants, req.tenant, req.user, now);
  }

  lemma FairReserve(grants: seq<Grant>, g: Grant)
    requires Fair(grants) && Room(grants, g.req, g.at)
    requires forall i | 0 <= i < |grants| :: grants[i].at <= g.at
    ensures Fair(grants + [g])
  {
    var all := grants + [g];
    forall j | 0 <= j < |all| ensures FairAt(all, j) {
      if j < |grants| {
        assert all[..j + 1] == grants[..j + 1];
        assert FairAt(grants, j);
      } else {
        assert all[..j + 1] == all && all[..|grants|] == grants;
        RecentAreActive(grants, g.req.tenant, g.req.user, g.at);
      }
    }
  }

  lemma FairCommit(grants: seq<Grant>, i: nat, c: Commit)
    requires Fair(grants) && i < |grants|
    ensures Fair(grants[i := grants[i].(commit := c)])
  {
    var all := grants[i := grants[i].(commit := c)];
    forall j | 0 <= j < |all| ensures FairAt(all, j) {
      assert FairAt(grants, j);
      var g := grants[j];
      CountIgnoresCommits(all[..j + 1], grants[..j + 1], g.req.tenant, g.req.user, g.at - SAFE_MS, g.at);
    }
  }

  lemma OrderedAppend(grants: seq<Grant>, clock: nat, g: Grant)
    requires Ordered(grants, clock) && clock <= g.at
    ensures Ordered(grants + [g], g.at)
  {
  }

  lemma InvReserve(s: State, g: Grant)
    requires Inv(s) && s.clock <= g.at && Room(s.grants, g.req, g.at) && g.commit.Open?
    ensures Inv(State(Charge(s.table, KeyOf(g), g.req.estimate), g.at, s.grants + [g]))
  {
    LedgerReserve(s.table, s.grants, g);
    OrderedAppend(s.grants, s.clock, g);
    FairReserve(s.grants, g);
  }

  lemma InvStep(s: State, e: Event)
    requires Inv(s) && Enabled(s, e)
    ensures Inv(Do(s, e))
  {
    match e
    case Reserve(req, now) =>
      GrantedWhenRoom(s.table, s.grants, req, now);
      if Room(s.grants, req, now) { InvReserve(s, Grant(req, now, Open)); }
    case CommitGrant(i, actualIn, actualOut) => InvCommit(s, i, actualIn, actualOut);
  }

  lemma InvCommit(s: State, i: nat, actualIn: nat, actualOut: nat)
    requires Inv(s) && Enabled(s, CommitGrant(i, actualIn, actualOut))
    ensures Inv(Do(s, CommitGrant(i, actualIn, actualOut)))
  {
    LedgerCommit(s.table, s.grants, i, actualIn, actualOut);
    FairCommit(s.grants, i, Committed(actualIn, actualOut));
  }

  lemma {:induction false} InvRun(s: State, events: seq<Event>)
    requires Inv(s) && Runs(s, events)
    ensures Inv(After(s, events))
    decreases |events|
  {
    if events != [] {
      InvStep(s, events[0]);
      InvRun(Do(s, events[0]), events[1..]);
    }
  }

  /** Conservation: in every run, each bucket holds for its reservations the actual input
      tokens where committed and the estimate otherwise, the committed output tokens, and
      their number. */
  lemma BucketsSumTheirReservations(clock: nat, events: seq<Event>)
    requires Runs(Init(clock), events)
    ensures var s := After(Init(clock), events);
            && (forall k | k in s.table ::
                  && s.table[k].tokensIn == SumFor(s.grants, k, InTokens)
                  && s.table[k].tokensOut == SumFor(s.grants, k, OutTokens)
                  && s.table[k].turns == SumFor(s.grants, k, OneTurn))
            && (forall i | 0 <= i < |s.grants| :: KeyOf(s.grants[i]) in s.table)
  {
    InvRun(Init(clock), events);
  }

  // ----- The turn limit over real time -----

  lemma {:induction false} CountShrinks(grants: seq<Grant>, tenant: string, user: string,
                                        from: int, upTo: int, from': int, upTo': int)
    requires forall i | 0 <= i < |grants| && from <= grants[i].at <= upTo :: from' <= grants[i].at <= upTo'
    ensures CountWithin(grants, tenant, user, from, upTo) <= CountWithin(grants, tenant, user, from', upTo')
  {
    if grants != [] { CountShrinks(grants[..|grants| - 1], tenant, user, from, upTo, from', upTo'); }
  }

  /** No grant of the tenant and user in the interval was made under a higher limit. */
  ghost predicate LimitedTo(grants: seq<Grant>, tenant: string, user: string, from: int, upTo: int, limit: nat) {
    forall i | 0 <= i < |grants| && grants[i].req.tenant == tenant && grants[i].req.user == user
               && from <= grants[i].at <= upTo :: grants[i].req.turnLimit <= limit
  }

  lemma {:induction false} IntervalBound(grants: seq<Grant>, tenant: string, user: string,
                                         from: int, upTo: int, limit: nat)
    requires Fair(grants) && upTo - from <= SAFE_MS
    requires exists clock :: Ordered(grants, clock)
    requires LimitedTo(grants, tenant, user, from, upTo, limit)
    ensures CountWithin(grants, tenant, user, from, upTo) <= limit
  {
    if grants != [] {
      var n := |grants| - 1;
      var g := grants[n];
      if g.req.tenant == tenant && g.req.user == user && from <= g.at <= upTo {
        CountShrinks(grants, tenant, user, from, upTo, g.at - SAFE_MS, g.at);
        assert FairAt(grants, n);
        assert grants[..n + 1] == grants;
      } else {
        forall j | 0 <= j < n ensures FairAt(grants[..n], j) {
          assert FairAt(grants, j);
          assert grants[..n][..j + 1] == grants[..j + 1];
        }
        var clock :| Ordered(grants, clock);
        assert Ordered(grants[..n], clock);
        IntervalBound(grants[..n], tenant, user, from, upTo, limit);
      }
    }
  }

  /** In every run, whatever other tenants and users do, a closed interval of at most
      59 000 ms holds at most `limit` granted turns of one tenant and user. */
  lemma TurnLimitHolds(clock: nat, events: seq<Event>, tenant: string, user: string, from: int, upTo: int, limit: nat)
    requires Runs(Init(clock), events) && upTo - from <= 59_000
    requires LimitedTo(After(Init(clock), events).grants, tenant, user, from, upTo, limit)
    ensures CountWithin(After(Init(clock), events).grants, tenant, user, from, upTo) <= limit
  {
    InvRun(Init(clock), events);
    IntervalBound(After(Init(clock), events).grants, tenant, user, from, upTo, limit);
  }

  // ----- The token limit over real time -----

  function UsedTokens(g: Grant): int {
    InTokens(g) + OutTokens(g)
  }

  /** What a commit reports beyond the estimate the request was let in with. */
  function Overshoot(g: Grant): int {
    if UsedTokens(g) > g.req.estimate then UsedTokens(g) - g.req.estimate else 0
  }

  function NetTokens(g: Grant): int {
    UsedTokens(g) - Overshoot(g)
  }

  /** Sum of a weight over the grants of one tenant and user made in [from, upTo]. */
  function SumWithin(grants: seq<Grant>, tenant: string, user: string, from: int, upTo: int, w: Grant -> int): int {
    if grants == [] then 0
    else
      var g := grants[|grants| - 1];
      SumWithin(grants[..|grants| - 1], tenant, user, from, upTo, w)
      + (if g.req.tenant == tenant && g.req.user == user && from <= g.at <= upTo then w(g) else 0)
  }

  /** No grant took the tokens, up to what was estimated, beyond its own limit, counting back
      SAFE_MS from it. */
  ghost predicate Thrifty(grants: seq<Grant>) {
    forall j | 0 <= j < |grants| :: ThriftyAt(grants, j)
  }

  ghost predicate ThriftyAt(grants: seq<Grant>, j: nat)
    requires j < |grants|
  {
    var g := grants[j];
    SumWithin(grants[..j + 1], g.req.tenant, g.req.user, g.at - SAFE_MS, g.at, NetTokens) <= g.req.tpmLimit
  }

  lemma {:induction false} RecentTokensAreActive(grants: seq<Grant>, tenant: string, user: string, now: nat)
    requires forall i | 0 <= i < |grants| :: grants[i].at <= now
    ensures SumWithin(grants, tenant, user, now - SAFE_MS, now, NetTokens)
            <= WeightIn(grants, tenant, user, now - WINDOW_MS, FloorToSecond(now), InTokens)
               + WeightIn(grants, tenant, user, now - WINDOW_MS, FloorToSecond(now), OutTokens)
  {
    if grants != [] { RecentTokensAreActive(grants[..|grants| - 1], tenant, user, now); }
  }

  lemma ThriftyReserve(grants: seq<Grant>, g: Grant)
    requires Thrifty(grants) && Room(grants, g.req, g.at) && g.commit.Open?
    requires forall i | 0 <= i < |grants| :: grants[i].at <= g.at
    ensures Thrifty(grants + [g])
  {
    var all := grants + [g];
    forall j | 0 <= j < |all| ensures ThriftyAt(all, j) {
      if j < |grants| {
        assert all[..j + 1] == grants[..j + 1];
        assert ThriftyAt(grants, j);
      } else {
        assert all[..j + 1] == all && all[..|grants|] == grants;
        RecentTokensAreActive(grants, g.req.tenant, g.req.user, g.at);
      }
    }
  }

  /** `b` is `a` with further commits. */
  ghost predicate CommitsOnly(a: seq<Grant>, b: seq<Grant>) {
    && |a| == |b|
    && forall i | 0 <= i < |a| :: b[i] == a[i] || (a[i].commit.Open? && b[i] == a[i].(commit := b[i].commit))
  }

  /** A commit never adds to what was estimated. */
  lemma {:induction false} CommitsSave(a: seq<Grant>, b: seq<Grant>,
                                       tenant: string, user: string, from: int, upTo: int)
    requires CommitsOnly(a, b)
    ensures SumWithin(b, tenant, user, from, upTo, NetTokens) <= SumWithin(a, tenant, user, from, upTo, NetTokens)
  {
    if a != [] { CommitsSave(a[..|a| - 1], b[..|b| - 1], tenant, user, from, upTo); }
  }

  lemma ThriftyCommit(grants: seq<Grant>, i: nat, c: Commit)
    requires Thrifty(grants) && i < |grants| && grants[i].commit.Open?
    ensures Thrifty(grants[i := grants[i].(commit := c)])
  {
    var all := grants[i := grants[i].(commit := c)];
    forall j | 0 <= j < |all| ensures ThriftyAt(all, j) {
      assert ThriftyAt(grants, j);
      var g := grants[j];
      CommitsSave(grants[..j + 1], all[..j + 1], g.req.tenant, g.req.user, g.at - SAFE_MS, g.at);
    }
  }

  lemma ThriftyStep(s: State, e: Event)
    requires Inv(s) && Thrifty(s.grants) && Enabled(s, e)
    ensures Thrifty(Do(s, e).grants)
  {
    match e
    case Reserve(req, now) =>
      GrantedWhenRoom(s.table, s.grants, req, now);
      if Room(s.grants, req, now) { ThriftyReserve(s.grants, Grant(req, now, Open)); }
    case CommitGrant(i, actualIn, actualOut) => ThriftyCommit(s.grants, i, Committed(actualIn, actualOut));
  }

  lemma {:induction false} ThriftyRun(s: State, events: seq<Event>)
    requires Inv(s) && Thrifty(s.grants) && Runs(s, events)
    ensures Thrifty(After(s, events).grants)
    decreases |events|
  {
    if events != [] {
      InvStep(s, events[0]);
      ThriftyStep(s, events[0]);
      ThriftyRun(Do(s, events[0]), events[1..]);
    }
  }

  lemma {:induction false} TokensShrink(grants: seq<Grant>, tenant: string, user: string,
                                        from: int, upTo: int, from': int, upTo': int)
    requires forall i | 0 <= i < |grants| && from <= grants[i].at <= upTo :: from' <= grants[i].at <= upTo'
    ensures SumWithin(grants, tenant, user, from, upTo, NetTokens)
            <= SumWithin(grants, tenant, user, from', upTo', NetTokens)
  {
    if grants != [] { TokensShrink(grants[..|grants| - 1], tenant, user, from, upTo, from', upTo'); }
  }

  /** No grant of the tenant and user in the interval was made under a higher token limit. */
  ghost predicate TokenLimitedTo(grants: seq<Grant>, tenant: string, user: string, from: int, upTo: int, limit: nat) {
    forall i | 0 <= i < |grants| && grants[i].req.tenant == tenant && grants[i].req.user == user
               && from <= grants[i].at <= upTo :: grants[i].req.tpmLimit <= limit
  }

  lemma {:induction false} TokenBound(grants: seq<Grant>, tenant: string, user: string,
                                      from: int, upTo: int, limit: nat)
    requires Thrifty(grants) && upTo - from <= SAFE_MS
    requires exists clock :: Ordered(grants, clock)
    requires TokenLimitedTo(grants, tenant, user, from, upTo, limit)
    ensures SumWithin(grants, tenant, user, from, upTo, NetTokens) <= limit
  {
    if grants != [] {
      var n := |grants| - 1;
      var g := grants[n];
      if g.req.tenant == tenant && g.req.user == user && from <= g.at <= upTo {
        TokensShrink(grants, tenant, user, from, upTo, g.at - SAFE_MS, g.at);
        assert ThriftyAt(grants, n);
        assert grants[..n + 1] == grants;
      } else {
        forall j | 0 <= j < n ensures ThriftyAt(grants[..n], j) {
          assert ThriftyAt(grants, j);
          assert grants[..n][..j + 1] == grants[..j + 1];
        }
        var clock :| Ordered(grants, clock);
        assert Ordered(grants[..n], clock);
        TokenBound(grants[..n], tenant, user, from, upTo, limit);
      }
    }
  }

  lemma {:induction false} NetAndOvershoot(grants: seq<Grant>, tenant: string, user: string, from: int, upTo: int)
    ensures SumWithin(grants, tenant, user, from, upTo, UsedTokens)
            == SumWithin(grants, tenant, user, from, upTo, NetTokens)
               + SumWithin(grants, tenant, user, from, upTo, Overshoot)
  {
    if grants != [] { NetAndOvershoot(grants[..|grants| - 1], tenant, user, from, upTo); }
  }

  lemma {:induction false} NoOvershoot(grants: seq<Grant>, tenant: string, user: string, from: int, upTo: int)
    requires forall i | 0 <= i < |grants| :: UsedTokens(grants[i]) <= grants[i].req.estimate
    ensures SumWithin(grants, tenant, user, from, upTo, Overshoot) == 0
  {
    if grants != [] { NoOvershoot(grants[..|grants| - 1], tenant, user, from, upTo); }
  }

  /** In every run a closed interval of at most 59 000 ms holds no more tokens of one tenant and
      user than `limit` and what commits reported beyond their estimates; so no more than `limit`
      if no commit exceeds its estimate. */
  lemma TokenLimitHolds(clock: nat, events: seq<Event>, tenant: string, user: string, from: int, upTo: int, limit: nat)
    requires Runs(Init(clock), events) && upTo - from <= 59_000
    requires TokenLimitedTo(After(Init(clock), events).grants, tenant, user, from, upTo, limit)
    ensures var grants := After(Init(clock), events).grants;
            && SumWithin(grants, tenant, user, from, upTo, UsedTokens)
               <= limit + SumWithin(grants, tenant, user, from, upTo, Overshoot)
            && ((forall i | 0 <= i < |grants| :: UsedTokens(grants[i]) <= grants[i].req.estimate)
                ==> SumWithin(grants, tenant, user, from, upTo, UsedTokens) <= limit)
  {
    var grants := After(Init(clock), events).grants;
    InvRun(Init(clock), events);
    ThriftyRun(Init(clock), events);
    TokenBound(grants, tenant, user, from, upTo, limit);
    NetAndOvershoot(grants, tenant, user, from, upTo);
    if forall i | 0 <= i < |grants| :: UsedTokens(grants[i]) <= grants[i].req.estimate {
      NoOvershoot(grants, tenant, user, from, upTo);
    }
  }

  /** The overshoot is reached: a request that uses its whole limit as its estimate, and a commit
      that reports more. */
  lemma OvershootIsReached(req: Request, at: nat, more: nat) returns (events: seq<Event>)
    requires req.turnLimit >= 1 && req.estimate == req.tpmLimit
    ensures Runs(Init(at), events)
    ensures var grants := After(Init(at), events).grants;
            && TokenLimitedTo(grants, req.tenant, req.user, at, at, req.estimate)
            && SumWithin(grants, req.tenant, req.user, at, at, UsedTokens) == req.tpmLimit + more
            && SumWithin(grants, req.tenant, req.user, at, at, Overshoot) == more
  {
    GrantedWhenRoom(map[], [], req, at);
    var reserve, commit := Reserve(req, at), CommitGrant(0, req.estimate + more, 0);
    var s1 := Do(Init(at), reserve);
    assert s1.grants == [Grant(req, at, Open)];
    var s2 := Do(s1, commit);
    var c := Grant(req, at, Committed(req.estimate + more, 0));
    assert s2.grants == [c] && [c][..0] == [];
    events := [reserve, commit];
    assert events[1..] == [commit] && events[1..][1..] == [];
    assert After(Init(at), events) == After(s1, events[1..]) == After(s2, events[1..][1..]) == s2;
  }

  // ----- 59 000 ms cannot be improved -----

  lemma {:induction false} RunsSnoc(s: State, events: seq<Event>, e: Event)
    requires Runs(s, events) && Enabled(After(s, events), e)
    ensures Runs(s, events + [e]) && After(s, events + [e]) == Do(After(s, events), e)
    decreases |events|
  {
    if events == [] {
      assert events + [e] == [e] && [e][1..] == [];
    } else {
      RunsSnoc(Do(s, events[0]), events[1..], e);
      assert (events + [e])[1..] == events[1..] + [e];
    }
  }

  /** With room, a reservation is recorded. */
  lemma ReserveGranted(s: State, req: Request, now: nat)
    requires Inv(s) && s.clock <= now && Room(s.grants, req, now)
    ensures Enabled(s, Reserve(req, now))
    ensures Do(s, Reserve(req, now)).grants == s.grants + [Grant(req, now, Open)]
    ensures Do(s, Reserve(req, now)).clock == now
  {
    GrantedWhenRoom(s.table, s.grants, req, now);
  }

  ghost predicate Uniform(grants: seq<Grant>, req: Request, at: nat, n: nat) {
    |grants| == n && forall i | 0 <= i < n :: grants[i] == Grant(req, at, Open)
  }

  lemma {:induction false} UniformCounts(grants: seq<Grant>, req: Request, at: nat, n: nat, from: int, upTo: int)
    requires Uniform(grants, req, at, n) && req.estimate == 0
    ensures CountWithin(grants, req.tenant, req.user, from, upTo) == if from <= at <= upTo then n else 0
    ensures WeightIn(grants, req.tenant, req.user, from, upTo, OneTurn)
            == if from < FloorToSecond(at) <= upTo then n else 0
    ensures WeightIn(grants, req.tenant, req.user, from, upTo, InTokens) == 0
    ensures WeightIn(grants, req.tenant, req.user, from, upTo, OutTokens) == 0
  {
    if grants != [] { UniformCounts(grants[..n - 1], req, at, n - 1, from, upTo); }
  }

  /** n turns at one moment, all granted. */
  lemma {:induction false} Burst(req: Request, at: nat, n: nat) returns (events: seq<Event>)
    requires req.estimate == 0 && req.tpmLimit == 0 && n <= req.turnLimit
    ensures Runs(Init(0), events)
    ensures Uniform(After(Init(0), events).grants, req, at, n)
    ensures After(Init(0), events).clock <= at
  {
    if n == 0 {
      events := [];
    } else {
      events := Burst(req, at, n - 1);
      InvRun(Init(0), events);
      var s := After(Init(0), events);
      UniformCounts(s.grants, req, at, n - 1, at - WINDOW_MS, FloorToSecond(at));
      ReserveGranted(s, req, at);
      RunsSnoc(Init(0), events, Reserve(req, at));
      events := events + [Reserve(req, at)];
    }
  }

  lemma OneMoreCounts(grants: seq<Grant>, req: Request, at: nat, limit: nat, late: nat)
    requires Uniform(grants, req, at, limit) && at <= late && req.estimate == 0
    ensures CountWithin(grants + [Grant(req, late, Open)], req.tenant, req.user, at, late) == limit + 1
  {
    UniformCounts(grants, req, at, limit, at, late);
    assert (grants + [Grant(req, late, Open)])[..limit] == grants;
  }

  /** 59 000 is tight: for every limit some run has one grant more than the limit inside a
      closed interval of 59 001 ms, because buckets are floored to the second. */
  lemma LongerIntervalOverruns(limit: nat) returns (events: seq<Event>)
    requires limit >= 1
    ensures Runs(Init(0), events)
    ensures LimitedTo(After(Init(0), events).grants, "t", "u", 999, 60_000, limit)
    ensures CountWithin(After(Init(0), events).grants, "t", "u", 999, 60_000) == limit + 1
  {
    var req := Request("t", "u", 0, limit, 0);
    var late := 999 + SAFE_MS + 1;
    events := Burst(req, 999, limit);
    InvRun(Init(0), events);
    var s := After(Init(0), events);
    OneMoreGranted(s, req, limit, late);
    RunsSnoc(Init(0), events, Reserve(req, late));
    events := events + [Reserve(req, late)];
  }

  lemma OneMoreGranted(s: State, req: Request, limit: nat, late: nat)
    requires Inv(s) && Uniform(s.grants, req, 999, limit) && s.clock <= 999
    requires limit >= 1 && req == Request("t", "u", 0, limit, 0) && late == 999 + SAFE_MS + 1
    ensures Enabled(s, Reserve(req, late))
    ensures LimitedTo(Do(s, Reserve(req, late)).grants, "t", "u", 999, late, limit)
    ensures CountWithin(Do(s, Reserve(req, late)).grants, "t", "u", 999, late) == limit + 1
  {
    UniformCounts(s.grants, req, 999, limit, late - WINDOW_MS, FloorToSecond(late));
    ReserveGranted(s, req, late);
    OneMoreCounts(s.grants, req, 999, limit, late);
  }

  // ----- Retry-After is exact -----

  /** All rows of the tenant and user start at a whole second not after `now`. */
  ghost predicate Settled(t: Table, tenant: string, user: string, now: nat) {
    forall k | k in t && k.tenant == tenant && k.user == user :: k.windowStart % 1_000 == 0 && k.windowStart <= now
  }

  ghost predicate AscendingRows(rows: seq<Row>) {
    forall i, j | 0 <= i < j < |rows| :: rows[i].windowStart < rows[j].windowStart
  }

  lemma WindowMember(t: Table, tenant: string, user: string, from: int, upTo: int, x: nat)
    ensures x in Windows(t, tenant, user, from, upTo) <==> RowKey(tenant, user, x) in t && from < x <= upTo
  {
    if RowKey(tenant, user, x) in t && from < x <= upTo {
      assert RowKey(tenant, user, x).windowStart == x;
    }
  }

  lemma SettledMember(t: Table, tenant: string, user: string, now: nat, later: nat, x: nat)
    requires Settled(t, tenant, user, now) && now <= later
    ensures x in ActiveWindows(t, tenant, user, later)
            <==> x in ActiveWindows(t, tenant, user, now) && x > later - WINDOW_MS
  {
    WindowMember(t, tenant, user, now - WINDOW_MS, FloorToSecond(now), x);
    WindowMember(t, tenant, user, later - WINDOW_MS, FloorToSecond(later), x);
    if RowKey(tenant, user, x) in t { assert x % 1_000 == 0 && x <= now; }
  }

  lemma SuffixByMembers(us: seq<nat>, ws: seq<nat>, j: nat, cutoff: int)
    requires Ascends(us) && Ascends(ws) && j <= |ws|
    requires forall x: nat :: x in us <==> x in ws && x > cutoff
    requires forall i | 0 <= i < j :: ws[i] <= cutoff
    requires forall i | j <= i < |ws| :: ws[i] > cutoff
    ensures us == ws[j..]
  {
    forall x: nat ensures x in ws[j..] <==> x in ws && x > cutoff {
      if x in ws && x > cutoff {
        var i :| 0 <= i < |ws| && ws[i] == x;
        assert ws[j..][i - j] == x;
      }
    }
    AscendingUnique(us, ws[j..]);
  }

  ghost predicate DropsTo(t: Table, tenant: string, user: string, later: nat, rows: seq<Row>, j: nat) {
    j <= |rows| && Active(t, tenant, user, later) == rows[j..]
  }

  /** While nothing is written, time only drops rows from the front: exactly those whose
      start has fallen out of the window. */
  lemma LaterRows(t: Table, tenant: string, user: string, now: nat, later: nat, rows: seq<Row>, j: nat)
    requires Settled(t, tenant, user, now) && now <= later
    requires rows == Active(t, tenant, user, now) && Split(rows, j, later - WINDOW_MS)
    ensures DropsTo(t, tenant, user, later, rows, j)
  {
    var ws := ActiveWindows(t, tenant, user, now);
    assert forall i | 0 <= i < |ws| :: rows[i].windowStart == ws[i];
    LaterWindows(t, tenant, user, now, later, ws, j);
  }

  lemma LaterWindows(t: Table, tenant: string, user: string, now: nat, later: nat, ws: seq<nat>, j: nat)
    requires Settled(t, tenant, user, now) && now <= later
    requires ws == ActiveWindows(t, tenant, user, now) && j <= |ws|
    requires forall i | 0 <= i < j :: ws[i] <= later - WINDOW_MS
    requires forall i | j <= i < |ws| :: ws[i] > later - WINDOW_MS
    ensures ActiveWindows(t, tenant, user, later) == ws[j..]
  {
    forall x: nat ensures x in ActiveWindows(t, tenant, user, later) <==> x in ws && x > later - WINDOW_MS {
      SettledMember(t, tenant, user, now, later, x);
    }
    SuffixByMembers(ActiveWindows(t, tenant, user, later), ws, j, later - WINDOW_MS);
  }

  /** The first j rows start by `cutoff` and the others later. */
  ghost predicate Split(rows: seq<Row>, j: nat, cutoff: int) {
    && j <= |rows|
    && (forall i | 0 <= i < j :: rows[i].windowStart <= cutoff)
    && (forall i | j <= i < |rows| :: rows[i].windowStart > cutoff)
  }

  /** What the active rows look like. */
  ghost predicate Placed(rows: seq<Row>, now: nat) {
    && AscendingRows(rows)
    && forall i | 0 <= i < |rows| :: rows[i].windowStart % 1_000 == 0 && now - WINDOW_MS < rows[i].windowStart <= now
  }

  lemma ActivePlaced(t: Table, tenant: string, user: string, now: nat)
    requires Settled(t, tenant, user, now)
    ensures Placed(Active(t, tenant, user, now), now)
  {
    var ws := ActiveWindows(t, tenant, user, now);
    var rows := Active(t, tenant, user, now);
    forall i | 0 <= i < |rows|
      ensures rows[i].windowStart % 1_000 == 0 && now - WINDOW_MS < rows[i].windowStart <= now
    {
      assert ws[i] in ws;
      assert RowKey(tenant, user, ws[i]) in t;
    }
  }

  /** The least number of old rows to drop before the request fits, if any number does. */
  lemma {:induction false} ReliefIsFirst(rows: seq<Row>, req: Request)
    ensures var n := Relief(rows, req);
            && (n <= |rows| ==> Admits(rows[n..], req))
            && (forall k | 0 <= k < n && k <= |rows| :: !Admits(rows[k..], req))
  {
    if !Admits(rows, req) && rows != [] {
      ReliefIsFirst(rows[1..], req);
      var n := Relief(rows, req);
      if n <= |rows| { assert rows[1..][n - 1..] == rows[n..]; }
      forall k | 0 <= k < n && k <= |rows| ensures !Admits(rows[k..], req) {
        if k == 0 { assert rows[0..] == rows; } else { assert rows[1..][k - 1..] == rows[k..]; }
      }
    } else {
      assert rows[0..] == rows;
    }
  }

  /** Just after `wait` seconds the n-th row is the last one gone. */
  lemma SplitAtWait(rows: seq<Row>, now: nat, n: nat)
    requires Placed(rows, now) && 0 < n <= |rows|
    ensures 1 <= WaitFor(rows, n, now) <= 60
    ensures Split(rows, n, now + 1_000 * WaitFor(rows, n, now) - WINDOW_MS)
  {
    forall i | n <= i < |rows| ensures rows[i].windowStart >= rows[n - 1].windowStart + 1_000 {
      assert rows[n - 1].windowStart < rows[i].windowStart;
    }
  }

  /** Before that it is still there. */
  lemma SplitBeforeWait(rows: seq<Row>, now: nat, n: nat, seconds: nat) returns (j: nat)
    requires Placed(rows, now) && 0 < n <= |rows| && seconds < WaitFor(rows, n, now)
    ensures j < n && Split(rows, j, now + 1_000 * seconds - WINDOW_MS)
  {
    var cutoff := now + 1_000 * seconds - WINDOW_MS;
    j := Expired(rows, cutoff);
    ExpiredSplits(rows, cutoff);
    assert rows[n - 1].windowStart > cutoff;
  }

  lemma WaitSplits(rows: seq<Row>, now: nat, n: nat, seconds: nat, later: nat) returns (j: nat)
    requires Placed(rows, now) && 0 < n <= |rows| && seconds <= WaitFor(rows, n, now)
    requires later == now + 1_000 * seconds
    ensures Split(rows, j, later - WINDOW_MS)
    ensures j <= n && (j == n <==> seconds == WaitFor(rows, n, now))
  {
    if seconds == WaitFor(rows, n, now) {
      SplitAtWait(rows, now, n);
      j := n;
    } else {
      j := SplitBeforeWait(rows, now, n, seconds);
    }
  }

  lemma ReliefDecides(rows: seq<Row>, req: Request, j: nat)
    requires j <= Relief(rows, req) <= |rows|
    ensures Admits(rows[j..], req) <==> j == Relief(rows, req)
  {
    ReliefIsFirst(rows, req);
  }

  /** After so many seconds, the active rows have lost at most the rows before the relief
      point, and lost all of those just when the wait is over. */
  lemma WaitDrops(t: Table, tenant: string, user: string, now: nat, seconds: nat, later: nat, rows: seq<Row>, n: nat)
    returns (j: nat)
    requires Settled(t, tenant, user, now) && rows == Active(t, tenant, user, now)
    requires 0 < n <= |rows| && seconds <= WaitFor(rows, n, now) && later == now + 1_000 * seconds
    ensures j <= n && DropsTo(t, tenant, user, later, rows, j)
    ensures j == n <==> seconds == WaitFor(rows, n, now)
  {
    assert Placed(rows, now) by { ActivePlaced(t, tenant, user, now); }
    j := WaitSplits(rows, now, n, seconds, later);
    LaterRows(t, tenant, user, now, later, rows, j);
  }

  function Expired(rows: seq<Row>, cutoff: int): nat {
    if rows == [] || rows[0].windowStart > cutoff then 0 else 1 + Expired(rows[1..], cutoff)
  }

  lemma {:induction false} ExpiredSplits(rows: seq<Row>, cutoff: int)
    requires AscendingRows(rows)
    ensures Split(rows, Expired(rows, cutoff), cutoff)
  {
    if rows != [] && rows[0].windowStart <= cutoff {
      ExpiredSplits(rows[1..], cutoff);
      var j := Expired(rows, cutoff);
      forall i | 0 <= i < |rows| ensures if i < j then rows[i].windowStart <= cutoff else rows[i].windowStart > cutoff {
        if i > 0 { assert rows[i] == rows[1..][i - 1]; }
      }
    }
  }

  /** Some wait can help: the request fits an empty window. */
  predicate Satisfiable(req: Request) {
    1 <= req.turnLimit && req.estimate <= req.tpmLimit
  }

  lemma {:induction false} WeightsAreNatural(grants: seq<Grant>, tenant: string, user: string, from: int, upTo: int)
    ensures WeightIn(grants, tenant, user, from, upTo, OneTurn) >= 0
    ensures WeightIn(grants, tenant, user, from, upTo, InTokens) >= 0
    ensures WeightIn(grants, tenant, user, from, upTo, OutTokens) >= 0
  {
    if grants != [] { WeightsAreNatural(grants[..|grants| - 1], tenant, user, from, upTo); }
  }

  /** A request that does not fit an empty window is refused in every run at every time. */
  lemma UnsatisfiableNeverGranted(clock: nat, events: seq<Event>, req: Request, now: nat)
    requires Runs(Init(clock), events) && !Satisfiable(req)
    ensures Judge(After(Init(clock), events).table, req, now).Refused?
  {
    InvRun(Init(clock), events);
    var s := After(Init(clock), events);
    GrantedWhenRoom(s.table, s.grants, req, now);
    WeightsAreNatural(s.grants, req.tenant, req.user, now - WINDOW_MS, FloorToSecond(now));
  }

  lemma SettledAfter(s: State, tenant: string, user: string, now: nat)
    requires Inv(s) && s.clock <= now
    ensures Settled(s.table, tenant, user, now)
  {
    forall k | k in s.table ensures k.windowStart % 1_000 == 0 && k.windowStart <= now {
      var i := GrantOf(s.table, s.grants, k);
      WindowSettled(s.grants[i]);
    }
  }

  lemma GrantOf(t: Table, grants: seq<Grant>, k: RowKey) returns (i: nat)
    requires Ledger(t, grants) && k in t
    ensures i < |grants| && KeyOf(grants[i]) == k
  {
    i :| i < |grants| && KeyOf(grants[i]) == k;
  }

  lemma WindowSettled(g: Grant)
    ensures KeyOf(g).windowStart % 1_000 == 0 && KeyOf(g).windowStart <= g.at
  {
  }

  /** A request that fits an empty window has a relief row, and the wait for it is what a
      refusal reports. */
  lemma SatisfiableHasRelief(s: State, req: Request, now: nat, rows: seq<Row>)
    requires Inv(s) && s.clock <= now && rows == Active(s.table, req.tenant, req.user, now)
    requires !Admits(rows, req)
    ensures Satisfiable(req) ==> 0 < Relief(rows, req) <= |rows|
    ensures 0 < Relief(rows, req) <= |rows| ==>
              && RetryAfter(rows, req, now) == WaitFor(rows, Relief(rows, req), now)
              && 1 <= RetryAfter(rows, req, now) <= 60
    ensures Relief(rows, req) > |rows| ==> RetryAfter(rows, req, now) == 60
  {
    ReliefIsFirst(rows, req);
    SettledAfter(s, req.tenant, req.user, now);
    ActivePlaced(s.table, req.tenant, req.user, now);
    var n := Relief(rows, req);
    if n <= |rows| {
      assert rows[0..] == rows;
      SplitAtWait(rows, now, n);
    } else {
      assert !Admits(rows[|rows|..], req);
    }
  }

  /** Retry-After is exact. A refusal after any run gives a number of seconds in 1..60. If
      the request can be granted at all and nothing else happens, it is granted after just
      that many seconds and refused after any smaller whole number of them. */
  lemma RetryAfterIsExact(clock: nat, events: seq<Event>, req: Request, now: nat, k: nat, later: nat)
    requires Runs(Init(clock), events) && After(Init(clock), events).clock <= now
    requires Judge(After(Init(clock), events).table, req, now).Refused? && later == now + 1_000 * k
    ensures var t := After(Init(clock), events).table;
            var wait := Judge(t, req, now).retryAfterSeconds;
            && 1 <= wait <= 60
            && (Satisfiable(req) && k <= wait ==> (Judge(t, req, later).Granted? <==> k == wait))
  {
    InvRun(Init(clock), events);
    var s := After(Init(clock), events);
    var rows := Active(s.table, req.tenant, req.user, now);
    SatisfiableHasRelief(s, req, now, rows);
    var wait := RetryAfter(rows, req, now);
    if Satisfiable(req) && k <= wait {
      SettledAfter(s, req.tenant, req.user, now);
      JudgedAfter(s.table, req, now, k, later, rows);
    }
  }

  /** Nothing else happening, the same request is granted just when the wait is over. */
  lemma JudgedAfter(t: Table, req: Request, now: nat, k: nat, later: nat, rows: seq<Row>)
    requires Settled(t, req.tenant, req.user, now) && rows == Active(t, req.tenant, req.user, now)
    requires 0 < Relief(rows, req) <= |rows| && k <= WaitFor(rows, Relief(rows, req), now) && later == now + 1_000 * k
    ensures Judge(t, req, later).Granted? <==> k == WaitFor(rows, Relief(rows, req), now)
  {
    var j := WaitDrops(t, req.tenant, req.user, now, k, later, rows, Relief(rows, req));
    ReliefDecides(rows, req, j);
    JudgedOn(t, req, later, rows, j);
  }

  lemma JudgedOn(t: Table, req: Request, later: nat, rows: seq<Row>, j: nat)
    requires DropsTo(t, req.tenant, req.user, later, rows, j)
    ensures Judge(t, req, later).Granted? <==> Admits(rows[j..], req)
  {
  }

  /** The fallback 60 is returned exactly to requests that no wait can help. */
  lemma FallbackIffNeverGranted(clock: nat, events: seq<Event>, req: Request, now: nat)
    requires Runs(Init(clock), events) && After(Init(clock), events).clock <= now
    requires Judge(After(Init(clock), events).table, req, now).Refused?
    ensures var t := After(Init(clock), events).table;
            var rows := Active(t, req.tenant, req.user, now);
            && (Relief(rows, req) > |rows| <==> forall later: nat | now <= later :: Judge(t, req, later).Refused?)
            && (Relief(rows, req) > |rows| ==> Judge(t, req, now).retryAfterSeconds == 60)
            && (Relief(rows, req) > |rows| <==> !Satisfiable(req))
  {
    InvRun(Init(clock), events);
    var s := After(Init(clock), events);
    var t := s.table;
    var rows := Active(t, req.tenant, req.user, now);
    SatisfiableHasRelief(s, req, now, rows);
    if Satisfiable(req) {
      var wait: nat := RetryAfter(rows, req, now);
      var later: nat := now + 1_000 * wait;
      RetryAfterIsExact(clock, events, req, now, wait, later);
      assert Judge(t, req, later).Granted?;
    } else {
      forall later: nat | now <= later ensures Judge(t, req, later).Refused? {
        UnsatisfiableNeverGranted(clock, events, req, later);
      }
      ActiveNatural(s, req.tenant, req.user, now);
      NoReliefWhenUnsatisfiable(rows, req);
    }
  }

  ghost predicate NaturalRows(rows: seq<Row>) {
    forall i | 0 <= i < |rows| ::
      rows[i].bucket.turns >= 0 && rows[i].bucket.tokensIn >= 0 && rows[i].bucket.tokensOut >= 0
  }

  lemma ActiveNatural(s: State, tenant: string, user: string, now: nat)
    requires Inv(s)
    ensures NaturalRows(Active(s.table, tenant, user, now))
  {
    var ws := ActiveWindows(s.table, tenant, user, now);
    var rows := Active(s.table, tenant, user, now);
    forall i | 0 <= i < |rows|
      ensures rows[i].bucket.turns >= 0 && rows[i].bucket.tokensIn >= 0 && rows[i].bucket.tokensOut >= 0
    {
      assert ws[i] in ws;
      SumsAreNatural(s.grants, RowKey(tenant, user, ws[i]));
    }
  }

  lemma {:induction false} NaturalSums(rows: seq<Row>)
    requires NaturalRows(rows)
    ensures Turns(rows) >= 0 && Tokens(rows) >= 0
  {
    if rows != [] { NaturalSums(rows[1..]); }
  }

  lemma NoReliefWhenUnsatisfiable(rows: seq<Row>, req: Request)
    requires NaturalRows(rows) && !Satisfiable(req)
    ensures Relief(rows, req) > |rows|
  {
    var n := Relief(rows, req);
    if n <= |rows| {
      ReliefIsFirst(rows, req);
      NaturalSums(rows[n..]);
    }
  }

  lemma {:induction false} SumsAreNatural(grants: seq<Grant>, key: RowKey)
    ensures SumFor(grants, key, OneTurn) >= 0
    ensures SumFor(grants, key, InTokens) >= 0 && SumFor(grants, key, OutTokens) >= 0
  {
    if grants != [] { SumsAreNatural(grants[..|grants| - 1], key); }
  }
}
