/** Several processes reading scopes while grants change. A call is cut at its awaits:
    the hot lookup, the table SELECT, the grant listing, the upsert, and the final
    `hot.set`; an invalidation at its UPDATE and its eviction. */
module SessionProtocol {
  import opened Options
  import opened SessionScope

  /** One state of a user's grants: since when it holds, and when the first invalidation
      after its replacement of the previous one marked the table. */
  datatype Version = Version(grants: seq<RoleGrant>, since: nat, settledAt: Option<nat>)

  /** `settled` is the newest version an invalidation has marked for. */
  datatype History = History(versions: seq<Version>, settled: nat)

  datatype Stage =
    | Asking                          // past the hot lookup
    | FromRow(scope: Scope)           // read an unmarked row
    | Missed                          // no usable row
    | Listed(grants: seq<RoleGrant>)  // grants read, not yet stored
    | Stored(scope: Scope)            // row written, hot map not yet

  datatype Call = Call(process: nat, session: string, stage: Stage)

  /** A scope handed to a caller. `floor` is the version its process had last evicted for. */
  datatype Return = Return(process: nat, user: string, scope: Scope, at: nat, floor: nat)

  datatype State = State(
    now: nat, users: map<string, History>, table: Table, hots: map<nat, Hot>,
    calls: map<nat, Call>, evicted: map<(nat, string), nat>, returned: seq<Return>)

  function HistoryOf(s: State, user: string): History {
    if user in s.users then s.users[user] else History([Version([], 0, None)], 0)
  }

  function HotOf(s: State, process: nat): Hot {
    if process in s.hots then s.hots[process] else map[]
  }

  function EvictedFor(s: State, process: nat, user: string): nat {
    if (process, user) in s.evicted then s.evicted[(process, user)] else 0
  }

  function LatestGrants(h: History): seq<RoleGrant> {
    if h.versions == [] then [] else h.versions[|h.versions| - 1].grants
  }

  function Init(): State {
    State(0, map[], map[], map[], map[], map[], [])
  }

  datatype Action =
    | Tick(ms: nat)
    | Change(user: string, grants: seq<RoleGrant>)
    | Mark(user: string)
    | Evict(process: nat, user: string)
    | Drop(process: nat, session: string)  // the LRU bound of the hot map
    | Begin(id: nat, process: nat, session: string)
    | Select(id: nat)
    | List(id: nat)
    | Upsert(id: nat)
    | Finish(id: nat)

  /** `owner` gives the user a session belongs to. */
  predicate Enabled(owner: string -> string, s: State, a: Action) {
    match a
    case Tick(_) => true
    case Change(_, _) => true
    case Mark(_) => true
    case Evict(_, _) => true
    case Drop(_, _) => true
    case Begin(id, _, _) => id !in s.calls
    case Select(id) => id in s.calls && s.calls[id].stage.Asking?
    case List(id) => id in s.calls && s.calls[id].stage.Missed?
    case Upsert(id) => id in s.calls && s.calls[id].stage.Listed?
    case Finish(id) => id in s.calls && (s.calls[id].stage.FromRow? || s.calls[id].stage.Stored?)
  }

  function SetHot(s: State, process: nat, hot: Hot): State {
    s.(hots := s.hots[process := hot])
  }

  function AddReturn(s: State, process: nat, user: string, scope: Scope): State {
    s.(returned := s.returned + [Return(process, user, scope, s.now, EvictedFor(s, process, user))])
  }

  /** The table is marked for every version up to the newest. */
  function SettleAll(h: History, now: nat): History {
    History(
      seq(|h.versions|, i requires 0 <= i < |h.versions| =>
        if i > h.settled then h.versions[i].(settledAt := Some(now)) else h.versions[i]),
      if h.versions == [] then 0 else |h.versions| - 1)
  }

  function Do(owner: string -> string, s: State, a: Action): State
    requires Enabled(owner, s, a)
  {
    match a
    case Tick(ms) => s.(now := s.now + ms)
    case Change(u, grants) =>
      var h := HistoryOf(s, u);
      s.(users := s.users[u := h.(versions := h.versions + [Version(grants, s.now, None)])])
    case Mark(u) =>
      s.(table := MarkUser(s.table, u), users := s.users[u := SettleAll(HistoryOf(s, u), s.now)])
    case Evict(p, u) =>
      SetHot(s, p, EvictUser(HotOf(s, p), u, s.now)).(evicted := s.evicted[(p, u) := HistoryOf(s, u).settled])
    case Drop(p, sid) => SetHot(s, p, HotOf(s, p) - {sid})
    case Begin(id, p, sid) =>
      if HotHit(HotOf(s, p), sid, s.now) then AddReturn(s, p, owner(sid), HotOf(s, p)[sid].scope)
      else s.(calls := s.calls[id := Call(p, sid, Asking)])
    case Select(id) =>
      var c := s.calls[id];
      var stage := if RowHit(s.table, c.session) then FromRow(s.table[c.session].scope) else Missed;
      s.(calls := s.calls[id := c.(stage := stage)])
    case List(id) =>
      var c := s.calls[id];
      s.(calls := s.calls[id := c.(stage := Listed(LatestGrants(HistoryOf(s, owner(c.session)))))])
    case Upsert(id) =>
      var c := s.calls[id];
      var scope := Build(c.stage.grants);
      s.(table := s.table[c.session := Row(owner(c.session), scope, false)],
         calls := s.calls[id := c.(stage := Stored(scope))])
    case Finish(id) =>
      var c := s.calls[id];
      var u := owner(c.session);
      AddReturn(SetHot(s, c.process, HotOf(s, c.process)[c.session := HotEntry(u, c.stage.scope, s.now)]),
                c.process, u, c.stage.scope).(calls := s.calls - {id})
  }

  /** The scope a call in flight holds, or will build from the grants it holds. */
  function Held(stage: Stage): Option<Scope> {
    match stage
    case Asking => None
    case Missed => None
    case FromRow(scope) => Some(scope)
    case Listed(grants) => Some(Build(grants))
    case Stored(scope) => Some(scope)
  }

  /** What the call holds is no longer the scope of the current grants. */
  predicate Outdated(h: History, stage: Stage) {
    Held(stage).Some? && Held(stage).value != Build(LatestGrants(h))
  }

  /** No mark falls into a call of the same user that holds an outdated scope. */
  predicate Calm(owner: string -> string, s: State, a: Action) {
    a.Mark? ==> forall id | id in s.calls && owner(s.calls[id].session) == a.user ::
      !Outdated(HistoryOf(s, a.user), s.calls[id].stage)
  }

  // ----- Invariants -----

  /** The scope is that of a version no invalidation has settled a successor of. */
  ghost predicate Fresh(h: History, scope: Scope) {
    exists v: nat :: h.settled <= v < |h.versions| && scope == Build(h.versions[v].grants)
  }

  /** Version v was not yet settled out at time t. */
  predicate LiveAt(h: History, v: nat, t: int) {
    || v >= h.settled
    || (v + 1 < |h.versions| && h.versions[v + 1].settledAt.Some? && t <= h.versions[v + 1].settledAt.value)
  }

  /** The scope of some version not older than `floor` that was live at time t. */
  ghost predicate Acceptable(h: History, scope: Scope, t: int, floor: nat) {
    exists v: nat :: AcceptableAs(h, scope, t, floor, v)
  }

  ghost predicate AcceptableAs(h: History, scope: Scope, t: int, floor: nat, v: nat) {
    floor <= v < |h.versions| && scope == Build(h.versions[v].grants) && LiveAt(h, v, t)
  }

  ghost predicate HistoryOk(h: History, now: nat) {
    && h.settled < |h.versions|
    && (forall i, j | 0 <= i <= j < |h.versions| :: h.versions[i].since <= h.versions[j].since <= now)
    && (forall i | 0 <= i < |h.versions| :: h.versions[i].settledAt.Some? ==> h.versions[i].settledAt.value <= now)
    && (forall i | 0 < i < |h.versions| :: h.versions[i].settledAt.Some? <==> i <= h.settled)
  }

  ghost predicate UserOk(owner: string -> string, s: State, u: string) {
    var h := HistoryOf(s, u);
    && HistoryOk(h, s.now)
    && (forall sid | sid in s.table && owner(sid) == u ::
          s.table[sid].user == u && (!s.table[sid].invalidated ==> Fresh(h, s.table[sid].scope)))
    && (forall p: nat :: HotOk(owner, HotOf(s, p), h, s.now, EvictedFor(s, p, u), u))
    && (forall p: nat :: EvictedFor(s, p, u) <= h.settled)
    && (forall id | id in s.calls && owner(s.calls[id].session) == u :: StageOk(h, s.calls[id].stage))
    && (forall i | 0 <= i < |s.returned| && s.returned[i].user == u :: ReturnOk(h, s.returned[i], s.now))
  }

  ghost predicate HotOk(owner: string -> string, hot: Hot, h: History, now: nat, floor: nat, u: string) {
    forall sid | sid in hot && owner(sid) == u ::
      && hot[sid].user == u && hot[sid].setAt <= now
      && (HotHit(hot, sid, now) ==> Acceptable(h, hot[sid].scope, hot[sid].setAt, floor))
  }

  ghost predicate StageOk(h: History, stage: Stage) {
    Held(stage).Some? ==> Fresh(h, Held(stage).value)
  }

  ghost predicate ReturnOk(h: History, r: Return, now: nat) {
    r.at <= now && exists v: nat :: ReturnedAs(h, r, v)
  }

  ghost predicate ReturnedAs(h: History, r: Return, v: nat) {
    AcceptableAs(h, r.scope, r.at - 900_000, r.floor, v) && h.versions[v].since <= r.at
  }

  ghost predicate Inv(owner: string -> string, s: State) {
    forall u: string :: UserOk(owner, s, u)
  }

  lemma FreshIsAcceptable(h: History, scope: Scope, t: int, floor: nat)
    requires Fresh(h, scope) && floor <= h.settled
    ensures Acceptable(h, scope, t, floor)
  {
    var v: nat :| h.settled <= v < |h.versions| && scope == Build(h.versions[v].grants);
    assert AcceptableAs(h, scope, t, floor, v);
  }

  lemma AcceptableEarlier(h: History, scope: Scope, t: int, t': int, floor: nat)
    requires Acceptable(h, scope, t, floor) && t' <= t
    ensures Acceptable(h, scope, t', floor)
  {
    var v: nat :| AcceptableAs(h, scope, t, floor, v);
    assert AcceptableAs(h, scope, t', floor, v);
  }

  /** How a history can go on: a version is added, or all are settled, at `now`. */
  ghost predicate Grows(h: History, h': History, now: nat) {
    (exists g :: h' == h.(versions := h.versions + [Version(g, now, None)]))
    || h' == SettleAll(h, now)
  }

  lemma AcceptableAsGrows(h: History, h': History, now: nat, scope: Scope, t: int, floor: nat, v: nat)
    requires AcceptableAs(h, scope, t, floor, v) && Grows(h, h', now) && t <= now && h.settled < |h.versions|
    ensures AcceptableAs(h', scope, t, floor, v) && h'.versions[v].since == h.versions[v].since
  {
  }

  lemma AcceptableGrows(h: History, h': History, now: nat, scope: Scope, t: int, floor: nat)
    requires Acceptable(h, scope, t, floor) && Grows(h, h', now) && t <= now && h.settled < |h.versions|
    ensures Acceptable(h', scope, t, floor)
  {
    var v: nat :| AcceptableAs(h, scope, t, floor, v);
    AcceptableAsGrows(h, h', now, scope, t, floor, v);
  }

  lemma HistoryGrows(h: History, h': History, now: nat)
    requires HistoryOk(h, now) && Grows(h, h', now)
    ensures HistoryOk(h', now)
  {
  }

  lemma FreshAfterChange(h: History, grants: seq<RoleGrant>, now: nat, scope: Scope)
    requires Fresh(h, scope)
    ensures Fresh(h.(versions := h.versions + [Version(grants, now, None)]), scope)
  {
    var v: nat :| h.settled <= v < |h.versions| && scope == Build(h.versions[v].grants);
    var h' := h.(versions := h.versions + [Version(grants, now, None)]);
    assert h'.versions[v] == h.versions[v];
  }

  /** What a growing history leaves of a user's invariant, fresh copies aside. */
  lemma HotGrows(owner: string -> string, hot: Hot, h: History, h': History, now: nat, floor: nat, u: string)
    requires HotOk(owner, hot, h, now, floor, u) && Grows(h, h', now) && h.settled < |h.versions|
    ensures HotOk(owner, hot, h', now, floor, u)
  {
    forall sid | HotHit(hot, sid, now) && owner(sid) == u
      ensures Acceptable(h', hot[sid].scope, hot[sid].setAt, floor)
    {
      AcceptableGrows(h, h', now, hot[sid].scope, hot[sid].setAt, floor);
    }
  }

  lemma ReturnGrows(h: History, h': History, now: nat, r: Return)
    requires ReturnOk(h, r, now) && Grows(h, h', now) && h.settled < |h.versions|
    ensures ReturnOk(h', r, now)
  {
    var v: nat :| ReturnedAs(h, r, v);
    AcceptableAsGrows(h, h', now, r.scope, r.at - TTL_MS, r.floor, v);
    assert ReturnedAs(h', r, v);
  }

  lemma ReturnsGrow(s: State, u: string, h: History, h': History)
    requires Grows(h, h', s.now) && h.settled < |h.versions|
    requires forall i | 0 <= i < |s.returned| && s.returned[i].user == u :: ReturnOk(h, s.returned[i], s.now)
    ensures forall i | 0 <= i < |s.returned| && s.returned[i].user == u :: ReturnOk(h', s.returned[i], s.now)
  {
    forall i | 0 <= i < |s.returned| && s.returned[i].user == u ensures ReturnOk(h', s.returned[i], s.now) {
      ReturnGrows(h, h', s.now, s.returned[i]);
    }
  }

  lemma ChangeKeeps(owner: string -> string, s: State, u: string, grants: seq<RoleGrant>)
    requires Inv(owner, s)
    ensures UserOk(owner, Do(owner, s, Change(u, grants)), u)
  {
    var t := Do(owner, s, Change(u, grants));
    var h, h' := HistoryOf(s, u), HistoryOf(t, u);
    assert UserOk(owner, s, u);
    assert h' == h.(versions := h.versions + [Version(grants, s.now, None)]);
    assert Grows(h, h', s.now);
    HistoryGrows(h, h', s.now);
    forall sid | sid in t.table && owner(sid) == u && !t.table[sid].invalidated ensures Fresh(h', t.table[sid].scope) {
      FreshAfterChange(h, grants, s.now, t.table[sid].scope);
    }
    forall p: nat ensures HotOk(owner, HotOf(t, p), h', t.now, EvictedFor(t, p, u), u) {
      HotGrows(owner, HotOf(s, p), h, h', s.now, EvictedFor(s, p, u), u);
    }
    forall p: nat ensures EvictedFor(t, p, u) <= h'.settled { assert EvictedFor(s, p, u) <= h.settled; }
    forall id | id in t.calls && owner(t.calls[id].session) == u ensures StageOk(h', t.calls[id].stage) {
      var stage := s.calls[id].stage;
      assert StageOk(h, stage);
      match stage
      case FromRow(scope) => FreshAfterChange(h, grants, s.now, scope);
      case Listed(g) => FreshAfterChange(h, grants, s.now, Build(g));
      case Stored(scope) => FreshAfterChange(h, grants, s.now, scope);
      case _ =>
    }
    ReturnsGrow(s, u, h, h');
  }

  lemma MarkKeeps(owner: string -> string, s: State, u: string)
    requires Inv(owner, s) && Calm(owner, s, Mark(u))
    ensures UserOk(owner, Do(owner, s, Mark(u)), u)
  {
    var t := Do(owner, s, Mark(u));
    var h, h' := HistoryOf(s, u), HistoryOf(t, u);
    assert UserOk(owner, s, u);
    assert h' == SettleAll(h, s.now);
    assert Grows(h, h', s.now);
    HistoryGrows(h, h', s.now);
    forall p: nat ensures HotOk(owner, HotOf(t, p), h', t.now, EvictedFor(t, p, u), u) {
      HotGrows(owner, HotOf(s, p), h, h', s.now, EvictedFor(s, p, u), u);
    }
    forall p: nat ensures EvictedFor(t, p, u) <= h'.settled { assert EvictedFor(s, p, u) <= h.settled; }
    forall id | id in t.calls && owner(t.calls[id].session) == u ensures StageOk(h', t.calls[id].stage) {
      var held := Held(s.calls[id].stage);
      assert !Outdated(h, s.calls[id].stage);
      if held.Some? { SettledFresh(h, s.now, held.value); }
    }
    ReturnsGrow(s, u, h, h');
  }

  /** A mark leaves only the scope of the current grants fresh. */
  lemma SettledFresh(h: History, now: nat, scope: Scope)
    requires h.versions != []
    ensures Fresh(SettleAll(h, now), scope) <==> scope == Build(LatestGrants(h))
  {
    var h' := SettleAll(h, now);
    var last := |h.versions| - 1;
    assert h'.versions[last].grants == h.versions[last].grants;
    if scope == Build(LatestGrants(h)) {
      assert h'.settled <= last < |h'.versions| && scope == Build(h'.versions[last].grants);
    }
  }

  lemma EvictKeeps(owner: string -> string, s: State, p: nat, u: string)
    requires Inv(owner, s)
    ensures UserOk(owner, Do(owner, s, Evict(p, u)), u)
  {
    var t := Do(owner, s, Evict(p, u));
    assert UserOk(owner, s, u);
    var h := HistoryOf(s, u);
    forall q: nat ensures HotOk(owner, HotOf(t, q), h, t.now, EvictedFor(t, q, u), u) {
      assert HotOk(owner, HotOf(s, q), h, s.now, EvictedFor(s, q, u), u);
    }
    forall q: nat ensures EvictedFor(t, q, u) <= h.settled { assert EvictedFor(s, q, u) <= h.settled; }
  }

  /** The user of an action, if it has one. */
  function UserOf(owner: string -> string, s: State, a: Action): Option<string> {
    match a
    case Tick(_) => None
    case Drop(_, _) => None
    case Change(u, _) => Some(u)
    case Mark(u) => Some(u)
    case Evict(_, u) => Some(u)
    case Begin(_, _, sid) => Some(owner(sid))
    case Select(id) => if id in s.calls then Some(owner(s.calls[id].session)) else None
    case List(id) => if id in s.calls then Some(owner(s.calls[id].session)) else None
    case Upsert(id) => if id in s.calls then Some(owner(s.calls[id].session)) else None
    case Finish(id) => if id in s.calls then Some(owner(s.calls[id].session)) else None
  }

  /** `t` shows user u nothing that `s` does not. */
  ghost predicate View(owner: string -> string, s: State, t: State, u: string) {
    && s.now == t.now && HistoryOf(t, u) == HistoryOf(s, u)
    && (forall p: nat :: EvictedFor(t, p, u) == EvictedFor(s, p, u))
    && (forall sid | sid in t.table && owner(sid) == u :: sid in s.table && t.table[sid] == s.table[sid])
    && (forall p: nat :: HotView(owner, HotOf(s, p), HotOf(t, p), u))
    && (forall id | id in t.calls && owner(t.calls[id].session) == u :: id in s.calls && t.calls[id] == s.calls[id])
    && (forall i | 0 <= i < |t.returned| && t.returned[i].user == u ::
          i < |s.returned| && t.returned[i] == s.returned[i])
  }

  ghost predicate HotView(owner: string -> string, hot: Hot, hot': Hot, u: string) {
    forall sid | sid in hot' && owner(sid) == u :: sid in hot && hot'[sid] == hot[sid]
  }

  lemma ViewKeeps(owner: string -> string, s: State, t: State, u: string)
    requires UserOk(owner, s, u) && View(owner, s, t, u)
    ensures UserOk(owner, t, u)
  {
    var h := HistoryOf(s, u);
    forall p: nat ensures HotOk(owner, HotOf(t, p), h, t.now, EvictedFor(t, p, u), u) {
      assert HotOk(owner, HotOf(s, p), h, s.now, EvictedFor(s, p, u), u);
      assert HotView(owner, HotOf(s, p), HotOf(t, p), u);
    }
    forall p: nat ensures EvictedFor(t, p, u) <= h.settled { assert EvictedFor(s, p, u) <= h.settled; }
  }

  /** Actions of other users, and the LRU bound, leave a user's part alone. */
  lemma OthersKeep(owner: string -> string, s: State, a: Action, u: string)
    requires Inv(owner, s) && Enabled(owner, s, a) && !a.Tick? && UserOf(owner, s, a) != Some(u)
    ensures UserOk(owner, Do(owner, s, a), u)
  {
    assert UserOk(owner, s, u);
    if a.Begin? || a.Finish? {
      CallersView(owner, s, a, u);
    } else if a.Select? || a.List? || a.Upsert? {
      StagesView(owner, s, a, u);
    } else {
      WritersView(owner, s, a, u);
    }
    ViewKeeps(owner, s, Do(owner, s, a), u);
  }

  lemma WritersView(owner: string -> string, s: State, a: Action, u: string)
    requires Inv(owner, s) && (a.Change? || a.Mark? || a.Evict? || a.Drop?) && UserOf(owner, s, a) != Some(u)
    ensures View(owner, s, Do(owner, s, a), u)
  {
    assert UserOk(owner, s, u);
    if a.Evict? || a.Drop? {
      HotsView(owner, s, a, u);
    }
  }

  lemma HotsView(owner: string -> string, s: State, a: Action, u: string)
    requires (a.Evict? || a.Drop?) && UserOf(owner, s, a) != Some(u)
    ensures View(owner, s, Do(owner, s, a), u)
  {
  }

  lemma StagesView(owner: string -> string, s: State, a: Action, u: string)
    requires Enabled(owner, s, a) && (a.Select? || a.List? || a.Upsert?)
    requires UserOf(owner, s, a) != Some(u)
    ensures View(owner, s, Do(owner, s, a), u)
  {
  }

  lemma CallersView(owner: string -> string, s: State, a: Action, u: string)
    requires Enabled(owner, s, a) && (a.Begin? || a.Finish?)
    requires UserOf(owner, s, a) != Some(u)
    ensures View(owner, s, Do(owner, s, a), u)
  {
    if a.Finish? { FinishView(owner, s, a.id, u); } else { BeginView(owner, s, a.id, a.process, a.session, u); }
  }

  lemma BeginView(owner: string -> string, s: State, id: nat, process: nat, session: string, u: string)
    requires Enabled(owner, s, Begin(id, process, session)) && owner(session) != u
    ensures View(owner, s, Do(owner, s, Begin(id, process, session)), u)
  {
    if HotHit(HotOf(s, process), session, s.now) {
      AddReturnView(owner, s, process, owner(session), HotOf(s, process)[session].scope, u);
    }
  }

  lemma AddReturnView(owner: string -> string, s: State, process: nat, v: string, scope: Scope, u: string)
    requires v != u
    ensures View(owner, s, AddReturn(s, process, v, scope), u)
  {
  }

  lemma FinishView(owner: string -> string, s: State, id: nat, u: string)
    requires Enabled(owner, s, Finish(id)) && owner(s.calls[id].session) != u
    ensures View(owner, s, Do(owner, s, Finish(id)), u)
  {
  }

  lemma TickKeeps(owner: string -> string, s: State, ms: nat, u: string)
    requires Inv(owner, s)
    ensures UserOk(owner, Do(owner, s, Tick(ms)), u)
  {
    var t := Do(owner, s, Tick(ms));
    var h := HistoryOf(s, u);
    assert UserOk(owner, s, u);
    forall p: nat ensures HotOk(owner, HotOf(t, p), h, t.now, EvictedFor(t, p, u), u) {
      assert HotOk(owner, HotOf(s, p), h, s.now, EvictedFor(s, p, u), u);
    }
    forall p: nat ensures EvictedFor(t, p, u) <= h.settled { assert EvictedFor(s, p, u) <= h.settled; }
    forall i | 0 <= i < |t.returned| && t.returned[i].user == u ensures ReturnOk(h, t.returned[i], t.now) {
      assert ReturnOk(h, s.returned[i], s.now);
    }
  }

  lemma ReturnKeeps(owner: string -> string, s: State, p: nat, u: string, scope: Scope)
    requires UserOk(owner, s, u)
    requires Acceptable(HistoryOf(s, u), scope, s.now - TTL_MS, EvictedFor(s, p, u))
    ensures UserOk(owner, AddReturn(s, p, u, scope), u)
  {
    var t := AddReturn(s, p, u, scope);
    var h := HistoryOf(s, u);
    assert forall q: nat :: EvictedFor(t, q, u) == EvictedFor(s, q, u) && HotOf(t, q) == HotOf(s, q);
    forall i | 0 <= i < |t.returned| && t.returned[i].user == u ensures ReturnOk(h, t.returned[i], t.now) {
      if i < |s.returned| {
        assert ReturnOk(h, s.returned[i], s.now);
      } else {
        var v: nat :| AcceptableAs(h, scope, s.now - TTL_MS, EvictedFor(s, p, u), v);
        assert h.versions[v].since <= h.versions[|h.versions| - 1].since <= s.now;
        assert ReturnedAs(h, t.returned[i], v);
      }
    }
  }

  lemma StageKeeps(owner: string -> string, s: State, id: nat, c: Call, u: string)
    requires UserOk(owner, s, u)
    requires StageOk(HistoryOf(s, u), c.stage)
    ensures UserOk(owner, s.(calls := s.calls[id := c]), u)
  {
    var t := s.(calls := s.calls[id := c]);
    assert forall q: nat :: EvictedFor(t, q, u) == EvictedFor(s, q, u) && HotOf(t, q) == HotOf(s, q);
  }

  lemma BeginKeeps(owner: string -> string, s: State, id: nat, p: nat, sid: string)
    requires Inv(owner, s) && id !in s.calls
    ensures UserOk(owner, Do(owner, s, Begin(id, p, sid)), owner(sid))
  {
    var u := owner(sid);
    assert UserOk(owner, s, u);
    if HotHit(HotOf(s, p), sid, s.now) {
      var e := HotOf(s, p)[sid];
      assert HotOk(owner, HotOf(s, p), HistoryOf(s, u), s.now, EvictedFor(s, p, u), u);
      AcceptableEarlier(HistoryOf(s, u), e.scope, e.setAt, s.now - TTL_MS, EvictedFor(s, p, u));
      ReturnKeeps(owner, s, p, u, e.scope);
    } else {
      StageKeeps(owner, s, id, Call(p, sid, Asking), u);
    }
  }

  lemma SelectKeeps(owner: string -> string, s: State, id: nat)
    requires Inv(owner, s) && Enabled(owner, s, Select(id))
    ensures UserOk(owner, Do(owner, s, Select(id)), owner(s.calls[id].session))
  {
    var c := s.calls[id];
    assert UserOk(owner, s, owner(c.session));
    var stage := if RowHit(s.table, c.session) then FromRow(s.table[c.session].scope) else Missed;
    StageKeeps(owner, s, id, c.(stage := stage), owner(c.session));
  }

  lemma LatestIsFresh(h: History)
    requires h.settled < |h.versions|
    ensures Fresh(h, Build(LatestGrants(h)))
  {
    var last := |h.versions| - 1;
    assert h.settled <= last < |h.versions| && Build(LatestGrants(h)) == Build(h.versions[last].grants);
  }

  lemma ListKeeps(owner: string -> string, s: State, id: nat)
    requires Inv(owner, s) && Enabled(owner, s, List(id))
    ensures UserOk(owner, Do(owner, s, List(id)), owner(s.calls[id].session))
  {
    var c := s.calls[id];
    var u := owner(c.session);
    assert UserOk(owner, s, u);
    LatestIsFresh(HistoryOf(s, u));
    StageKeeps(owner, s, id, c.(stage := Listed(LatestGrants(HistoryOf(s, u)))), u);
  }

  lemma RowKeeps(owner: string -> string, s: State, sid: string, u: string, scope: Scope)
    requires UserOk(owner, s, u) && owner(sid) == u && Fresh(HistoryOf(s, u), scope)
    ensures UserOk(owner, s.(table := s.table[sid := Row(u, scope, false)]), u)
  {
    var t := s.(table := s.table[sid := Row(u, scope, false)]);
    assert forall q: nat :: EvictedFor(t, q, u) == EvictedFor(s, q, u) && HotOf(t, q) == HotOf(s, q);
  }

  lemma UpsertKeeps(owner: string -> string, s: State, id: nat)
    requires Inv(owner, s) && Enabled(owner, s, Upsert(id))
    ensures UserOk(owner, Do(owner, s, Upsert(id)), owner(s.calls[id].session))
  {
    var c := s.calls[id];
    var u := owner(c.session);
    var scope := Build(c.stage.grants);
    assert UserOk(owner, s, u);
    assert StageOk(HistoryOf(s, u), c.stage);
    RowAndStageKeep(owner, s, id, c, u, scope);
  }

  lemma RowAndStageKeep(owner: string -> string, s: State, id: nat, c: Call, u: string, scope: Scope)
    requires UserOk(owner, s, u) && owner(c.session) == u && Fresh(HistoryOf(s, u), scope)
    ensures var row, stored := Row(u, scope, false), c.(stage := Stored(scope));
            UserOk(owner, s.(table := s.table[c.session := row], calls := s.calls[id := stored]), u)
  {
    var t := s.(table := s.table[c.session := Row(u, scope, false)]);
    RowKeeps(owner, s, c.session, u, scope);
    assert HistoryOf(t, u) == HistoryOf(s, u);
    StageKeeps(owner, t, id, c.(stage := Stored(scope)), u);
  }

  lemma SetHotKeeps(owner: string -> string, s: State, p: nat, sid: string, u: string, scope: Scope)
    requires UserOk(owner, s, u) && owner(sid) == u
    requires Acceptable(HistoryOf(s, u), scope, s.now, EvictedFor(s, p, u))
    ensures UserOk(owner, SetHot(s, p, HotOf(s, p)[sid := HotEntry(u, scope, s.now)]), u)
  {
    var t := SetHot(s, p, HotOf(s, p)[sid := HotEntry(u, scope, s.now)]);
    var h := HistoryOf(s, u);
    assert forall q: nat :: EvictedFor(t, q, u) == EvictedFor(s, q, u);
    forall q: nat ensures HotOk(owner, HotOf(t, q), h, t.now, EvictedFor(t, q, u), u) {
      assert HotOk(owner, HotOf(s, q), h, s.now, EvictedFor(s, q, u), u);
    }
  }

  lemma CallEnds(owner: string -> string, s: State, id: nat, u: string)
    requires UserOk(owner, s, u)
    ensures UserOk(owner, s.(calls := s.calls - {id}), u)
  {
    var t := s.(calls := s.calls - {id});
    assert forall q: nat :: EvictedFor(t, q, u) == EvictedFor(s, q, u) && HotOf(t, q) == HotOf(s, q);
  }

  lemma FinishKeeps(owner: string -> string, s: State, id: nat)
    requires Inv(owner, s) && Enabled(owner, s, Finish(id))
    ensures UserOk(owner, Do(owner, s, Finish(id)), owner(s.calls[id].session))
  {
    var c := s.calls[id];
    var u := owner(c.session);
    assert UserOk(owner, s, u);
    FinishAccepts(owner, s, id);
    var t := CacheAndReturn(owner, s, c.process, c.session, u, c.stage.scope);
    CallEnds(owner, t, id, u);
  }

  lemma CacheAndReturn(owner: string -> string, s: State, p: nat, sid: string, u: string, scope: Scope)
    returns (t: State)
    requires UserOk(owner, s, u) && owner(sid) == u
    requires Acceptable(HistoryOf(s, u), scope, s.now, EvictedFor(s, p, u))
    requires Acceptable(HistoryOf(s, u), scope, s.now - TTL_MS, EvictedFor(s, p, u))
    ensures t == AddReturn(SetHot(s, p, HotOf(s, p)[sid := HotEntry(u, scope, s.now)]), p, u, scope)
    ensures UserOk(owner, t, u)
  {
    SetHotKeeps(owner, s, p, sid, u, scope);
    var hot := SetHot(s, p, HotOf(s, p)[sid := HotEntry(u, scope, s.now)]);
    t := AddReturn(hot, p, u, scope);
    ReturnKeeps(owner, hot, p, u, scope);
  }

  lemma FinishAccepts(owner: string -> string, s: State, id: nat)
    requires Inv(owner, s) && Enabled(owner, s, Finish(id))
    ensures var c := s.calls[id];
            var u := owner(c.session);
            var floor := EvictedFor(s, c.process, u);
            && Acceptable(HistoryOf(s, u), c.stage.scope, s.now, floor)
            && Acceptable(HistoryOf(s, u), c.stage.scope, s.now - TTL_MS, floor)
  {
    var c := s.calls[id];
    var u := owner(c.session);
    var floor := EvictedFor(s, c.process, u);
    assert UserOk(owner, s, u);
    assert StageOk(HistoryOf(s, u), c.stage);
    FreshIsAcceptable(HistoryOf(s, u), c.stage.scope, s.now, floor);
    FreshIsAcceptable(HistoryOf(s, u), c.stage.scope, s.now - TTL_MS, floor);
  }

  lemma StepKeeps(owner: string -> string, s: State, a: Action, u: string)
    requires Inv(owner, s) && Enabled(owner, s, a) && Calm(owner, s, a)
    ensures UserOk(owner, Do(owner, s, a), u)
  {
    if !a.Tick? && UserOf(owner, s, a) != Some(u) {
      OthersKeep(owner, s, a, u);
    } else {
      match a
      case Tick(ms) => TickKeeps(owner, s, ms, u);
      case Change(_, grants) => ChangeKeeps(owner, s, u, grants);
      case Mark(_) => MarkKeeps(owner, s, u);
      case Evict(p, _) => EvictKeeps(owner, s, p, u);
      case Begin(id, p, sid) => BeginKeeps(owner, s, id, p, sid);
      case Select(id) => SelectKeeps(owner, s, id);
      case List(id) => ListKeeps(owner, s, id);
      case Upsert(id) => UpsertKeeps(owner, s, id);
      case Finish(id) => FinishKeeps(owner, s, id);
    }
  }

  // ----- Whole runs -----

  predicate Runs(owner: string -> string, s: State, acts: seq<Action>)
    decreases |acts|
  {
    acts == [] || (Enabled(owner, s, acts[0]) && Runs(owner, Do(owner, s, acts[0]), acts[1..]))
  }

  function After(owner: string -> string, s: State, acts: seq<Action>): State
    requires Runs(owner, s, acts)
    decreases |acts|
  {
    if acts == [] then s else After(owner, Do(owner, s, acts[0]), acts[1..])
  }

  ghost predicate CalmRun(owner: string -> string, s: State, acts: seq<Action>)
    requires Runs(owner, s, acts)
    decreases |acts|
  {
    acts == [] || (Calm(owner, s, acts[0]) && CalmRun(owner, Do(owner, s, acts[0]), acts[1..]))
  }

  lemma {:induction false} InvRun(owner: string -> string, s: State, acts: seq<Action>)
    requires Inv(owner, s) && Runs(owner, s, acts) && CalmRun(owner, s, acts)
    ensures Inv(owner, After(owner, s, acts))
    decreases |acts|
  {
    if acts != [] {
      forall u: string ensures UserOk(owner, Do(owner, s, acts[0]), u) { StepKeeps(owner, s, acts[0], u); }
      InvRun(owner, Do(owner, s, acts[0]), acts[1..]);
    }
  }

  lemma ReturnedRecent(owner: string -> string, acts: seq<Action>, i: nat)
    requires Runs(owner, Init(), acts) && CalmRun(owner, Init(), acts)
    requires i < |After(owner, Init(), acts).returned|
    ensures var s := After(owner, Init(), acts);
            exists v: nat :: ReturnedAs(HistoryOf(s, s.returned[i].user), s.returned[i], v)
  {
    InvRun(owner, Init(), acts);
    var s := After(owner, Init(), acts);
    assert UserOk(owner, s, s.returned[i].user);
    assert ReturnOk(HistoryOf(s, s.returned[i].user), s.returned[i], s.now);
  }

  /** Bounded staleness, for any number of processes and calls in flight: a returned scope is
      that of a version of its user's grants which no invalidation had settled out 15 minutes
      before, and not older than what its own process last evicted for. */
  lemma ScopesAreRecent(owner: string -> string, acts: seq<Action>, i: nat)
    requires Runs(owner, Init(), acts) && CalmRun(owner, Init(), acts)
    requires i < |After(owner, Init(), acts).returned|
    ensures var s := After(owner, Init(), acts);
            var r := s.returned[i];
            var versions, settled := HistoryOf(s, r.user).versions, HistoryOf(s, r.user).settled;
            exists v: nat :: && r.floor <= v < |versions| && r.scope == Build(versions[v].grants)
                             && versions[v].since <= r.at
                             && (v < settled ==> && v + 1 < |versions| && versions[v + 1].settledAt.Some?
                                                 && r.at - 900_000 <= versions[v + 1].settledAt.value)
  {
    ReturnedRecent(owner, acts, i);
    var s := After(owner, Init(), acts);
    var h := HistoryOf(s, s.returned[i].user);
    var v: nat :| ReturnedAs(h, s.returned[i], v);
    assert s.returned[i].scope == Build(h.versions[v].grants);
  }

  /** In the process that ran the invalidation of the newest version, and until the grants
      change again, a returned scope is that of the current grants. */
  lemma OwnInvalidationIsSeen(owner: string -> string, acts: seq<Action>, i: nat)
    requires Runs(owner, Init(), acts) && CalmRun(owner, Init(), acts)
    requires i < |After(owner, Init(), acts).returned|
    requires var s := After(owner, Init(), acts);
             s.returned[i].floor + 1 == |HistoryOf(s, s.returned[i].user).versions|
    ensures var s := After(owner, Init(), acts);
            s.returned[i].scope == Build(LatestGrants(HistoryOf(s, s.returned[i].user)))
  {
    var s := After(owner, Init(), acts);
    ReturnedRecent(owner, acts, i);
    NewestReturned(HistoryOf(s, s.returned[i].user), s.returned[i]);
  }

  lemma NewestReturned(h: History, r: Return)
    requires r.floor + 1 == |h.versions| && exists v: nat :: ReturnedAs(h, r, v)
    ensures r.scope == Build(LatestGrants(h))
  {
    var v: nat :| ReturnedAs(h, r, v);
    assert v == r.floor && LatestGrants(h) == h.versions[v].grants;
  }

  /** Version v was the current one at time m. */
  predicate HeldAt(h: History, v: nat, m: int)
    requires v < |h.versions|
  {
    h.versions[v].since <= m && (v + 1 < |h.versions| ==> m <= h.versions[v + 1].since)
  }

  /** Every change was followed by its invalidation at once. */
  ghost predicate Prompt(h: History) {
    forall v | 0 < v < |h.versions| :: h.versions[v].settledAt == Some(h.versions[v].since)
  }

  /** The scope returned is that of version v, held at a moment m of the 15 minutes before. */
  ghost predicate HeldWithin(h: History, r: Return, v: nat, m: int) {
    r.at - 900_000 <= m <= r.at && v < |h.versions| && r.scope == Build(h.versions[v].grants) && HeldAt(h, v, m)
  }

  lemma PromptHeld(h: History, now: nat, r: Return) returns (v: nat, m: int)
    requires HistoryOk(h, now) && Prompt(h) && exists v: nat :: ReturnedAs(h, r, v)
    ensures HeldWithin(h, r, v, m)
  {
    v :| ReturnedAs(h, r, v);
    m := if v + 1 < |h.versions| && h.versions[v + 1].since < r.at then h.versions[v + 1].since else r.at;
    if v + 1 < |h.versions| {
      assert h.versions[v + 1].settledAt == Some(h.versions[v + 1].since);
      assert h.versions[v].since <= h.versions[v + 1].since;
    }
  }

  /** With prompt invalidations a returned scope is the roll-up of the user's grants as they
      stood at some moment of the last 15 minutes. */
  lemma ScopesWithinFifteenMinutes(owner: string -> string, acts: seq<Action>, i: nat)
    requires Runs(owner, Init(), acts) && CalmRun(owner, Init(), acts)
    requires i < |After(owner, Init(), acts).returned|
    requires var s := After(owner, Init(), acts); Prompt(HistoryOf(s, s.returned[i].user))
    ensures var s := After(owner, Init(), acts);
            var r := s.returned[i];
            exists v: nat, m: int :: HeldWithin(HistoryOf(s, r.user), r, v, m)
  {
    ReturnedRecent(owner, acts, i);
    InvRun(owner, Init(), acts);
    var s := After(owner, Init(), acts);
    var r := s.returned[i];
    var h := HistoryOf(s, r.user);
    assert UserOk(owner, s, r.user);
    var v, m := PromptHeld(h, s.now, r);
  }

  // ----- The unlocked gap -----

  lemma {:induction false} RunsSnoc(owner: string -> string, s: State, acts: seq<Action>, a: Action)
    requires Runs(owner, s, acts) && Enabled(owner, After(owner, s, acts), a)
    ensures Runs(owner, s, acts + [a])
    ensures After(owner, s, acts + [a]) == Do(owner, After(owner, s, acts), a)
    decreases |acts|
  {
    if acts == [] {
      assert acts + [a] == [a] && [a][1..] == [];
    } else {
      RunsSnoc(owner, Do(owner, s, acts[0]), acts[1..], a);
      assert (acts + [a])[1..] == acts[1..] + [a];
    }
  }

  /** Every scope returned so far was recent when it was returned. */
  ghost predicate AllRecent(s: State) {
    forall i | 0 <= i < |s.returned| :: Recent(HistoryOf(s, s.returned[i].user), s.returned[i])
  }

  ghost predicate Recent(h: History, r: Return) {
    exists v: nat :: ReturnedAs(h, r, v)
  }

  /** However the run goes on with calm marks, only recent scopes are returned. */
  ghost predicate StaysRecent(owner: string -> string, s: State) {
    forall acts | Runs(owner, s, acts) && CalmRun(owner, s, acts) :: AllRecent(After(owner, s, acts))
  }

  lemma InvIsRecent(owner: string -> string, s: State)
    requires Inv(owner, s)
    ensures AllRecent(s)
  {
    forall i | 0 <= i < |s.returned| ensures Recent(HistoryOf(s, s.returned[i].user), s.returned[i]) {
      assert UserOk(owner, s, s.returned[i].user);
      assert ReturnOk(HistoryOf(s, s.returned[i].user), s.returned[i], s.now);
    }
  }

  lemma CalmSnoc(owner: string -> string, s: State, acts: seq<Action>, a: Action)
    requires Runs(owner, s, acts) && CalmRun(owner, s, acts) && Enabled(owner, After(owner, s, acts), a) && !a.Mark?
    ensures Runs(owner, s, acts + [a]) && CalmRun(owner, s, acts + [a])
    ensures After(owner, s, acts + [a]) == Do(owner, After(owner, s, acts), a)
    decreases |acts|
  {
    RunsSnoc(owner, s, acts, a);
    if acts == [] {
      assert acts + [a] == [a] && [a][1..] == [];
    } else {
      CalmSnoc(owner, Do(owner, s, acts[0]), acts[1..], a);
      assert (acts + [a])[0] == acts[0] && (acts + [a])[1..] == acts[1..] + [a];
    }
  }

  /** A scope that is not that of the newest version is not recent once more than 15 minutes
      have passed since the mark. */
  lemma NotRecent(h: History, now: nat, r: Return)
    requires HistoryOk(h, now) && r.scope != Build(LatestGrants(h)) && r.at - TTL_MS > now
    ensures !Recent(SettleAll(h, now), r)
  {
    var h' := SettleAll(h, now);
    forall v: nat ensures !ReturnedAs(h', r, v) {
      if v + 1 < |h.versions| {
        NotLive(h, now, v, r.at - TTL_MS);
      } else if v < |h.versions| {
        assert h'.versions[v].grants == LatestGrants(h);
      }
    }
  }

  lemma NotLive(h: History, now: nat, v: nat, t: int)
    requires HistoryOk(h, now) && v + 1 < |h.versions| && t > now
    ensures !LiveAt(SettleAll(h, now), v, t)
  {
    var next := SettleAll(h, now).versions[v + 1];
    assert next.settledAt.Some? && next.settledAt.value <= now;
  }

  /** After such a mark the call can hand out what it holds more than 15 minutes later. */
  lemma OutdatedGoesStale(owner: string -> string, s: State, id: nat) returns (acts: seq<Action>)
    requires Inv(owner, s) && id in s.calls
    requires Outdated(HistoryOf(s, owner(s.calls[id].session)), s.calls[id].stage)
    ensures var t := Do(owner, s, Mark(owner(s.calls[id].session)));
            Runs(owner, t, acts) && CalmRun(owner, t, acts) && !AllRecent(After(owner, t, acts))
  {
    var c := s.calls[id];
    var u := owner(c.session);
    var t := Do(owner, s, Mark(u));
    assert UserOk(owner, s, u);
    acts := LateToFinish(owner, t, id);
    LateFinishIsStale(owner, HistoryOf(s, u), s.now, After(owner, t, acts), id);
    CalmSnoc(owner, t, acts, Finish(id));
    acts := acts + [Finish(id)];
  }

  lemma LateFinishIsStale(owner: string -> string, h: History, now: nat, late: State, id: nat)
    requires HistoryOk(h, now) && late.now > now + TTL_MS && id in late.calls
    requires HistoryOf(late, owner(late.calls[id].session)) == SettleAll(h, now)
    requires late.calls[id].stage.FromRow? || late.calls[id].stage.Stored?
    requires late.calls[id].stage.scope != Build(LatestGrants(h))
    ensures !AllRecent(Do(owner, late, Finish(id)))
  {
    var end := Do(owner, late, Finish(id));
    var r := end.returned[|end.returned| - 1];
    NotRecent(h, now, r);
    assert !Recent(HistoryOf(end, r.user), r);
  }

  /** A call that holds a scope or grants can be about to finish more than 15 minutes later. */
  lemma LateToFinish(owner: string -> string, t: State, id: nat) returns (acts: seq<Action>)
    requires id in t.calls && Held(t.calls[id].stage).Some?
    ensures Runs(owner, t, acts) && CalmRun(owner, t, acts)
    ensures var late := After(owner, t, acts);
            && id in late.calls && late.calls[id].session == t.calls[id].session
            && (late.calls[id].stage.FromRow? || late.calls[id].stage.Stored?)
            && late.calls[id].stage.scope == Held(t.calls[id].stage).value
            && late.now == t.now + TTL_MS + 1 && late.users == t.users
  {
    acts := [];
    CalmSnoc(owner, t, acts, Tick(TTL_MS + 1));
    acts := acts + [Tick(TTL_MS + 1)];
    if t.calls[id].stage.Listed? {
      CalmSnoc(owner, t, acts, Upsert(id));
      acts := acts + [Upsert(id)];
    }
  }

  /** What the missing lock costs, exactly: a mark keeps all later scopes recent if and only if
      no call of the user in flight holds an outdated scope or outdated grants. */
  lemma MarkKeepsRecentExactly(owner: string -> string, acts: seq<Action>, u: string)
    requires Runs(owner, Init(), acts) && CalmRun(owner, Init(), acts)
    ensures var s := After(owner, Init(), acts);
            Calm(owner, s, Mark(u)) <==> StaysRecent(owner, Do(owner, s, Mark(u)))
  {
    InvRun(owner, Init(), acts);
    var s := After(owner, Init(), acts);
    var t := Do(owner, s, Mark(u));
    if Calm(owner, s, Mark(u)) {
      forall v: string ensures UserOk(owner, t, v) { StepKeeps(owner, s, Mark(u), v); }
      forall more | Runs(owner, t, more) && CalmRun(owner, t, more) ensures AllRecent(After(owner, t, more)) {
        InvRun(owner, t, more);
        InvIsRecent(owner, After(owner, t, more));
      }
    } else {
      var id :| id in s.calls && owner(s.calls[id].session) == u && Outdated(HistoryOf(s, u), s.calls[id].stage);
      var more := OutdatedGoesStale(owner, s, id);
    }
  }

  /** A mark that falls between listing and upsert is lost: the old scope ends up in an
      unmarked row although the newest version is settled. */
  lemma MarkInGapIsLost(owner: string -> string, s: State, id: nat, grants: seq<RoleGrant>)
    requires Inv(owner, s) && id in s.calls && s.calls[id].stage == Listed(grants)
    requires Build(grants) != Build(LatestGrants(HistoryOf(s, owner(s.calls[id].session))))
    ensures var sid := s.calls[id].session;
            var t := Do(owner, s, Mark(owner(sid)));
            && !Calm(owner, s, Mark(owner(sid))) && Enabled(owner, t, Upsert(id))
            && var w := Do(owner, t, Upsert(id));
            && RowHit(w.table, sid) && w.table[sid].scope == Build(grants)
            && !Fresh(HistoryOf(w, owner(sid)), w.table[sid].scope)
  {
    var u := owner(s.calls[id].session);
    assert UserOk(owner, s, u);
    var h := HistoryOf(s, u);
    var t := Do(owner, s, Mark(u));
    var w := Do(owner, t, Upsert(id));
    assert HistoryOf(w, u) == SettleAll(h, s.now);
    SettledFresh(h, s.now, Build(grants));
  }

  lemma Then(owner: string -> string, acts: seq<Action>, a: Action) returns (more: seq<Action>)
    requires Runs(owner, Init(), acts) && Enabled(owner, After(owner, Init(), acts), a)
    ensures more == acts + [a] && Runs(owner, Init(), more)
    ensures After(owner, Init(), more) == Do(owner, After(owner, Init(), acts), a)
  {
    RunsSnoc(owner, Init(), acts, a);
    more := acts + [a];
  }

  /** Process 0 has read the first grants. */
  lemma RaceListed(owner: string -> string, sid: string, first: seq<RoleGrant>) returns (acts: seq<Action>)
    ensures Runs(owner, Init(), acts)
    ensures After(owner, Init(), acts)
            == Init().(users := map[owner(sid) := History([Version([], 0, None), Version(first, 0, None)], 0)],
                       calls := map[0 := Call(0, sid, Listed(first))])
  {
    acts := Then(owner, [], Change(owner(sid), first));
    assert HistoryOf(After(owner, Init(), acts), owner(sid)).versions
        == [Version([], 0, None), Version(first, 0, None)];
    acts := Then(owner, acts, Begin(0, 0, sid));
    acts := Then(owner, acts, Select(0));
    acts := Then(owner, acts, List(0));
    assert After(owner, Init(), acts).calls == map[0 := Call(0, sid, Listed(first))];
  }

  function RacedHistory(first: seq<RoleGrant>, second: seq<RoleGrant>): History {
    History([Version([], 0, None), Version(first, 0, Some(0)), Version(second, 0, Some(0))], 2)
  }

  /** The grants change and the table is marked while process 0 holds the first ones. */
  lemma RaceMarked(owner: string -> string, sid: string, first: seq<RoleGrant>, second: seq<RoleGrant>)
    returns (acts: seq<Action>)
    ensures Runs(owner, Init(), acts)
    ensures After(owner, Init(), acts)
            == Init().(users := map[owner(sid) := RacedHistory(first, second)],
                       calls := map[0 := Call(0, sid, Listed(first))])
  {
    acts := RaceListed(owner, sid, first);
    acts := Then(owner, acts, Change(owner(sid), second));
    var h := History([Version([], 0, None), Version(first, 0, None), Version(second, 0, None)], 0);
    assert HistoryOf(After(owner, Init(), acts), owner(sid)) == h;
    assert SettleAll(h, 0) == RacedHistory(first, second);
    acts := Then(owner, acts, Mark(owner(sid)));
  }

  /** Only then does process 0 store what it read. */
  lemma RaceStored(owner: string -> string, sid: string, first: seq<RoleGrant>, second: seq<RoleGrant>)
    returns (acts: seq<Action>)
    ensures Runs(owner, Init(), acts)
    ensures var s := After(owner, Init(), acts);
            && s.now == 0 && s.calls == map[] && 1 !in s.hots && (1, owner(sid)) !in s.evicted
            && s.table == map[sid := Row(owner(sid), Build(first), false)]
            && s.users == map[owner(sid) := RacedHistory(first, second)]
  {
    acts := RaceMarked(owner, sid, first, second);
    acts := Then(owner, acts, Evict(0, owner(sid)));
    acts := Then(owner, acts, Upsert(0));
    acts := Then(owner, acts, Finish(0));
  }

  /** The unlocked gap breaks the bound without limit: for every delay, grants and session
      there is a run in which another process is given the old grants that long after their
      replacement was marked in the table. */
  lemma StaleForever(owner: string -> string, sid: string, first: seq<RoleGrant>, second: seq<RoleGrant>, delay: nat)
    returns (acts: seq<Action>)
    ensures Runs(owner, Init(), acts)
    ensures var s := After(owner, Init(), acts);
            && s.returned != []
            && s.returned[|s.returned| - 1] == Return(1, owner(sid), Build(first), delay, 0)
            && HistoryOf(s, owner(sid)) == RacedHistory(first, second)
  {
    acts := RaceStored(owner, sid, first, second);
    acts := Then(owner, acts, Tick(delay));
    acts := Then(owner, acts, Begin(1, 1, sid));
    acts := Then(owner, acts, Select(1));
    acts := Then(owner, acts, Finish(1));
  }
}
