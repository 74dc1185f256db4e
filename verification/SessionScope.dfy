/** Session scopes: what a user may see, rolled up from role grants and cached twice, in a
    table shared by all processes and in a per-process map whose entries live 15 minutes. */
module SessionScope {
  import opened JsText
  import opened Options

  datatype ScopeType = TenantScope | GroupScope

  datatype RoleGrant = RoleGrant(roleSlug: Text, scopeType: ScopeType, scopeId: Option<Text>)

  /** The part of a scope that depends on the grants. */
  datatype Scope = Scope(roles: seq<Text>, crossTenantRead: bool, groups: seq<Text>)

  // ----- The roll-up -----

  function Slugs(grants: seq<RoleGrant>): seq<Text> {
    seq(|grants|, i requires 0 <= i < |grants| => grants[i].roleSlug)
  }

  function OrgViewer(): Text { Lit("org.viewer") }

  predicate GroupGrant(g: RoleGrant) {
    g.scopeType.GroupScope? && g.scopeId.Some? && g.scopeId.value != []
  }

  function GroupIds(grants: seq<RoleGrant>): (ids: seq<Text>)
    ensures Distinct(ids)
    ensures forall x :: x in ids <==>
              exists i :: 0 <= i < |grants| && GroupGrant(grants[i]) && grants[i].scopeId.value == x
  {
    if grants == [] then []
    else
      var n := |grants| - 1;
      var ids := GroupIds(grants[..n]);
      if GroupGrant(grants[n]) && grants[n].scopeId.value !in ids then ids + [grants[n].scopeId.value] else ids
  }

  function Build(grants: seq<RoleGrant>): Scope {
    Scope(Sort(Dedupe(Slugs(grants))), OrgViewer() in Slugs(grants), Sort(GroupIds(grants)))
  }

  /** The set filled in a loop, then sorted. */
  method ComputeAccessibleGroups(grants: seq<RoleGrant>) returns (groups: seq<Text>)
    ensures groups == Build(grants).groups
  {
    var ids: seq<Text> := [];
    for i := 0 to |grants|
      invariant ids == GroupIds(grants[..i])
    {
      var g := grants[i];
      assert grants[..i + 1][..i] == grants[..i];
      if g.scopeType.GroupScope? && g.scopeId.Some? && g.scopeId.value != [] {
        if g.scopeId.value !in ids { ids := ids + [g.scopeId.value]; }
      }
    }
    assert grants[..|grants|] == grants;
    groups := Sort(ids);
  }

  lemma BuildMembers(grants: seq<RoleGrant>)
    ensures var s := Build(grants);
            && Sorted(s.roles) && Distinct(s.roles) && Sorted(s.groups) && Distinct(s.groups)
            && (forall x :: x in s.roles <==> exists i :: 0 <= i < |grants| && grants[i].roleSlug == x)
            && (forall x :: x in s.groups <==>
                  exists i :: 0 <= i < |grants| && GroupGrant(grants[i]) && grants[i].scopeId.value == x)
            && (s.crossTenantRead <==> OrgViewer() in s.roles)
  {
    var slugs, ids := Dedupe(Slugs(grants)), GroupIds(grants);
    SortSorted(slugs);
    SortSorted(ids);
    DistinctByMultiset(slugs, Sort(slugs));
    DistinctByMultiset(ids, Sort(ids));
    forall x ensures (x in Sort(slugs) <==> x in slugs) && (x in Sort(ids) <==> x in ids) {
      assert x in multiset(Sort(slugs)) <==> x in multiset(slugs);
      assert x in multiset(Sort(ids)) <==> x in multiset(ids);
    }
    forall x ensures x in slugs <==> exists i :: 0 <= i < |grants| && grants[i].roleSlug == x {
      if x in slugs {
        var i :| 0 <= i < |grants| && Slugs(grants)[i] == x;
        assert grants[i].roleSlug == x;
      }
      if i :| 0 <= i < |grants| && grants[i].roleSlug == x {
        assert Slugs(grants)[i] == x;
      }
    }
  }

  lemma RoleGranted(grants: seq<RoleGrant>, x: Text)
    ensures x in Build(grants).roles <==> exists g :: g in grants && g.roleSlug == x
  {
    BuildMembers(grants);
    if i :| 0 <= i < |grants| && grants[i].roleSlug == x { assert grants[i] in grants; }
  }

  lemma GroupGranted(grants: seq<RoleGrant>, x: Text)
    ensures x in Build(grants).groups <==>
              x != [] && exists g :: g in grants && g.scopeType == GroupScope && g.scopeId == Some(x)
  {
    BuildMembers(grants);
    if i :| 0 <= i < |grants| && GroupGrant(grants[i]) && grants[i].scopeId.value == x { assert grants[i] in grants; }
    if g :| g in grants && g.scopeType == GroupScope && g.scopeId == Some(x) && x != [] {
      var i :| 0 <= i < |grants| && grants[i] == g;
      assert GroupGrant(grants[i]) && grants[i].scopeId.value == x;
    }
  }

  /** The roles are exactly the granted slugs, sorted and once each, the groups exactly the
      non-empty ids of group grants, and cross-tenant reading is the org.viewer role. */
  lemma BuildMeaning(grants: seq<RoleGrant>)
    ensures Sorted(Build(grants).roles) && Distinct(Build(grants).roles)
    ensures Sorted(Build(grants).groups) && Distinct(Build(grants).groups)
    ensures forall x :: x in Build(grants).roles <==> exists g :: g in grants && g.roleSlug == x
    ensures forall x :: x in Build(grants).groups <==>
              x != [] && exists g :: g in grants && g.scopeType == GroupScope && g.scopeId == Some(x)
    ensures Build(grants).crossTenantRead <==> exists g :: g in grants && g.roleSlug == Lit("org.viewer")
  {
    BuildMembers(grants);
    RoleGranted(grants, OrgViewer());
    forall x ensures x in Build(grants).roles <==> exists g :: g in grants && g.roleSlug == x {
      RoleGranted(grants, x);
    }
    forall x
      ensures x in Build(grants).groups <==>
                x != [] && exists g :: g in grants && g.scopeType == GroupScope && g.scopeId == Some(x)
    {
      GroupGranted(grants, x);
    }
  }

  /** The scope depends on which grants a user has, not on their order or repetition. */
  lemma BuildIgnoresOrder(a: seq<RoleGrant>, b: seq<RoleGrant>)
    requires forall g :: g in a <==> g in b
    ensures Build(a) == Build(b)
  {
    BuildMembers(a);
    BuildMembers(b);
    SameMembers(a, b);
    SameMembers(b, a);
    SortedSetUnique(Build(a).roles, Build(b).roles);
    SortedSetUnique(Build(a).groups, Build(b).groups);
  }

  lemma SameMembers(a: seq<RoleGrant>, b: seq<RoleGrant>)
    requires forall g | g in a :: g in b
    ensures forall x | x in Build(a).roles :: x in Build(b).roles
    ensures forall x | x in Build(a).groups :: x in Build(b).groups
  {
    BuildMembers(a);
    BuildMembers(b);
    forall x | x in Build(a).roles ensures x in Build(b).roles {
      var i :| 0 <= i < |a| && a[i].roleSlug == x;
      assert a[i] in b;
      var j :| 0 <= j < |b| && b[j] == a[i];
      assert b[j].roleSlug == x;
    }
    forall x | x in Build(a).groups ensures x in Build(b).groups {
      var i :| 0 <= i < |a| && GroupGrant(a[i]) && a[i].scopeId.value == x;
      assert a[i] in b;
      var j :| 0 <= j < |b| && b[j] == a[i];
      assert GroupGrant(b[j]) && b[j].scopeId.value == x;
    }
  }

  // ----- The two caches -----

  const TTL_MS: nat := 1000 * 60 * 15

  datatype HotEntry = HotEntry(user: string, scope: Scope, setAt: nat)

  type Hot = map<string, HotEntry>

  datatype Row = Row(user: string, scope: Scope, invalidated: bool)

  type Table = map<string, Row>

  /** `hot.get`: an entry is served until it is older than the TTL. */
  predicate HotHit(hot: Hot, session: string, now: nat) {
    session in hot && now <= hot[session].setAt + TTL_MS
  }

  predicate RowHit(table: Table, session: string) {
    session in table && !table[session].invalidated
  }

  function MarkUser(table: Table, user: string): Table {
    map k | k in table :: if table[k].user == user then table[k].(invalidated := true) else table[k]
  }

  /** Going through the hot map passes over entries older than the TTL, which stay. */
  function EvictUser(hot: Hot, user: string, now: nat): Hot {
    map k | k in hot && !(HotHit(hot, k, now) && hot[k].user == user) :: hot[k]
  }

  lemma OneFewer(hot: Hot, k: string)
    requires k in hot
    ensures |hot - {k}| == |hot| - 1
  {
    assert hot.Keys == (hot - {k}).Keys + {k};
  }

  class ScopeTable {
    var rows: Table

    constructor ()
      ensures rows == map[]
    {
      rows := map[];
    }
  }

  /** One process: its hot map over the shared table, with calls that nothing interleaves. */
  class Process {
    var hot: Hot
    const table: ScopeTable

    constructor (table: ScopeTable)
      ensures this.table == table && hot == map[]
    {
      this.table := table;
      hot := map[];
    }

    method GetSessionScope(grants: seq<RoleGrant>, session: string, user: string, now: nat) returns (scope: Scope)
      modifies this, table
      ensures session in old(hot) && now <= old(hot)[session].setAt + 900_000 ==>
                scope == old(hot)[session].scope && hot == old(hot) && table.rows == old(table.rows)
      ensures !(session in old(hot) && now <= old(hot)[session].setAt + 900_000)
              && session in old(table.rows) && !old(table.rows)[session].invalidated ==>
                && scope == old(table.rows)[session].scope && table.rows == old(table.rows)
                && hot == old(hot)[session := HotEntry(old(table.rows)[session].user, scope, now)]
      ensures !(session in old(hot) && now <= old(hot)[session].setAt + 900_000)
              && !(session in old(table.rows) && !old(table.rows)[session].invalidated) ==>
                && scope == Build(grants)
                && table.rows == old(table.rows)[session := Row(user, scope, false)]
                && hot == old(hot)[session := HotEntry(user, scope, now)]
    {
      if session in hot && now <= hot[session].setAt + TTL_MS { return hot[session].scope; }
      if session in table.rows && !table.rows[session].invalidated {
        var row := table.rows[session];
        hot := hot[session := HotEntry(row.user, row.scope, now)];
        return row.scope;
      }
      var groups := ComputeAccessibleGroups(grants);
      var slugs := Slugs(grants);
      scope := Scope(Sort(Dedupe(slugs)), OrgViewer() in slugs, groups);
      table.rows := table.rows[session := Row(user, scope, false)];
      hot := hot[session := HotEntry(user, scope, now)];
    }

    method EvictHotByUser(user: string, now: nat) returns (n: nat)
      modifies this
      ensures hot == EvictUser(old(hot), user, now)
      ensures forall k :: k in hot <==>
                k in old(hot) && !(old(hot)[k].user == user && now <= old(hot)[k].setAt + 900_000)
      ensures forall k | k in hot :: hot[k] == old(hot)[k]
      ensures n == |old(hot)| - |hot|
    {
      n := 0;
      var keys := hot.Keys;
      ghost var all := hot;
      while keys != {}
        invariant keys <= all.Keys
        invariant hot == map k | k in all && (k in keys || !(HotHit(all, k, now) && all[k].user == user)) :: all[k]
        invariant n == |all| - |hot|
        decreases |keys|
      {
        var k :| k in keys;
        if now <= hot[k].setAt + TTL_MS && hot[k].user == user {
          OneFewer(hot, k);
          hot := hot - {k};
          n := n + 1;
        }
        keys := keys - {k};
      }
    }

    method InvalidateUserSessions(user: string, now: nat)
      modifies this, table
      ensures table.rows == MarkUser(old(table.rows), user)
      ensures table.rows.Keys == old(table.rows).Keys
      ensures forall k | k in table.rows ::
                table.rows[k] == Row(old(table.rows)[k].user, old(table.rows)[k].scope,
                                     old(table.rows)[k].invalidated || old(table.rows)[k].user == user)
      ensures forall k :: k in hot <==>
                k in old(hot) && !(old(hot)[k].user == user && now <= old(hot)[k].setAt + 900_000)
      ensures hot == EvictUser(old(hot), user, now)
    {
      table.rows := map k | k in table.rows ::
        if table.rows[k].user == user then table.rows[k].(invalidated := true) else table.rows[k];
      var n := EvictHotByUser(user, now);
    }
  }
}
