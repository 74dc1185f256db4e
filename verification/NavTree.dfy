/** Which navigation item is active: a walk over the trees of all manifests whose work list
    grows while it is read. */
module NavTree {
  import opened Options
  import opened JsText

  datatype NavItem = NavItem(id: Text, to: Option<Text>, children: ChildList)

  /** The optional `children` of an item. */
  datatype ChildList = NoChildren | Below(items: seq<NavItem>)

  datatype NavSection = NavSection(items: seq<NavItem>)

  datatype NavManifest = NavManifest(nav: seq<NavSection>)

  const SLASH: CodeUnit := 47

  function Kids(x: NavItem): seq<NavItem> {
    if x.children.Below? then x.children.items else []
  }

  // ----- The trees -----

  /** An item and everything below it, depth first. */
  function Preorder(x: NavItem): (r: seq<NavItem>)
    ensures |r| > 0
    decreases x, 1, 0
  {
    [x] + PreorderKids(x, 0)
  }

  function PreorderKids(x: NavItem, i: nat): seq<NavItem>
    requires i <= |Kids(x)|
    decreases x, 0, |Kids(x)| - i
  {
    if i == |Kids(x)| then [] else Preorder(Kids(x)[i]) + PreorderKids(x, i + 1)
  }

  function Forest(items: seq<NavItem>): seq<NavItem> {
    if items == [] then [] else Preorder(items[0]) + Forest(items[1..])
  }

  lemma {:induction false} ForestOfKids(x: NavItem, i: nat)
    requires i <= |Kids(x)|
    ensures PreorderKids(x, i) == Forest(Kids(x)[i..])
    decreases |Kids(x)| - i
  {
    if i < |Kids(x)| { ForestOfKids(x, i + 1); }
  }

  lemma Associative<T>(a: seq<T>, b: seq<T>, c: seq<T>)
    ensures a + b + c == a + (b + c)
  {
  }

  lemma {:induction false} ForestConcat(a: seq<NavItem>, b: seq<NavItem>)
    ensures Forest(a + b) == Forest(a) + Forest(b)
  {
    if a == [] {
      assert a + b == b;
    } else {
      ForestConcat(a[1..], b);
      assert (a + b)[1..] == a[1..] + b && (a + b)[0] == a[0];
      Associative(Preorder(a[0]), Forest(a[1..]), Forest(b));
    }
  }

  /** Taking the first item off a work list and putting its children at the end. */
  function Next(queue: seq<NavItem>): seq<NavItem>
    requires queue != []
  {
    queue[1..] + Kids(queue[0])
  }

  /** This leaves one node fewer to visit. */
  lemma NextIsSmaller(queue: seq<NavItem>)
    requires queue != []
    ensures |Forest(Next(queue))| == |Forest(queue)| - 1
    ensures multiset(Forest(queue)) == multiset(Forest(Next(queue))) + multiset{queue[0]}
  {
    ForestConcat(queue[1..], Kids(queue[0]));
    ForestOfKids(queue[0], 0);
    assert Kids(queue[0])[0..] == Kids(queue[0]);
    assert Forest(queue) == [queue[0]] + Forest(Kids(queue[0])) + Forest(queue[1..]);
  }

  /** The order in which a growing work list is visited. */
  function Visit(queue: seq<NavItem>): seq<NavItem>
    decreases |Forest(queue)|
  {
    if queue == [] then []
    else
      NextIsSmaller(queue);
      [queue[0]] + Visit(Next(queue))
  }

  /** Every node of the forest is visited exactly as often as it is there. */
  lemma {:induction false} VisitsEveryNode(queue: seq<NavItem>)
    ensures multiset(Visit(queue)) == multiset(Forest(queue))
    decreases |Forest(queue)|
  {
    if queue != [] {
      NextIsSmaller(queue);
      VisitsEveryNode(Next(queue));
    }
  }

  /** The children of a row of items, row by row. */
  function Children(items: seq<NavItem>): seq<NavItem> {
    if items == [] then [] else Kids(items[0]) + Children(items[1..])
  }

  lemma NextOfRow(items: seq<NavItem>, behind: seq<NavItem>)
    requires items != []
    ensures items + behind != [] && (items + behind)[0] == items[0]
    ensures Next(items + behind) == items[1..] + (behind + Kids(items[0]))
  {
    assert (items + behind)[1..] == items[1..] + behind;
    Associative(items[1..], behind, Kids(items[0]));
  }

  lemma {:induction false} VisitsRowFirst(items: seq<NavItem>, behind: seq<NavItem>)
    ensures Visit(items + behind) == items + Visit(behind + Children(items))
  {
    if items == [] {
      assert items + behind == behind && behind + Children(items) == behind;
    } else {
      var rest, kids := items[1..], Kids(items[0]);
      VisitsRowFirst(rest, behind + kids);
      NextOfRow(items, behind);
      Associative(behind, kids, Children(rest));
      assert Visit(items + behind) == [items[0]] + Visit(rest + (behind + kids));
      Associative([items[0]], rest, Visit(behind + Children(items)));
      assert items == [items[0]] + rest;
    }
  }

  /** The visit goes level by level: all items of a level, then the visit of the next. */
  lemma VisitsLevelByLevel(items: seq<NavItem>)
    ensures Visit(items) == items + Visit(Children(items))
  {
    VisitsRowFirst(items, []);
    assert items + [] == items && [] + Children(items) == Children(items);
  }

  // ----- The match -----

  predicate StartsWith(s: Text, prefix: Text) {
    |prefix| <= |s| && s[..|prefix|] == prefix
  }

  /** An empty `to` counts as none. */
  predicate Matches(x: NavItem, pathname: Text) {
    x.to.Some? && x.to.value != [] && (pathname == x.to.value || StartsWith(pathname, x.to.value + [SLASH]))
  }

  /** A match is one of path segments: those of `to` begin those of the path. */
  lemma MatchesSegments(x: NavItem, pathname: Text)
    ensures Matches(x, pathname)
            <==> x.to.Some? && x.to.value != [] && Split(x.to.value, SLASH) <= Split(pathname, SLASH)
  {
    if x.to.Some? && x.to.value != [] {
      var to := x.to.value;
      if StartsWith(pathname, to + [SLASH]) {
        assert pathname == to + [SLASH] + pathname[|to| + 1..];
        SplitAppend(to, pathname[|to| + 1..], SLASH);
      }
      if Split(to, SLASH) <= Split(pathname, SLASH) { SegmentsBegin(to, pathname); }
    }
  }

  lemma SegmentsBegin(to: Text, pathname: Text)
    requires Split(to, SLASH) <= Split(pathname, SLASH)
    ensures pathname == to || StartsWith(pathname, to + [SLASH])
  {
    var a, all := Split(to, SLASH), Split(pathname, SLASH);
    var rest := all[|a|..];
    assert all == a + rest;
    JoinSplit(to, SLASH);
    JoinSplit(pathname, SLASH);
    if rest == [] {
      assert all == a;
    } else {
      JoinAppend(a, rest, SLASH);
    }
  }

  /** The first visited of the matching items with the longest `to`. */
  ghost predicate FirstLongest(v: seq<NavItem>, pathname: Text, k: nat) {
    && k < |v| && Matches(v[k], pathname)
    && (forall j | 0 <= j < k && Matches(v[j], pathname) :: |v[j].to.value| < |v[k].to.value|)
    && (forall j | k < j < |v| && Matches(v[j], pathname) :: |v[j].to.value| <= |v[k].to.value|)
  }

  ghost predicate NoMatch(v: seq<NavItem>, pathname: Text) {
    forall k | 0 <= k < |v| :: !Matches(v[k], pathname)
  }

  /** What the two loop variables say about the items visited so far. */
  ghost predicate BestOf(v: seq<NavItem>, pathname: Text, bestId: Option<Text>, bestLen: int) {
    (bestLen == -1 && bestId == None && NoMatch(v, pathname))
    || exists k: nat :: FirstLongest(v, pathname, k) && bestId == Some(v[k].id) && bestLen == |v[k].to.value|
  }

  lemma BestStep(v: seq<NavItem>, x: NavItem, pathname: Text, bestId: Option<Text>, bestLen: int)
    requires BestOf(v, pathname, bestId, bestLen)
    ensures if Matches(x, pathname) && |x.to.value| > bestLen
            then BestOf(v + [x], pathname, Some(x.id), |x.to.value|)
            else BestOf(v + [x], pathname, bestId, bestLen)
  {
    var all := v + [x];
    assert forall j | 0 <= j < |v| :: all[j] == v[j];
    if Matches(x, pathname) && |x.to.value| > bestLen {
      assert FirstLongest(all, pathname, |v|);
    } else if bestLen >= 0 {
      var k: nat :| FirstLongest(v, pathname, k) && bestId == Some(v[k].id) && bestLen == |v[k].to.value|;
      assert FirstLongest(all, pathname, k);
    }
  }

  function SectionItems(nav: seq<NavSection>): seq<NavItem> {
    if nav == [] then [] else SectionItems(nav[..|nav| - 1]) + nav[|nav| - 1].items
  }

  /** Everything visited, manifest by manifest. */
  function Visited(manifests: seq<NavManifest>): seq<NavItem> {
    if manifests == [] then []
    else Visited(manifests[..|manifests| - 1]) + Visit(SectionItems(manifests[|manifests| - 1].nav))
  }

  lemma SplitLast<T>(a: seq<T>, b: seq<T>)
    requires b != []
    ensures var n := |b| - 1; b == b[..n] + [b[n]] && a + b == a + b[..n] + [b[n]]
  {
  }

  lemma SectionItemsLast(front: seq<NavSection>, s: NavSection)
    ensures SectionItems(front + [s]) == SectionItems(front) + s.items
  {
    assert (front + [s])[..|front|] == front;
  }

  lemma {:induction false} SectionItemsConcat(a: seq<NavSection>, b: seq<NavSection>)
    ensures SectionItems(a + b) == SectionItems(a) + SectionItems(b)
  {
    if b == [] {
      assert a + b == a;
    } else {
      var n := |b| - 1;
      SectionItemsConcat(a, b[..n]);
      SplitLast(a, b);
      SectionItemsLast(a + b[..n], b[n]);
      SectionItemsLast(b[..n], b[n]);
      Associative(SectionItems(a), SectionItems(b[..n]), b[n].items);
    }
  }

  lemma VisitedLast(front: seq<NavManifest>, m: NavManifest)
    ensures Visited(front + [m]) == Visited(front) + Visit(SectionItems(m.nav))
  {
    assert (front + [m])[..|front|] == front;
  }

  lemma {:induction false} VisitedConcat(a: seq<NavManifest>, b: seq<NavManifest>)
    ensures Visited(a + b) == Visited(a) + Visited(b)
  {
    if b == [] {
      assert a + b == a;
    } else {
      var n := |b| - 1;
      VisitedConcat(a, b[..n]);
      SplitLast(a, b);
      VisitedLast(a + b[..n], b[n]);
      VisitedLast(b[..n], b[n]);
      Associative(Visited(a), Visited(b[..n]), Visit(SectionItems(b[n].nav)));
    }
  }

  /** Manifests are visited in their order, and of each the items of its sections in theirs. */
  lemma VisitedInOrder(m: NavManifest, manifests: seq<NavManifest>, s: NavSection, nav: seq<NavSection>)
    ensures Visited([m] + manifests) == Visit(SectionItems(m.nav)) + Visited(manifests)
    ensures SectionItems([s] + nav) == s.items + SectionItems(nav)
    ensures Visited([]) == [] && SectionItems([]) == []
  {
    VisitedConcat([m], manifests);
    SectionItemsConcat([s], nav);
    assert [m][..0] == [] && [s][..0] == [];
    assert Visited([m]) == [] + Visit(SectionItems(m.nav)) && SectionItems([s]) == [] + s.items;
  }

  lemma Popped(candidates: seq<NavItem>, i: nat)
    requires i < |candidates|
    ensures (candidates + Kids(candidates[i]))[i + 1..] == Next(candidates[i..])
    ensures Kids(candidates[i]) == [] ==> candidates[i + 1..] == Next(candidates[i..])
  {
    assert candidates[i..][1..] == candidates[i + 1..];
  }

  lemma Taken(before: seq<NavItem>, seen: seq<NavItem>, item: NavItem, rest: seq<NavItem>) returns (more: seq<NavItem>)
    ensures more == seen + [item]
    ensures before + more == before + seen + [item] && more + rest == seen + ([item] + rest)
  {
    more := seen + [item];
  }

  /** The inner loop over one manifest; `before` are the items visited earlier. */
  method Scan(items: seq<NavItem>, pathname: Text, id: Option<Text>, len: int, ghost before: seq<NavItem>)
    returns (bestId: Option<Text>, bestLen: int)
    requires BestOf(before, pathname, id, len)
    ensures BestOf(before + Visit(items), pathname, bestId, bestLen)
  {
    bestId, bestLen := id, len;
    var candidates := items;
    var i := 0;
    ghost var seen: seq<NavItem> := [];
    assert candidates[0..] == items && before + [] == before;
    while i < |candidates|
      invariant i <= |candidates|
      invariant seen + Visit(candidates[i..]) == Visit(items)
      invariant BestOf(before + seen, pathname, bestId, bestLen)
      decreases |Forest(candidates[i..])|
    {
      var item := candidates[i];
      ghost var queue := candidates[i..];
      NextIsSmaller(queue);
      Popped(candidates, i);
      BestStep(before + seen, item, pathname, bestId, bestLen);
      if item.children.Below? { candidates := candidates + item.children.items; }
      if item.to.Some? && item.to.value != [] {
        if pathname == item.to.value || StartsWith(pathname, item.to.value + [SLASH]) {
          if |item.to.value| > bestLen { bestLen, bestId := |item.to.value|, Some(item.id); }
        }
      }
      i := i + 1;
      seen := Taken(before, seen, item, Visit(Next(queue)));
    }
    assert Visit(candidates[i..]) == [] && seen + [] == seen;
  }

  lemma TakeNext<T>(s: seq<T>, n: nat)
    requires n < |s|
    ensures s[..n + 1] == s[..n] + [s[n]]
  {
  }

  lemma TakeAll<T>(s: seq<T>)
    ensures s[..|s|] == s
  {
  }

  /** The work list of one manifest to begin with. */
  method Candidates(m: NavManifest) returns (candidates: seq<NavItem>)
    ensures candidates == SectionItems(m.nav)
  {
    candidates := [];
    for s := 0 to |m.nav|
      invariant candidates == SectionItems(m.nav[..s])
    {
      candidates := candidates + m.nav[s].items;
      TakeNext(m.nav, s);
      SectionItemsLast(m.nav[..s], m.nav[s]);
    }
    TakeAll(m.nav);
  }

  /** The active item is the first visited of those matching the path with the longest `to`, at
      any depth of any manifest; there is none exactly when nothing matches. */
  method ActiveNavId(manifests: seq<NavManifest>, pathname: Text) returns (bestId: Option<Text>)
    ensures bestId.None? <==> NoMatch(Visited(manifests), pathname)
    ensures bestId.Some? ==>
              exists k: nat :: FirstLongest(Visited(manifests), pathname, k) && bestId == Some(Visited(manifests)[k].id)
  {
    bestId := None;
    var bestLen := -1;
    for n := 0 to |manifests|
      invariant BestOf(Visited(manifests[..n]), pathname, bestId, bestLen)
    {
      var m := manifests[n];
      var candidates := Candidates(m);
      bestId, bestLen := Scan(candidates, pathname, bestId, bestLen, Visited(manifests[..n]));
      TakeNext(manifests, n);
      VisitedLast(manifests[..n], m);
    }
    TakeAll(manifests);
  }

  /** The answer does not depend on the order of the search: it names an item that matches, and
      no item anywhere in the trees matches with a longer `to`. */
  lemma LongestAnywhere(manifests: seq<NavManifest>, pathname: Text, k: nat, m: nat, x: NavItem)
    requires FirstLongest(Visited(manifests), pathname, k)
    requires m < |manifests| && x in Forest(SectionItems(manifests[m].nav)) && Matches(x, pathname)
    ensures |x.to.value| <= |Visited(manifests)[k].to.value|
  {
    VisitedHas(manifests, m, x);
    NoneLonger(Visited(manifests), pathname, k, x);
  }

  lemma NoneLonger(v: seq<NavItem>, pathname: Text, k: nat, x: NavItem)
    requires FirstLongest(v, pathname, k) && x in v && Matches(x, pathname)
    ensures |x.to.value| <= |v[k].to.value|
  {
    var j :| 0 <= j < |v| && v[j] == x;
  }

  lemma VisitHas(items: seq<NavItem>, x: NavItem)
    requires x in Forest(items)
    ensures x in Visit(items)
  {
    VisitsEveryNode(items);
    assert x in multiset(Forest(items));
    assert x in multiset(Visit(items));
  }

  lemma {:induction false} VisitedHas(manifests: seq<NavManifest>, m: nat, x: NavItem)
    requires m < |manifests| && x in Forest(SectionItems(manifests[m].nav))
    ensures x in Visited(manifests)
  {
    var n := |manifests| - 1;
    if m < n {
      VisitedHas(manifests[..n], m, x);
    } else {
      VisitHas(SectionItems(manifests[n].nav), x);
    }
  }
}
