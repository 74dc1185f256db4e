/** The two caches built on it and their keys. */
module RetrievalCaches {
  import opened Options
  import opened JsText
  import opened LruCache

  const SPACE: CodeUnit := 32
  const COMMA: CodeUnit := 44
  const BAR: CodeUnit := 124

  function EmbedKey(modelId: Text, query: Text): Text {
    modelId + [SPACE] + query
  }

  /** `keyFor` before hashing. */
  function RerankKey(query: Text, docIds: seq<Text>): Text {
    query + [BAR] + Join(Sort(docIds), COMMA)
  }

  /** Splitting at a separator absent from the left parts is unambiguous. */
  lemma SplitAtFirst(a: Text, x: Text, b: Text, y: Text, sep: CodeUnit)
    requires sep !in a && sep !in b && a + [sep] + x == b + [sep] + y
    ensures a == b && x == y
  {
    var s := a + [sep] + x;
    assert s[|a|] == sep && s[|b|] == sep;
    assert s[..|a|] == a && s[..|b|] == b && s[|a| + 1..] == x && s[|b| + 1..] == y;
  }

  lemma SplitAtLast(a: Text, x: Text, b: Text, y: Text, sep: CodeUnit)
    requires sep !in x && sep !in y && a + [sep] + x == b + [sep] + y
    ensures a == b && x == y
  {
    var s := a + [sep] + x;
    assert s[|a|] == sep && s[|b|] == sep;
    assert s[..|a|] == a && s[..|b|] == b && s[|a| + 1..] == x && s[|b| + 1..] == y;
  }

  /** The text between the two left parts belongs to the left of one and to the right of the
      other. */
  predicate Extends(a: Text, x: Text, b: Text, y: Text, sep: CodeUnit) {
    a + [sep] <= b && x == b[|a| + 1..] + [sep] + y
  }

  lemma ExtendsJoinsAlike(a: Text, x: Text, b: Text, y: Text, sep: CodeUnit)
    requires Extends(a, x, b, y, sep)
    ensures a + [sep] + x == b + [sep] + y
  {
    assert b == a + [sep] + b[|a| + 1..];
  }

  lemma ExtendsHoldsSep(a: Text, x: Text, b: Text, y: Text, sep: CodeUnit)
    requires Extends(a, x, b, y, sep)
    ensures sep in b && sep in x
  {
    assert b[|a|] == (a + [sep])[|a|] == sep;
    assert x[|b[|a| + 1..]|] == sep;
  }

  lemma LongerExtends(a: Text, x: Text, b: Text, y: Text, sep: CodeUnit)
    requires |a| < |b| && a + [sep] + x == b + [sep] + y
    ensures Extends(a, x, b, y, sep)
  {
    var s := a + [sep] + x;
    assert s[..|a| + 1] == a + [sep] && s[..|b|] == b;
    assert b[..|a| + 1] == s[..|a| + 1];
    assert b == a + [sep] + b[|a| + 1..];
    assert x == s[|a| + 1..] == b[|a| + 1..] + [sep] + y;
  }

  /** Two texts joined around a separator are equal in three ways. */
  lemma JoinedAlike(a: Text, x: Text, b: Text, y: Text, sep: CodeUnit)
    ensures a + [sep] + x == b + [sep] + y
            <==> (a == b && x == y) || Extends(a, x, b, y, sep) || Extends(b, y, a, x, sep)
  {
    if Extends(a, x, b, y, sep) { ExtendsJoinsAlike(a, x, b, y, sep); }
    if Extends(b, y, a, x, sep) { ExtendsJoinsAlike(b, y, a, x, sep); }
    var s, t := a + [sep] + x, b + [sep] + y;
    if s == t {
      if |a| < |b| {
        LongerExtends(a, x, b, y, sep);
      } else if |b| < |a| {
        LongerExtends(b, y, a, x, sep);
      } else {
        assert a == s[..|a|] == b && x == s[|a| + 1..] == y;
      }
    }
  }

  /** With model ids free of spaces, as the source has them, no two queries share a key. */
  lemma EmbedKeyExact(model1: Text, query1: Text, model2: Text, query2: Text)
    requires SPACE !in model1 && SPACE !in model2
    ensures EmbedKey(model1, query1) == EmbedKey(model2, query2) <==> model1 == model2 && query1 == query2
  {
    if EmbedKey(model1, query1) == EmbedKey(model2, query2) {
      SplitAtFirst(model1, query1, model2, query2, SPACE);
    }
  }

  /** Any two requests: they share a key if they are the same, or if one model id goes on after
      a space with what begins the query of the other. */
  lemma EmbedKeyShared(model1: Text, query1: Text, model2: Text, query2: Text)
    ensures EmbedKey(model1, query1) == EmbedKey(model2, query2)
            <==> || (model1 == model2 && query1 == query2)
                 || Extends(model1, query1, model2, query2, SPACE)
                 || Extends(model2, query2, model1, query1, SPACE)
  {
    JoinedAlike(model1, query1, model2, query2, SPACE);
  }

  /** Two models can share a key exactly when one id is the other followed by a space. */
  lemma EmbedKeyCollides(model1: Text, model2: Text)
    requires model1 != model2
    ensures (exists query1, query2 :: EmbedKey(model1, query1) == EmbedKey(model2, query2))
            <==> model1 + [SPACE] <= model2 || model2 + [SPACE] <= model1
  {
    forall query1, query2 | EmbedKey(model1, query1) == EmbedKey(model2, query2)
      ensures model1 + [SPACE] <= model2 || model2 + [SPACE] <= model1
    {
      EmbedKeyShared(model1, query1, model2, query2);
    }
    if model1 + [SPACE] <= model2 {
      var query1 := model2[|model1| + 1..] + [SPACE];
      assert query1 == query1 + [];
      EmbedKeyShared(model1, query1, model2, []);
    }
    if model2 + [SPACE] <= model1 {
      var query2 := model1[|model2| + 1..] + [SPACE];
      assert query2 == query2 + [];
      EmbedKeyShared(model1, [], model2, query2);
    }
  }

  // ----- What a joined list of ids tells -----

  /** The parts of ids joined by commas. No ids at all read as one empty id. */
  function Pieces(ids: seq<Text>): seq<Text> {
    if ids == [] then [[]]
    else if |ids| == 1 then Split(ids[0], COMMA)
    else Split(ids[0], COMMA) + Pieces(ids[1..])
  }

  lemma {:induction false} SplitJoin(ids: seq<Text>)
    ensures Split(Join(ids, COMMA), COMMA) == Pieces(ids)
  {
    if |ids| > 1 {
      SplitAppend(ids[0], Join(ids[1..], COMMA), COMMA);
      SplitJoin(ids[1..]);
    }
  }

  /** Joined lists are equal exactly when their pieces are. */
  lemma JoinTellsPieces(a: seq<Text>, b: seq<Text>)
    ensures Join(a, COMMA) == Join(b, COMMA) <==> Pieces(a) == Pieces(b)
  {
    SplitJoin(a);
    SplitJoin(b);
    JoinSplit(Join(a, COMMA), COMMA);
    JoinSplit(Join(b, COMMA), COMMA);
  }

  /** Document ids as the store makes them: not empty, without comma or bar. */
  ghost predicate Clean(docIds: seq<Text>) {
    forall id | id in docIds :: id != [] && COMMA !in id && BAR !in id
  }

  lemma CleanSort(docIds: seq<Text>)
    requires Clean(docIds)
    ensures Clean(Sort(docIds))
  {
    forall id | id in Sort(docIds) ensures id in docIds {
      assert id in multiset(Sort(docIds));
    }
  }

  lemma {:induction false} JoinWithoutBar(ids: seq<Text>)
    requires Clean(ids)
    ensures BAR !in Join(ids, COMMA)
    ensures ids != [] ==> Join(ids, COMMA) != []
  {
    if |ids| > 0 {
      assert ids[0] in ids;
      assert forall id | id in ids[1..] :: id in ids;
      JoinWithoutBar(ids[1..]);
    }
  }

  lemma {:induction false} CleanPieces(ids: seq<Text>)
    requires Clean(ids) && ids != []
    ensures Pieces(ids) == ids
  {
    assert ids[0] in ids;
    SplitOne(ids[0], COMMA);
    if |ids| > 1 {
      assert forall id | id in ids[1..] :: id in ids;
      CleanPieces(ids[1..]);
    }
    assert ids == [ids[0]] + ids[1..];
  }

  lemma JoinInjective(a: seq<Text>, b: seq<Text>)
    requires Clean(a) && Clean(b) && Join(a, COMMA) == Join(b, COMMA)
    ensures a == b
  {
    JoinWithoutBar(a);
    JoinWithoutBar(b);
    if a != [] && b != [] {
      CleanPieces(a);
      CleanPieces(b);
      JoinTellsPieces(a, b);
    }
  }

  /** The rerank key of clean ids forgets the order of the ids and nothing else. */
  lemma RerankKeyExact(query1: Text, ids1: seq<Text>, query2: Text, ids2: seq<Text>)
    requires Clean(ids1) && Clean(ids2)
    ensures RerankKey(query1, ids1) == RerankKey(query2, ids2)
            <==> query1 == query2 && multiset(ids1) == multiset(ids2)
  {
    var j1, j2 := Join(Sort(ids1), COMMA), Join(Sort(ids2), COMMA);
    CleanSort(ids1);
    CleanSort(ids2);
    SortCanonical(ids1, ids2);
    if RerankKey(query1, ids1) == RerankKey(query2, ids2) {
      JoinWithoutBar(Sort(ids1));
      JoinWithoutBar(Sort(ids2));
      SplitAtLast(query1, j1, query2, j2, BAR);
      JoinInjective(Sort(ids1), Sort(ids2));
    }
  }

  /** Two requests with one key: same query and same pieces, or one query goes on after a bar
      with what begins the ids of the other. */
  ghost predicate OneKey(query1: Text, ids1: seq<Text>, query2: Text, ids2: seq<Text>) {
    var j1, j2 := Join(Sort(ids1), COMMA), Join(Sort(ids2), COMMA);
    || (query1 == query2 && Pieces(Sort(ids1)) == Pieces(Sort(ids2)))
    || Extends(query1, j1, query2, j2, BAR)
    || Extends(query2, j2, query1, j1, BAR)
  }

  /** Any two requests, whatever their ids are. */
  lemma RerankKeyShared(query1: Text, ids1: seq<Text>, query2: Text, ids2: seq<Text>)
    ensures RerankKey(query1, ids1) == RerankKey(query2, ids2) <==> OneKey(query1, ids1, query2, ids2)
  {
    JoinedAlike(query1, Join(Sort(ids1), COMMA), query2, Join(Sort(ids2), COMMA), BAR);
    JoinTellsPieces(Sort(ids1), Sort(ids2));
  }

  /** A comma that cuts the id into two ids already in order. */
  predicate Cuts(id: Text, i: nat) {
    i < |id| && id[i] == COMMA && Le(id[..i], id[i + 1..])
  }

  /** Another request with the same key. */
  ghost predicate Rival(query: Text, ids: seq<Text>, query2: Text, ids2: seq<Text>) {
    && RerankKey(query2, ids2) == RerankKey(query, ids)
    && !(query2 == query && multiset(ids2) == multiset(ids))
  }

  lemma SortSingle(id: Text)
    ensures Sort([id]) == [id]
  {
    assert [id][1..] == [];
  }

  lemma SortPair(a: Text, b: Text)
    requires Le(a, b)
    ensures Sort([a, b]) == [a, b] && Join([a, b], COMMA) == a + [COMMA] + b
  {
    SortSingle(b);
    assert [a, b][1..] == [b];
  }

  lemma OtherLength(a: seq<Text>, b: seq<Text>)
    requires |a| != |b|
    ensures multiset(a) != multiset(b)
  {
    assert |multiset(a)| == |a| && |multiset(b)| == |b|;
  }

  /** Moving what lies around a separator from the left of another separator to its right. */
  lemma Reassociate(a: Text, sep1: CodeUnit, b: Text, sep2: CodeUnit, c: Text)
    ensures (a + [sep1] + b) + [sep2] + c == a + [sep1] + (b + [sep2] + c)
  {
  }

  lemma CutAt(t: Text, i: nat)
    requires i < |t|
    ensures t == t[..i] + [t[i]] + t[i + 1..]
  {
  }

  /** A bar in the query: the query ends there and the rest begins the one id. */
  lemma BarInQuery(query: Text, ids: seq<Text>, i: nat)
    requires i < |query| && query[i] == BAR
    ensures Rival(query, ids, query[..i], [query[i + 1..] + [BAR] + Join(Sort(ids), COMMA)])
  {
    var joined := Join(Sort(ids), COMMA);
    SortSingle(query[i + 1..] + [BAR] + joined);
    CutAt(query, i);
    Reassociate(query[..i], BAR, query[i + 1..], BAR, joined);
  }

  /** A bar in the one id: the query goes on up to the bar. */
  lemma BarInId(query: Text, id: Text, i: nat)
    requires i < |id| && id[i] == BAR
    ensures Rival(query, [id], query + [BAR] + id[..i], [id[i + 1..]])
  {
    SortSingle(id);
    SortSingle(id[i + 1..]);
    CutAt(id, i);
    Reassociate(query, BAR, id[..i], BAR, id[i + 1..]);
  }

  /** A comma in the one id: two ids, if they are in order. */
  lemma CommaInId(query: Text, id: Text, i: nat)
    requires Cuts(id, i)
    ensures Rival(query, [id], query, [id[..i], id[i + 1..]])
  {
    SortSingle(id);
    SortPair(id[..i], id[i + 1..]);
    CutAt(id, i);
    OtherLength([id], [id[..i], id[i + 1..]]);
  }

  /** An empty id: the same as no id. */
  lemma EmptyId(query: Text)
    ensures Rival(query, [[]], query, []) && Rival(query, [], query, [[]])
  {
    SortSingle([]);
    OtherLength([[]], []);
  }

  /** Several ids: the same as one id with commas. */
  lemma SeveralIds(query: Text, ids: seq<Text>)
    requires |ids| > 1
    ensures Rival(query, ids, query, [Join(Sort(ids), COMMA)])
  {
    SortSingle(Join(Sort(ids), COMMA));
    OtherLength(ids, [Join(Sort(ids), COMMA)]);
  }

  lemma {:induction false} LeBefore(a: Text, b: Text, x: Text)
    requires Le(a, b)
    ensures Le(a, b + x)
  {
    if |a| > 0 && |b| > 0 {
      assert (b + x)[1..] == b[1..] + x;
      if a[0] == b[0] { LeBefore(a[1..], b[1..], x); }
    }
  }

  /** A text joined from several ids in order has a comma that cuts it. */
  lemma JoinedCuts(ids: seq<Text>)
    requires Sorted(ids) && |ids| > 1
    ensures Cuts(Join(ids, COMMA), |ids[0]|)
  {
    var rest := Join(ids[1..], COMMA);
    var id := ids[0] + [COMMA] + rest;
    assert id[..|ids[0]|] == ids[0] && id[|ids[0]| + 1..] == rest;
    assert Le(ids[0], ids[1]);
    if |ids| > 2 {
      LeBefore(ids[0], ids[1], [COMMA] + Join(ids[2..], COMMA));
      assert ids[1..][1..] == ids[2..];
      assert rest == ids[1] + ([COMMA] + Join(ids[2..], COMMA));
    }
  }

  /** The requests that share their key with no other one: a query without a bar and one id that
      is not empty, has no bar and is not cut by a comma into ids in order. */
  predicate Alone(query: Text, ids: seq<Text>) {
    && BAR !in query
    && |ids| == 1
    && ids[0] != []
    && BAR !in ids[0]
    && forall i | 0 <= i < |ids[0]| :: !Cuts(ids[0], i)
  }

  lemma AloneHasNoRival(query: Text, ids: seq<Text>, query2: Text, ids2: seq<Text>)
    requires Alone(query, ids) && RerankKey(query2, ids2) == RerankKey(query, ids)
    ensures query2 == query && ids2 == ids
  {
    var id, j2 := ids[0], Join(Sort(ids2), COMMA);
    SortSingle(id);
    assert ids == [id];
    JoinedAlike(query, id, query2, j2, BAR);
    if Extends(query, id, query2, j2, BAR) {
      ExtendsHoldsSep(query, id, query2, j2, BAR);
      assert false;
    } else if Extends(query2, j2, query, id, BAR) {
      ExtendsHoldsSep(query2, j2, query, id, BAR);
      assert false;
    } else {
      SortSorted(ids2);
      assert |multiset(Sort(ids2))| == |multiset(ids2)| == |ids2|;
      if |ids2| > 1 { JoinedCuts(Sort(ids2)); }
      if |ids2| == 1 {
        assert ids2 == [ids2[0]];
        SortSingle(ids2[0]);
      }
    }
  }

  lemma RivalOf(query: Text, ids: seq<Text>) returns (query2: Text, ids2: seq<Text>)
    requires !Alone(query, ids)
    ensures Rival(query, ids, query2, ids2)
  {
    if BAR in query {
      var i: nat :| i < |query| && query[i] == BAR;
      BarInQuery(query, ids, i);
      return query[..i], [query[i + 1..] + [BAR] + Join(Sort(ids), COMMA)];
    }
    if |ids| > 1 {
      SeveralIds(query, ids);
      return query, [Join(Sort(ids), COMMA)];
    }
    EmptyId(query);
    if ids == [] { return query, [[]]; }
    assert ids == [ids[0]];
    query2, ids2 := RivalOfOne(query, ids[0]);
  }

  lemma RivalOfOne(query: Text, id: Text) returns (query2: Text, ids2: seq<Text>)
    requires !Alone(query, [id]) && BAR !in query
    ensures Rival(query, [id], query2, ids2)
  {
    EmptyId(query);
    if id == [] { return query, []; }
    if BAR in id {
      var i: nat :| i < |id| && id[i] == BAR;
      BarInId(query, id, i);
      return query + [BAR] + id[..i], [id[i + 1..]];
    }
    var i: nat :| i < |id| && Cuts(id, i);
    CommaInId(query, id, i);
    return query, [id[..i], id[i + 1..]];
  }

  /** Exactly which requests can be answered with what another request computed. */
  lemma RerankKeyCollides(query: Text, ids: seq<Text>)
    ensures (exists query2, ids2 :: Rival(query, ids, query2, ids2)) <==> !Alone(query, ids)
  {
    if Alone(query, ids) {
      forall query2, ids2 ensures !Rival(query, ids, query2, ids2) {
        if RerankKey(query2, ids2) == RerankKey(query, ids) { AloneHasNoRival(query, ids, query2, ids2); }
      }
    } else {
      var query2, ids2 := RivalOf(query, ids);
    }
  }

  datatype EmbedGet<V> = EmbedGet(modelId: Text, query: Text, now: nat, answer: Option<V>)

  function EmbedOps<V>(gets: seq<EmbedGet<V>>): (ops: seq<Op<V>>)
    ensures |ops| == |gets|
  {
    seq(|gets|, i requires 0 <= i < |gets| =>
      Op(EmbedKey(gets[i].modelId, gets[i].query), gets[i].now, gets[i].answer))
  }

  /** Sequential gets of a new cache: whatever a get returns is the vector of its own model and
      query, when every `compute` that resolves yields that vector. */
  lemma EmbedReturnsItsVector<V(!new)>(lim: Limits, gets: seq<EmbedGet<V>>, vector: (Text, Text) -> V, i: nat)
    requires forall g | g in gets :: SPACE !in g.modelId
    requires forall g | g in gets && g.answer.Some? :: g.answer.value == vector(g.modelId, g.query)
    requires i < |gets| && Result(Met(lim, EmbedOps(gets), i), EmbedOps(gets)[i]).Some?
    ensures Result(Met(lim, EmbedOps(gets), i), EmbedOps(gets)[i]).value == vector(gets[i].modelId, gets[i].query)
  {
    var c := ValueHasOrigin(lim, EmbedOps(gets), i);
    assert gets[c] in gets && gets[i] in gets;
    EmbedKeyExact(gets[c].modelId, gets[c].query, gets[i].modelId, gets[i].query);
  }

  datatype RerankGet<V> = RerankGet(query: Text, docIds: seq<Text>, now: nat, answer: Option<V>)

  function RerankOps<V>(gets: seq<RerankGet<V>>): (ops: seq<Op<V>>)
    ensures |ops| == |gets|
  {
    seq(|gets|, i requires 0 <= i < |gets| =>
      Op(RerankKey(gets[i].query, gets[i].docIds), gets[i].now, gets[i].answer))
  }

  /** Whatever a rerank get returns was computed by a get of a request with the same key; for
      clean ids that is the same query on the same ids in some order. */
  lemma RerankReturnsSameRequest<V>(lim: Limits, gets: seq<RerankGet<V>>, i: nat) returns (c: nat)
    requires i < |gets| && Result(Met(lim, RerankOps(gets), i), RerankOps(gets)[i]).Some?
    ensures c <= i && gets[c].answer == Result(Met(lim, RerankOps(gets), i), RerankOps(gets)[i])
    ensures OneKey(gets[c].query, gets[c].docIds, gets[i].query, gets[i].docIds)
    ensures Clean(gets[c].docIds) && Clean(gets[i].docIds)
            ==> gets[c].query == gets[i].query && multiset(gets[c].docIds) == multiset(gets[i].docIds)
    ensures Alone(gets[i].query, gets[i].docIds)
            ==> gets[c].query == gets[i].query && gets[c].docIds == gets[i].docIds
  {
    c := ValueHasOrigin(lim, RerankOps(gets), i);
    RerankKeyShared(gets[c].query, gets[c].docIds, gets[i].query, gets[i].docIds);
    if Clean(gets[c].docIds) && Clean(gets[i].docIds) {
      RerankKeyExact(gets[c].query, gets[c].docIds, gets[i].query, gets[i].docIds);
    }
    if Alone(gets[i].query, gets[i].docIds) {
      AloneHasNoRival(gets[i].query, gets[i].docIds, gets[c].query, gets[c].docIds);
    }
  }

  /** The entries after a get, and its answer. */
  ghost predicate Got<V(!new)>(lim: Limits, before: seq<Slot<V>>, op: Op<V>, after: seq<Slot<V>>, r: Option<V>) {
    after == Do(lim, before, op) && r == Result(before, op)
  }

  lemma GotHit<V(!new)>(lim: Limits, before: seq<Slot<V>>, op: Op<V>)
    requires Hit(before, op.key, op.now)
    ensures var cached := before[IndexOf(before, op.key)];
            Got(lim, before, op, Delete(before, op.key) + [cached], Some(cached.value))
  {
  }

  lemma GotMiss<V(!new)>(lim: Limits, before: seq<Slot<V>>, op: Op<V>)
    requires !Hit(before, op.key, op.now)
    ensures !Holds(before, op.key) ==> Delete(before, op.key) == before
    ensures op.answer.None? ==> Got(lim, before, op, Delete(before, op.key), None)
    ensures op.answer.Some? ==>
              Got(lim, before, op, Put(Delete(before, op.key), NewSlot(lim, op), lim.maxEntries), op.answer)
  {
  }

  ghost predicate Evicted<V>(before: seq<Slot<V>>, maxEntries: int, after: seq<Slot<V>>) {
    after == Trim(before, maxEntries)
  }

  /** The state both classes share: a Map of entries and the options. */
  class EntryMap<V(!new)> {
    var entries: seq<Slot<V>>
    const opts: Limits

    constructor (opts: Limits)
      ensures this.opts == opts && entries == []
    {
      this.opts := opts;
      entries := [];
    }

    /** The oldest entries go while there are too many. */
    method Evict()
      modifies this
      ensures Evicted(old(entries), opts.maxEntries, entries)
    {
      while |entries| > opts.maxEntries
        invariant Trim(entries, opts.maxEntries) == Trim(old(entries), opts.maxEntries)
        decreases |entries|
      {
        if entries == [] { break; }
        entries := entries[1..];
      }
    }

    /** The body of `get` after the key is known. None is a rejecting `compute`. */
    method Get(key: Text, now: nat, answer: Option<V>) returns (r: Option<V>)
      modifies this
      ensures Got(opts, old(entries), Op(key, now, answer), entries, r)
    {
      ghost var op := Op(key, now, answer);
      var at := IndexOf(entries, key);
      if at < |entries| && entries[at].expiresAt > now {
        var cached := entries[at];
        GotHit(opts, entries, op);
        entries := Delete(entries, key);
        entries := entries + [cached];
        return Some(cached.value);
      }
      GotMiss(opts, entries, op);
      if at < |entries| { entries := Delete(entries, key); }
      if answer.Some? { Store(Slot(key, answer.value, now + opts.ttlMs)); }
      return answer;
    }

    /** What follows a `compute` that resolves. */
    method Store(slot: Slot<V>)
      modifies this
      ensures entries == Put(old(entries), slot, opts.maxEntries)
    {
      entries := MapSet(entries, slot);
      Evict();
    }
  }

  class EmbedQueryCache<V(!new)> {
    const store: EntryMap<V>

    constructor (opts: Limits)
      ensures fresh(store) && store.entries == [] && store.opts == opts
    {
      store := new EntryMap<V>(opts);
    }

    method Get(modelId: Text, query: Text, now: nat, answer: Option<V>) returns (r: Option<V>)
      modifies store
      ensures Got(store.opts, old(store.entries), Op(EmbedKey(modelId, query), now, answer), store.entries, r)
    {
      r := store.Get(modelId + [SPACE] + query, now, answer);
    }
  }

  class RerankCache<V(!new)> {
    const store: EntryMap<V>

    constructor (opts: Limits)
      ensures fresh(store) && store.entries == [] && store.opts == opts
    {
      store := new EntryMap<V>(opts);
    }

    method Get(query: Text, docIds: seq<Text>, now: nat, answer: Option<V>) returns (r: Option<V>)
      modifies store
      ensures Got(store.opts, old(store.entries), Op(RerankKey(query, docIds), now, answer), store.entries, r)
    {
      var key := query + [BAR] + Join(Sort(docIds), COMMA);
      r := store.Get(key, now, answer);
    }
  }
}
