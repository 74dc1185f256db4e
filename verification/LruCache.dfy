/** The per-process LRU caches with expiry of the retrieval package. A JavaScript Map
    iterates in insertion order, so the cache is the list of its entries, oldest access
    first; every read deletes and re-inserts. */
module LruCache {
  import opened Options
  import opened JsText

  datatype Slot<V> = Slot(key: Text, value: V, expiresAt: int)

  datatype Limits = Limits(maxEntries: int, ttlMs: nat)

  ghost predicate DistinctKeys<V>(slots: seq<Slot<V>>) {
    forall i, j | 0 <= i < j < |slots| :: slots[i].key != slots[j].key
  }

  /** Where a key sits; the number of entries if it is absent. */
  function IndexOf<V>(slots: seq<Slot<V>>, key: Text): (i: nat)
    ensures i <= |slots|
    ensures i < |slots| ==> slots[i].key == key
    ensures forall j | 0 <= j < i :: slots[j].key != key
  {
    if slots == [] || slots[0].key == key then 0 else 1 + IndexOf(slots[1..], key)
  }

  /** `entries.has(key)` */
  predicate Holds<V>(slots: seq<Slot<V>>, key: Text) {
    IndexOf(slots, key) < |slots|
  }

  /** `entries.delete(key)` */
  function Delete<V>(slots: seq<Slot<V>>, key: Text): seq<Slot<V>> {
    var i := IndexOf(slots, key);
    if i < |slots| then slots[..i] + slots[i + 1..] else slots
  }

  /** The eviction loop: the oldest entries beyond the limit go. */
  function Trim<V>(slots: seq<Slot<V>>, maxEntries: int): (r: seq<Slot<V>>)
    ensures |r| == if |slots| <= maxEntries then |slots| else if maxEntries < 0 then 0 else maxEntries
  {
    if |slots| > maxEntries && slots != [] then Trim(slots[1..], maxEntries) else slots
  }

  lemma {:induction false} TrimKeepsLast<V>(slots: seq<Slot<V>>, maxEntries: int)
    ensures Trim(slots, maxEntries) == slots[|slots| - |Trim(slots, maxEntries)|..]
  {
    if |slots| > maxEntries && slots != [] { TrimKeepsLast(slots[1..], maxEntries); }
  }

  predicate Hit<V>(slots: seq<Slot<V>>, key: Text, now: nat) {
    Holds(slots, key) && slots[IndexOf(slots, key)].expiresAt > now
  }

  /** One `get`; `answer` is what `compute` resolves to if it is called, None if it rejects. */
  datatype Op<V> = Op(key: Text, now: nat, answer: Option<V>)

  /** Delete and re-insert: the entry becomes the most recent. */
  function Promote<V>(slots: seq<Slot<V>>, key: Text): seq<Slot<V>>
    requires Holds(slots, key)
  {
    Delete(slots, key) + [slots[IndexOf(slots, key)]]
  }

  /** `entries.set`: a key that is present keeps its place, a new one goes to the back. */
  function MapSet<V>(slots: seq<Slot<V>>, slot: Slot<V>): seq<Slot<V>> {
    var i := IndexOf(slots, slot.key);
    if i < |slots| then slots[i := slot] else slots + [slot]
  }

  /** Insert a computed entry and evict what is too much. */
  function Put<V>(slots: seq<Slot<V>>, slot: Slot<V>, maxEntries: int): seq<Slot<V>> {
    Trim(MapSet(slots, slot), maxEntries)
  }

  function NewSlot<V>(lim: Limits, op: Op<V>): Slot<V>
    requires op.answer.Some?
  {
    Slot(op.key, op.answer.value, op.now + lim.ttlMs)
  }

  function Do<V>(lim: Limits, slots: seq<Slot<V>>, op: Op<V>): seq<Slot<V>> {
    if Hit(slots, op.key, op.now) then Promote(slots, op.key)
    else if op.answer.None? then Delete(slots, op.key)
    else Put(Delete(slots, op.key), NewSlot(lim, op), lim.maxEntries)
  }

  function Result<V>(slots: seq<Slot<V>>, op: Op<V>): Option<V> {
    if Hit(slots, op.key, op.now) then Some(slots[IndexOf(slots, op.key)].value) else op.answer
  }

  /** The entries after a run of gets, none overlapping another. */
  function Run<V>(lim: Limits, slots: seq<Slot<V>>, ops: seq<Op<V>>): seq<Slot<V>> {
    if ops == [] then slots else Do(lim, Run(lim, slots, ops[..|ops| - 1]), ops[|ops| - 1])
  }

  /** The entries met by the i-th get of a run of a new cache. */
  function Met<V>(lim: Limits, ops: seq<Op<V>>, i: nat): seq<Slot<V>>
    requires i < |ops|
  {
    Run(lim, [], ops[..i])
  }

  /** Get number i calls `compute`. */
  predicate Computes<V>(lim: Limits, ops: seq<Op<V>>, i: nat)
    requires i < |ops|
  {
    !Hit(Met(lim, ops, i), ops[i].key, ops[i].now)
  }

  lemma RunLast<V>(lim: Limits, slots: seq<Slot<V>>, ops: seq<Op<V>>, op: Op<V>)
    ensures Run(lim, slots, ops + [op]) == Do(lim, Run(lim, slots, ops), op)
  {
    assert (ops + [op])[..|ops|] == ops;
  }

  lemma {:induction false} RunConcat<V>(lim: Limits, slots: seq<Slot<V>>, a: seq<Op<V>>, b: seq<Op<V>>)
    ensures Run(lim, slots, a + b) == Run(lim, Run(lim, slots, a), b)
  {
    if b == [] {
      assert a + b == a;
    } else {
      var n := |b| - 1;
      assert a + b == (a + b[..n]) + [b[n]];
      RunLast(lim, slots, a + b[..n], b[n]);
      RunConcat(lim, slots, a, b[..n]);
    }
  }

  /** Deleting leaves the other entries, in order. */
  lemma DeleteKeeps<V>(slots: seq<Slot<V>>, key: Text)
    requires DistinctKeys(slots)
    ensures DistinctKeys(Delete(slots, key))
    ensures forall i | 0 <= i < |Delete(slots, key)| :: Delete(slots, key)[i].key != key
    ensures |Delete(slots, key)| == |slots| - (if Holds(slots, key) then 1 else 0)
  {
  }

  lemma DeleteAt<V>(slots: seq<Slot<V>>, key: Text, i: nat)
    requires i < |Delete(slots, key)|
    ensures |Delete(slots, key)| <= |slots| <= |Delete(slots, key)| + 1
    ensures Delete(slots, key)[i] == slots[if i < IndexOf(slots, key) then i else i + 1]
  {
  }

  lemma AppendDistinct<V>(slots: seq<Slot<V>>, slot: Slot<V>)
    requires DistinctKeys(slots) && forall i | 0 <= i < |slots| :: slots[i].key != slot.key
    ensures DistinctKeys(slots + [slot])
  {
  }

  lemma SuffixDistinct<V>(slots: seq<Slot<V>>, k: nat)
    requires DistinctKeys(slots) && k <= |slots|
    ensures DistinctKeys(slots[k..])
  {
  }

  lemma PromoteDistinct<V>(slots: seq<Slot<V>>, key: Text)
    requires DistinctKeys(slots) && Holds(slots, key)
    ensures DistinctKeys(Promote(slots, key))
  {
    DeleteKeeps(slots, key);
    AppendDistinct(Delete(slots, key), slots[IndexOf(slots, key)]);
  }

  lemma PutDistinct<V>(slots: seq<Slot<V>>, slot: Slot<V>, maxEntries: int)
    requires DistinctKeys(slots) && !Holds(slots, slot.key)
    ensures DistinctKeys(Put(slots, slot, maxEntries))
  {
    var all := slots + [slot];
    AppendDistinct(slots, slot);
    TrimKeepsLast(all, maxEntries);
    SuffixDistinct(all, |all| - |Trim(all, maxEntries)|);
  }

  lemma Deleted<V>(slots: seq<Slot<V>>, key: Text)
    requires DistinctKeys(slots)
    ensures DistinctKeys(Delete(slots, key)) && !Holds(Delete(slots, key), key)
  {
    DeleteKeeps(slots, key);
  }

  lemma DoDistinct<V>(lim: Limits, slots: seq<Slot<V>>, op: Op<V>)
    requires DistinctKeys(slots)
    ensures DistinctKeys(Do(lim, slots, op))
  {
    Deleted(slots, op.key);
    if Hit(slots, op.key, op.now) {
      PromoteDistinct(slots, op.key);
    } else if op.answer.Some? {
      PutDistinct(Delete(slots, op.key), NewSlot(lim, op), lim.maxEntries);
    }
  }

  lemma {:induction false} RunDistinct<V>(lim: Limits, ops: seq<Op<V>>)
    ensures DistinctKeys(Run(lim, [], ops))
  {
    if ops != [] {
      RunDistinct(lim, ops[..|ops| - 1]);
      DoDistinct(lim, Run(lim, [], ops[..|ops| - 1]), ops[|ops| - 1]);
    }
  }

  lemma DeleteMembers<V>(slots: seq<Slot<V>>, key: Text, slot: Slot<V>)
    requires DistinctKeys(slots) && slot in Delete(slots, key)
    ensures slot in slots && slot.key != key
  {
    DeleteKeeps(slots, key);
  }

  lemma PromoteMembers<V>(slots: seq<Slot<V>>, key: Text, slot: Slot<V>)
    requires Holds(slots, key) && slot in Promote(slots, key)
    ensures slot in slots
  {
  }

  lemma PutMembers<V>(slots: seq<Slot<V>>, x: Slot<V>, maxEntries: int, slot: Slot<V>)
    requires !Holds(slots, x.key) && slot in Put(slots, x, maxEntries)
    ensures slot in slots || slot == x
  {
    TrimKeepsLast(slots + [x], maxEntries);
    assert slot in MapSet(slots, x);
  }

  /** Every entry of the new list is either an old one or the one just computed. */
  lemma DoMembers<V>(lim: Limits, slots: seq<Slot<V>>, op: Op<V>, slot: Slot<V>)
    requires DistinctKeys(slots) && slot in Do(lim, slots, op)
    ensures (slot in slots && (slot.key != op.key || Hit(slots, op.key, op.now)))
            || (!Hit(slots, op.key, op.now) && op.answer.Some? && slot == NewSlot(lim, op))
  {
    if Hit(slots, op.key, op.now) {
      PromoteMembers(slots, op.key, slot);
    } else {
      var kept := Delete(slots, op.key);
      Deleted(slots, op.key);
      if op.answer.Some? { PutMembers(kept, NewSlot(lim, op), lim.maxEntries, slot); }
      if slot in kept { DeleteMembers(slots, op.key, slot); }
    }
  }

  // ----- Size -----

  /** The cache never holds more than `maxEntries` entries on return. */
  lemma {:induction false} SizeBounded<V>(lim: Limits, ops: seq<Op<V>>)
    ensures |Run(lim, [], ops)| <= if lim.maxEntries < 0 then 0 else lim.maxEntries
  {
    if ops != [] {
      var n := |ops| - 1;
      var slots := Run(lim, [], ops[..n]);
      SizeBounded(lim, ops[..n]);
    }
  }

  // ----- Order of access -----

  /** The index of the last get of a key, or -1. */
  function LastAccess<V>(ops: seq<Op<V>>, key: Text): (i: int)
    ensures -1 <= i < |ops|
    ensures i >= 0 ==> ops[i].key == key
    ensures forall j | i < j < |ops| :: ops[j].key != key
  {
    if ops == [] then -1
    else if ops[|ops| - 1].key == key then |ops| - 1
    else LastAccess(ops[..|ops| - 1], key)
  }

  ghost predicate InAccessOrder<V>(slots: seq<Slot<V>>, ops: seq<Op<V>>) {
    && (forall i | 0 <= i < |slots| :: LastAccess(ops, slots[i].key) >= 0)
    && forall i, j | 0 <= i < j < |slots| :: LastAccess(ops, slots[i].key) < LastAccess(ops, slots[j].key)
  }

  lemma DeleteOrder<V>(slots: seq<Slot<V>>, ops: seq<Op<V>>, key: Text)
    requires InAccessOrder(slots, ops)
    ensures InAccessOrder(Delete(slots, key), ops)
  {
    var d := Delete(slots, key);
    forall i | 0 <= i < |d| ensures LastAccess(ops, d[i].key) >= 0 {
      DeleteAt(slots, key, i);
    }
    forall i, j | 0 <= i < j < |d| ensures LastAccess(ops, d[i].key) < LastAccess(ops, d[j].key) {
      DeleteAt(slots, key, i);
      DeleteAt(slots, key, j);
    }
  }

  lemma AccessOrderSkip<V>(slots: seq<Slot<V>>, ops: seq<Op<V>>, op: Op<V>)
    requires InAccessOrder(slots, ops) && forall i | 0 <= i < |slots| :: slots[i].key != op.key
    ensures InAccessOrder(slots, ops + [op])
  {
    assert (ops + [op])[..|ops|] == ops;
    assert forall i | 0 <= i < |slots| :: LastAccess(ops + [op], slots[i].key) == LastAccess(ops, slots[i].key);
  }

  lemma AccessOrderAppend<V>(slots: seq<Slot<V>>, ops: seq<Op<V>>, op: Op<V>, slot: Slot<V>)
    requires InAccessOrder(slots, ops) && slot.key == op.key
    requires forall i | 0 <= i < |slots| :: slots[i].key != op.key
    ensures InAccessOrder(slots + [slot], ops + [op])
  {
    assert (ops + [op])[..|ops|] == ops;
    assert forall i | 0 <= i < |slots| :: LastAccess(ops + [op], slots[i].key) == LastAccess(ops, slots[i].key);
  }

  lemma AccessOrderSuffix<V>(slots: seq<Slot<V>>, ops: seq<Op<V>>, k: nat)
    requires InAccessOrder(slots, ops) && k <= |slots|
    ensures InAccessOrder(slots[k..], ops)
  {
  }

  lemma PromoteOrder<V>(slots: seq<Slot<V>>, ops: seq<Op<V>>, op: Op<V>)
    requires DistinctKeys(slots) && InAccessOrder(slots, ops) && Holds(slots, op.key)
    ensures InAccessOrder(Promote(slots, op.key), ops + [op])
  {
    DeleteOrder(slots, ops, op.key);
    DeleteKeeps(slots, op.key);
    AccessOrderAppend(Delete(slots, op.key), ops, op, slots[IndexOf(slots, op.key)]);
  }

  lemma PutOrder<V>(slots: seq<Slot<V>>, ops: seq<Op<V>>, op: Op<V>, slot: Slot<V>, maxEntries: int)
    requires InAccessOrder(slots, ops) && slot.key == op.key && !Holds(slots, op.key)
    ensures InAccessOrder(Put(slots, slot, maxEntries), ops + [op])
  {
    var all := slots + [slot];
    AccessOrderAppend(slots, ops, op, slot);
    TrimKeepsLast(all, maxEntries);
    AccessOrderSuffix(all, ops + [op], |all| - |Trim(all, maxEntries)|);
  }

  lemma DoOrder<V>(lim: Limits, slots: seq<Slot<V>>, ops: seq<Op<V>>, op: Op<V>)
    requires DistinctKeys(slots) && InAccessOrder(slots, ops)
    ensures InAccessOrder(Do(lim, slots, op), ops + [op])
  {
    var kept := Delete(slots, op.key);
    DeleteOrder(slots, ops, op.key);
    Deleted(slots, op.key);
    if Hit(slots, op.key, op.now) {
      PromoteOrder(slots, ops, op);
    } else if op.answer.Some? {
      PutOrder(kept, ops, op, NewSlot(lim, op), lim.maxEntries);
    } else {
      AccessOrderSkip(kept, ops, op);
    }
  }

  lemma RunOrder<V>(lim: Limits, front: seq<Op<V>>, op: Op<V>)
    requires InAccessOrder(Run(lim, [], front), front)
    ensures InAccessOrder(Run(lim, [], front + [op]), front + [op])
  {
    RunDistinct(lim, front);
    RunLast(lim, [], front, op);
    DoOrder(lim, Run(lim, [], front), front, op);
  }

  /** The Map's iteration order is the order of last access. */
  lemma {:induction false} MapOrderIsAccessOrder<V>(lim: Limits, ops: seq<Op<V>>)
    ensures InAccessOrder(Run(lim, [], ops), ops)
  {
    if ops != [] {
      var front, op := ops[..|ops| - 1], ops[|ops| - 1];
      assert ops == front + [op];
      MapOrderIsAccessOrder(lim, front);
      RunOrder(lim, front, op);
    }
  }

  // ----- No needless recomputation -----

  /** Where an entry came from: the last computation of its key. */
  ghost predicate From<V>(lim: Limits, ops: seq<Op<V>>, slot: Slot<V>, c: nat) {
    && c < |ops| && ops[c].key == slot.key && Computes(lim, ops, c) && ops[c].answer.Some?
    && slot.value == ops[c].answer.value && slot.expiresAt == ops[c].now + lim.ttlMs
    && forall i | c < i < |ops| && ops[i].key == slot.key :: !Computes(lim, ops, i)
  }

  lemma ComputesPrefix<V>(lim: Limits, front: seq<Op<V>>, op: Op<V>, i: nat)
    requires i <= |front|
    ensures i < |front| ==> Computes(lim, front + [op], i) == Computes(lim, front, i)
    ensures i == |front| ==> Computes(lim, front + [op], i) == !Hit(Run(lim, [], front), op.key, op.now)
  {
    if i < |front| { assert front[..i] == (front + [op])[..i]; } else { assert (front + [op])[..i] == front; }
  }

  lemma OriginStays<V>(lim: Limits, front: seq<Op<V>>, op: Op<V>, slot: Slot<V>, c: nat)
    requires From(lim, front, slot, c)
    requires op.key != slot.key || Hit(Run(lim, [], front), op.key, op.now)
    ensures From(lim, front + [op], slot, c)
  {
    var ops := front + [op];
    ComputesPrefix(lim, front, op, c);
    forall i | c < i < |ops| && ops[i].key == slot.key ensures !Computes(lim, ops, i) {
      ComputesPrefix(lim, front, op, i);
    }
  }

  lemma OriginNew<V>(lim: Limits, front: seq<Op<V>>, op: Op<V>)
    requires !Hit(Run(lim, [], front), op.key, op.now) && op.answer.Some?
    ensures From(lim, front + [op], NewSlot(lim, op), |front|)
  {
    ComputesPrefix(lim, front, op, |front|);
  }

  lemma SlotSource<V>(lim: Limits, front: seq<Op<V>>, op: Op<V>, slot: Slot<V>)
    requires slot in Run(lim, [], front + [op])
    ensures var slots := Run(lim, [], front);
            (slot in slots && (slot.key != op.key || Hit(slots, op.key, op.now)))
            || (!Hit(slots, op.key, op.now) && op.answer.Some? && slot == NewSlot(lim, op))
  {
    RunDistinct(lim, front);
    RunLast(lim, [], front, op);
    DoMembers(lim, Run(lim, [], front), op, slot);
  }

  lemma {:induction false} SlotOrigin<V>(lim: Limits, ops: seq<Op<V>>, slot: Slot<V>) returns (c: nat)
    requires slot in Run(lim, [], ops)
    ensures From(lim, ops, slot, c)
  {
    var front, op := ops[..|ops| - 1], ops[|ops| - 1];
    assert ops == front + [op];
    var slots := Run(lim, [], front);
    SlotSource(lim, front, op, slot);
    if slot in slots && (slot.key != op.key || Hit(slots, op.key, op.now)) {
      c := SlotOrigin(lim, front, slot);
      OriginStays(lim, front, op, slot, c);
    } else {
      c := |front|;
      OriginNew(lim, front, op);
    }
  }

  function Keys<V>(ops: seq<Op<V>>): set<Text> {
    set i | 0 <= i < |ops| :: ops[i].key
  }

  lemma {:induction false} Pigeonhole<V>(slots: seq<Slot<V>>, keys: set<Text>)
    requires DistinctKeys(slots) && forall i | 0 <= i < |slots| :: slots[i].key in keys
    ensures |slots| <= |keys|
  {
    if slots != [] {
      Pigeonhole(slots[1..], keys - {slots[0].key});
    }
  }

  /** The entry sits at p and only entries of the given keys are more recent. */
  ghost predicate Behind<V>(slots: seq<Slot<V>>, slot: Slot<V>, keys: set<Text>, p: nat) {
    && p < |slots| && slots[p] == slot
    && forall i | p < i < |slots| :: slots[i].key in keys
  }

  lemma BehindBound<V>(slots: seq<Slot<V>>, slot: Slot<V>, keys: set<Text>, p: nat)
    requires DistinctKeys(slots) && Behind(slots, slot, keys, p)
    ensures |slots| - p - 1 <= |keys|
  {
    SuffixDistinct(slots, p + 1);
    Pigeonhole(slots[p + 1..], keys);
  }

  lemma DeleteBehind<V>(slots: seq<Slot<V>>, key: Text, slot: Slot<V>, keys: set<Text>, p: nat)
    requires Behind(slots, slot, keys, p) && slot.key != key
    ensures Behind(Delete(slots, key), slot, keys, if IndexOf(slots, key) < p then p - 1 else p)
  {
    var d := Delete(slots, key);
    var q := if IndexOf(slots, key) < p then p - 1 else p;
    DeleteAt(slots, key, q);
    forall i | q < i < |d| ensures d[i].key in keys { DeleteAt(slots, key, i); }
  }

  lemma AppendBehind<V>(slots: seq<Slot<V>>, x: Slot<V>, slot: Slot<V>, keys: set<Text>, p: nat)
    requires Behind(slots, slot, keys, p) && x.key in keys
    ensures Behind(slots + [x], slot, keys, p)
  {
  }

  lemma SuffixBehind<V>(slots: seq<Slot<V>>, k: nat, slot: Slot<V>, keys: set<Text>, p: nat)
    requires Behind(slots, slot, keys, p) && k <= p
    ensures Behind(slots[k..], slot, keys, p - k)
  {
  }

  lemma PutBehind<V>(slots: seq<Slot<V>>, x: Slot<V>, maxEntries: int, slot: Slot<V>, keys: set<Text>, p: nat)
    returns (q: nat)
    requires Behind(slots, slot, keys, p) && DistinctKeys(slots) && !Holds(slots, x.key)
    requires x.key in keys && |keys| < maxEntries
    ensures Behind(Put(slots, x, maxEntries), slot, keys, q)
  {
    var all := slots + [x];
    AppendDistinct(slots, x);
    AppendBehind(slots, x, slot, keys, p);
    BehindBound(all, slot, keys, p);
    TrimKeepsLast(all, maxEntries);
    var k := |all| - |Trim(all, maxEntries)|;
    q := p - k;
    SuffixBehind(all, k, slot, keys, p);
  }

  /** A get of another key moves an entry at most one place towards eviction. */
  lemma DoBehind<V>(lim: Limits, slots: seq<Slot<V>>, op: Op<V>, slot: Slot<V>, keys: set<Text>, p: nat)
    returns (q: nat)
    requires Behind(slots, slot, keys, p) && DistinctKeys(slots)
    requires op.key != slot.key && op.key in keys && |keys| < lim.maxEntries
    ensures Behind(Do(lim, slots, op), slot, keys, q)
  {
    var kept := Delete(slots, op.key);
    q := if IndexOf(slots, op.key) < p then p - 1 else p;
    DeleteBehind(slots, op.key, slot, keys, p);
    Deleted(slots, op.key);
    if Hit(slots, op.key, op.now) {
      AppendBehind(kept, slots[IndexOf(slots, op.key)], slot, keys, q);
    } else if op.answer.Some? {
      q := PutBehind(kept, NewSlot(lim, op), lim.maxEntries, slot, keys, q);
    }
  }

  /** An entry outlives any gets of fewer than `maxEntries` distinct other keys. */
  lemma {:induction false} Survives<V>(lim: Limits, slots: seq<Slot<V>>, ops: seq<Op<V>>, slot: Slot<V>,
                                       keys: set<Text>, p: nat)
    returns (q: nat)
    requires DistinctKeys(slots) && Behind(slots, slot, keys, p)
    requires Keys(ops) <= keys && slot.key !in keys && |keys| < lim.maxEntries
    ensures DistinctKeys(Run(lim, slots, ops)) && Behind(Run(lim, slots, ops), slot, keys, q)
  {
    if ops == [] {
      q := p;
    } else {
      var front, op := ops[..|ops| - 1], ops[|ops| - 1];
      assert ops[|ops| - 1].key in Keys(ops);
      assert Keys(front) <= Keys(ops);
      q := Survives(lim, slots, front, slot, keys, p);
      DoDistinct(lim, Run(lim, slots, front), op);
      q := DoBehind(lim, Run(lim, slots, front), op, slot, keys, q);
    }
  }

  /** A get that returns a value leaves its entry at the back. */
  lemma LastIsNewest<V>(lim: Limits, slots: seq<Slot<V>>, op: Op<V>)
    requires DistinctKeys(slots) && Result(slots, op).Some? && lim.maxEntries > 0
    ensures var r := Do(lim, slots, op); r != [] && r[|r| - 1].key == op.key
  {
    Deleted(slots, op.key);
    if !Hit(slots, op.key, op.now) { TrimKeepsLast(Delete(slots, op.key) + [NewSlot(lim, op)], lim.maxEntries); }
  }

  lemma FoundAt<V>(slots: seq<Slot<V>>, p: nat)
    requires DistinctKeys(slots) && p < |slots|
    ensures IndexOf(slots, slots[p].key) == p
  {
  }

  /** Get j follows get i of the same key, which returned a value, and in between fewer than
      `maxEntries` other keys were asked for. */
  ghost predicate Follows<V>(lim: Limits, ops: seq<Op<V>>, i: nat, j: nat) {
    && i < j < |ops| && ops[i].key == ops[j].key && Result(Met(lim, ops, i), ops[i]).Some?
    && ops[j].key !in Keys(ops[i + 1..j])
    && |Keys(ops[i + 1..j])| < lim.maxEntries
  }

  lemma MetLater<V>(lim: Limits, ops: seq<Op<V>>, i: nat, j: nat)
    requires i < j < |ops|
    ensures Met(lim, ops, j) == Run(lim, Do(lim, Met(lim, ops, i), ops[i]), ops[i + 1..j])
  {
    assert ops[..j] == ops[..i] + [ops[i]] + ops[i + 1..j];
    RunLast(lim, [], ops[..i], ops[i]);
    RunConcat(lim, [], ops[..i] + [ops[i]], ops[i + 1..j]);
  }

  lemma StillHeld<V>(lim: Limits, ops: seq<Op<V>>, i: nat, j: nat) returns (p: nat)
    requires Follows(lim, ops, i, j)
    ensures p < |Met(lim, ops, j)| && Met(lim, ops, j)[p].key == ops[j].key
  {
    var before, between := Met(lim, ops, i), ops[i + 1..j];
    var after := Do(lim, before, ops[i]);
    RunDistinct(lim, ops[..i]);
    DoDistinct(lim, before, ops[i]);
    LastIsNewest(lim, before, ops[i]);
    MetLater(lim, ops, i, j);
    p := Survives(lim, after, between, after[|after| - 1], Keys(between), |after| - 1);
  }

  lemma {:induction false} SlotOriginUnique<V>(lim: Limits, ops: seq<Op<V>>, slot: Slot<V>, c: nat, d: nat)
    requires From(lim, ops, slot, c)
    requires d < |ops| && ops[d].key == slot.key && Computes(lim, ops, d)
    requires forall m | d < m < |ops| && ops[m].key == slot.key :: !Computes(lim, ops, m)
    ensures c == d
  {
  }

  /** No needless recomputation: if c is the latest get of the key to compute, and the key was
      last asked for by get i with fewer than `maxEntries` other keys since, then get j computes
      again exactly when `ttlMs` have passed since c. */
  lemma ComputedOncePerTtl<V>(lim: Limits, ops: seq<Op<V>>, c: nat, i: nat, j: nat)
    requires Follows(lim, ops, i, j)
    requires c < j && ops[c].key == ops[j].key && Computes(lim, ops, c)
    requires forall m | c < m < j && ops[m].key == ops[j].key :: !Computes(lim, ops, m)
    ensures Computes(lim, ops, j) <==> ops[j].now >= ops[c].now + lim.ttlMs
  {
    var p := StillHeld(lim, ops, i, j);
    var slots := Met(lim, ops, j);
    var d := SlotOrigin(lim, ops[..j], slots[p]);
    forall m: nat | m < j ensures Computes(lim, ops[..j], m) == Computes(lim, ops, m) {
      ComputesFront(lim, ops, j, m);
    }
    SlotOriginUnique(lim, ops[..j], slots[p], d, c);
    RunDistinct(lim, ops[..j]);
    FoundAt(slots, p);
  }

  lemma ComputesFront<V>(lim: Limits, ops: seq<Op<V>>, i: nat, m: nat)
    requires m < i <= |ops|
    ensures Computes(lim, ops[..i], m) == Computes(lim, ops, m)
  {
    assert ops[..i][..m] == ops[..m];
  }

  /** What a get returns is what the latest get of its key to call `compute` was answered: its
      own answer, or an earlier one less than `ttlMs` old. */
  lemma ValueHasOrigin<V>(lim: Limits, ops: seq<Op<V>>, i: nat) returns (c: nat)
    requires i < |ops| && Result(Met(lim, ops, i), ops[i]).Some?
    ensures c <= i && ops[c].key == ops[i].key && Computes(lim, ops, c)
    ensures ops[c].answer == Result(Met(lim, ops, i), ops[i])
    ensures c == i || ops[i].now < ops[c].now + lim.ttlMs
    ensures forall m | c < m <= i && ops[m].key == ops[i].key :: !Computes(lim, ops, m)
  {
    var slots := Met(lim, ops, i);
    if Computes(lim, ops, i) {
      c := i;
    } else {
      var slot := slots[IndexOf(slots, ops[i].key)];
      c := SlotOrigin(lim, ops[..i], slot);
      OriginInWhole(lim, ops, i, slot, c);
    }
  }

  lemma OriginInWhole<V>(lim: Limits, ops: seq<Op<V>>, i: nat, slot: Slot<V>, c: nat)
    requires i <= |ops| && From(lim, ops[..i], slot, c)
    ensures c < i && ops[c].key == slot.key && Computes(lim, ops, c)
    ensures ops[c].answer == Some(slot.value) && slot.expiresAt == ops[c].now + lim.ttlMs
    ensures forall m | c < m < i && ops[m].key == slot.key :: !Computes(lim, ops, m)
  {
    ComputesFront(lim, ops, i, c);
    forall m | c < m < i && ops[m].key == slot.key ensures !Computes(lim, ops, m) {
      ComputesFront(lim, ops, i, m);
      assert ops[..i][m] == ops[m];
    }
  }
}
