/** JavaScript strings as the source sees them: sequences of UTF-16 code units, with the
    code-unit order of the default `Array.prototype.sort`. */
module JsText {
  type CodeUnit = u: int | 0 <= u < 0x1_0000

  type Text = seq<CodeUnit>

  /** An ASCII literal of the source. */
  function Lit(s: string): (t: Text)
    ensures |t| == |s|
  {
    seq(|s|, i requires 0 <= i < |s| => (s[i] as int) % 0x1_0000)
  }

  /** `parts.join(sep)` for a one-unit separator. */
  function Join(parts: seq<Text>, sep: CodeUnit): Text {
    if |parts| == 0 then []
    else if |parts| == 1 then parts[0]
    else parts[0] + [sep] + Join(parts[1..], sep)
  }

  /** The parts of a text between separators. */
  function Split(t: Text, sep: CodeUnit): (r: seq<Text>)
    ensures r != []
  {
    if t == [] then [[]]
    else if t[0] == sep then [[]] + Split(t[1..], sep)
    else var rest := Split(t[1..], sep); [[t[0]] + rest[0]] + rest[1..]
  }

  lemma {:induction false} SplitOne(t: Text, sep: CodeUnit)
    requires sep !in t
    ensures Split(t, sep) == [t]
  {
    if t != [] {
      SplitOne(t[1..], sep);
      assert t == [t[0]] + t[1..];
    }
  }

  lemma {:induction false} SplitAppend(a: Text, b: Text, sep: CodeUnit)
    ensures Split(a + [sep] + b, sep) == Split(a, sep) + Split(b, sep)
  {
    var t := a + [sep] + b;
    if a == [] {
      assert t[1..] == b;
    } else {
      assert t[1..] == a[1..] + [sep] + b;
      SplitAppend(a[1..], b, sep);
    }
  }

  lemma {:induction false} JoinSplit(t: Text, sep: CodeUnit)
    ensures Join(Split(t, sep), sep) == t
  {
    if t != [] {
      JoinSplit(t[1..], sep);
      var rest, all := Split(t[1..], sep), Split(t, sep);
      if t[0] == sep {
        assert all[1..] == rest;
      } else if |rest| > 1 {
        assert all[1..] == rest[1..];
      }
    }
  }

  lemma {:induction false} JoinAppend(a: seq<Text>, b: seq<Text>, sep: CodeUnit)
    requires a != [] && b != []
    ensures Join(a + b, sep) == Join(a, sep) + [sep] + Join(b, sep)
  {
    assert (a + b)[1..] == a[1..] + b;
    if |a| > 1 { JoinAppend(a[1..], b, sep); }
  }

  /** `a <= b` by code units: what `sort()` without a comparator uses. */
  predicate Le(a: Text, b: Text) {
    if |a| == 0 then true
    else if |b| == 0 then false
    else a[0] < b[0] || (a[0] == b[0] && Le(a[1..], b[1..]))
  }

  lemma {:induction false} LeTotal(a: Text, b: Text)
    ensures Le(a, b) || Le(b, a)
  {
    if |a| > 0 && |b| > 0 && a[0] == b[0] { LeTotal(a[1..], b[1..]); }
  }

  lemma {:induction false} LeAntisymmetric(a: Text, b: Text)
    requires Le(a, b) && Le(b, a)
    ensures a == b
  {
    if |a| > 0 {
      LeAntisymmetric(a[1..], b[1..]);
      assert a == [a[0]] + a[1..] == [b[0]] + b[1..] == b;
    }
  }

  lemma {:induction false} LeTransitive(a: Text, b: Text, c: Text)
    requires Le(a, b) && Le(b, c)
    ensures Le(a, c)
  {
    if |a| > 0 && a[0] == b[0] == c[0] { LeTransitive(a[1..], b[1..], c[1..]); }
  }

  /** A text comes before another if it begins it, or by the first unit in which they differ. */
  lemma {:induction false} LeMeans(a: Text, b: Text)
    ensures Le(a, b) <==> a <= b || exists i :: 0 <= i < |a| && i < |b| && a[..i] == b[..i] && a[i] < b[i]
  {
    if |a| > 0 && |b| > 0 {
      if a[0] == b[0] {
        LeMeans(a[1..], b[1..]);
        assert a == [a[0]] + a[1..] && b == [b[0]] + b[1..];
        if i: nat :| i < |a[1..]| && i < |b[1..]| && a[1..][..i] == b[1..][..i] && a[1..][i] < b[1..][i] {
          assert a[..i + 1] == [a[0]] + a[1..][..i] && b[..i + 1] == [b[0]] + b[1..][..i];
          assert a[i + 1] < b[i + 1];
        }
        if i: nat :| 0 < i < |a| && i < |b| && a[..i] == b[..i] && a[i] < b[i] {
          assert a[1..][..i - 1] == a[..i][1..] && b[1..][..i - 1] == b[..i][1..];
          assert a[1..][i - 1] < b[1..][i - 1];
        }
      } else {
        assert a[..0] == b[..0];
        forall i | 0 < i < |a| && i < |b| ensures a[..i] != b[..i] {
          assert a[..i][0] != b[..i][0];
        }
      }
    }
  }

  ghost predicate Sorted(s: seq<Text>) {
    forall i, j | 0 <= i < j < |s| :: Le(s[i], s[j])
  }

  ghost predicate Distinct<T>(s: seq<T>) {
    forall i, j | 0 <= i < j < |s| :: s[i] != s[j]
  }

  function Insert(x: Text, s: seq<Text>): (r: seq<Text>)
    ensures multiset(r) == multiset(s) + multiset{x}
  {
    if |s| == 0 || Le(x, s[0]) then [x] + s
    else
      assert s == [s[0]] + s[1..];
      [s[0]] + Insert(x, s[1..])
  }

  /** `[...s].sort()` */
  function Sort(s: seq<Text>): (r: seq<Text>)
    ensures multiset(r) == multiset(s)
  {
    if |s| == 0 then []
    else
      assert s == [s[0]] + s[1..];
      Insert(s[0], Sort(s[1..]))
  }

  lemma {:induction false} InsertSorted(x: Text, s: seq<Text>)
    requires Sorted(s)
    ensures Sorted(Insert(x, s))
  {
    if |s| == 0 {
    } else if Le(x, s[0]) {
      forall j | 0 <= j < |s| ensures Le(x, s[j]) {
        if j > 0 { LeTransitive(x, s[0], s[j]); }
      }
    } else {
      LeTotal(x, s[0]);
      InsertSorted(x, s[1..]);
      var t := Insert(x, s[1..]);
      forall j | 0 <= j < |t| ensures Le(s[0], t[j]) {
        assert t[j] in multiset(t);
        assert t[j] == x || t[j] in s[1..];
      }
    }
  }

  lemma {:induction false} SortSorted(s: seq<Text>)
    ensures Sorted(Sort(s))
  {
    if |s| > 0 {
      SortSorted(s[1..]);
      InsertSorted(s[0], Sort(s[1..]));
    }
  }

  lemma SortedSameHead(a: seq<Text>, b: seq<Text>)
    requires Sorted(a) && Sorted(b) && |a| > 0 && |b| > 0
    requires a[0] in b && b[0] in a
    ensures a[0] == b[0]
  {
    var i :| 0 <= i < |b| && b[i] == a[0];
    var j :| 0 <= j < |a| && a[j] == b[0];
    if i > 0 && j > 0 { LeAntisymmetric(a[0], b[0]); }
  }

  lemma MultisetTail<T>(a: seq<T>)
    requires |a| > 0
    ensures multiset(a) == multiset{a[0]} + multiset(a[1..])
  {
    assert a == [a[0]] + a[1..];
  }

  lemma TailsEqual<T>(a: seq<T>, b: seq<T>)
    requires |a| > 0 && |b| > 0 && a[0] == b[0] && multiset(a) == multiset(b)
    ensures multiset(a[1..]) == multiset(b[1..])
  {
    MultisetTail(a);
    MultisetTail(b);
    assert multiset(a[1..]) == multiset(a) - multiset{a[0]};
    assert multiset(b[1..]) == multiset(b) - multiset{b[0]};
  }

  /** A sorted listing is fixed by its members, so sorting forgets the order it was given. */
  lemma {:induction false} SortedUnique(a: seq<Text>, b: seq<Text>)
    requires Sorted(a) && Sorted(b) && multiset(a) == multiset(b)
    ensures a == b
  {
    assert |multiset(a)| == |a| && |multiset(b)| == |b|;
    if |a| > 0 {
      assert a[0] in multiset(b) && b[0] in multiset(a);
      SortedSameHead(a, b);
      TailsEqual(a, b);
      SortedUnique(a[1..], b[1..]);
      assert a == [a[0]] + a[1..] && b == [b[0]] + b[1..];
    }
  }

  /** Two lists sort alike exactly when they are permutations of one another. */
  lemma SortCanonical(a: seq<Text>, b: seq<Text>)
    ensures Sort(a) == Sort(b) <==> multiset(a) == multiset(b)
  {
    SortSorted(a);
    SortSorted(b);
    if multiset(a) == multiset(b) { SortedUnique(Sort(a), Sort(b)); }
  }

  lemma DistinctByMultiset<T>(a: seq<T>, b: seq<T>)
    requires multiset(a) == multiset(b) && Distinct(a)
    ensures Distinct(b)
  {
    forall i, j | 0 <= i < j < |b| ensures b[i] != b[j] {
      if b[i] == b[j] {
        MultiplicityTwo(b, i, j);
        MultiplicityOne(a, b[i]);
      }
    }
  }

  lemma MultiplicityTwo<T>(s: seq<T>, i: nat, j: nat)
    requires i < j < |s| && s[i] == s[j]
    ensures multiset(s)[s[i]] >= 2
  {
    assert s == s[..j] + s[j..];
    assert s[i] in s[..j] && s[j] in s[j..] by { assert s[..j][i] == s[i] && s[j..][0] == s[j]; }
  }

  lemma {:induction false} MultiplicityOne<T>(s: seq<T>, x: T)
    requires Distinct(s)
    ensures multiset(s)[x] <= 1
  {
    if |s| > 0 {
      assert s == [s[0]] + s[1..];
      MultiplicityOne(s[1..], x);
      if s[0] == x { assert x !in s[1..]; }
    }
  }

  /** `Array.from(new Set(s))`: each member once, at the place of its first occurrence. */
  function Dedupe<T(==, !new)>(s: seq<T>): (r: seq<T>)
    ensures Distinct(r)
    ensures forall x :: x in r <==> x in s
  {
    if |s| == 0 then []
    else
      var front := Dedupe(s[..|s| - 1]);
      assert s == s[..|s| - 1] + [s[|s| - 1]];
      if s[|s| - 1] in front then front else front + [s[|s| - 1]]
  }

  /** A sorted list without repeats is fixed by its set of members. */
  lemma {:induction false} SortedSetUnique(a: seq<Text>, b: seq<Text>)
    requires Sorted(a) && Sorted(b) && Distinct(a) && Distinct(b)
    requires forall x :: x in a <==> x in b
    ensures a == b
  {
    assert |b| > 0 ==> b[0] in a;
    if |a| > 0 {
      assert a[0] in b && b[0] in a;
      SortedSameHead(a, b);
      assert a == [a[0]] + a[1..] && b == [b[0]] + b[1..];
      assert a[0] !in a[1..] && b[0] !in b[1..];
      forall x ensures x in a[1..] <==> x in b[1..] {
        assert x in a <==> x == a[0] || x in a[1..];
        assert x in b <==> x == b[0] || x in b[1..];
      }
      SortedSetUnique(a[1..], b[1..]);
    }
  }
}
