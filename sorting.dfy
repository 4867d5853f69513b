/** Go's `sort.Strings` and `sort.Ints`, specified by what they guarantee: the
    result is ordered and is a permutation of the input. For a total order the
    result is unique, which is what lets the exporter's outputs be stated as
    functions of their inputs whatever order Go's map iteration produced. */
module Sorting {
  import Text

  predicate SortedBy<T>(s: seq<T>, le: (T, T) -> bool) {
    forall i, j :: 0 <= i < j < |s| ==> le(s[i], s[j])
  }

  ghost predicate TotalPreorder<T(!new)>(le: (T, T) -> bool) {
    && (forall a, b :: le(a, b) || le(b, a))
    && (forall a, b, c :: le(a, b) && le(b, c) ==> le(a, c))
  }

  ghost predicate Antisymmetric<T(!new)>(le: (T, T) -> bool) {
    forall a, b :: le(a, b) && le(b, a) ==> a == b
  }

  /** `xs` lists every element of `s` exactly once. */
  predicate Enumerates<T(==,!new)>(xs: seq<T>, s: set<T>) {
    && (forall i, j :: 0 <= i < j < |xs| ==> xs[i] != xs[j])
    && (forall x :: x in xs ==> x in s)
    && (forall x :: x in s ==> x in xs)
  }

  function Insert<T(!new)>(x: T, s: seq<T>, le: (T, T) -> bool): (r: seq<T>)
    requires TotalPreorder(le) && SortedBy(s, le)
    ensures SortedBy(r, le)
    ensures multiset(r) == multiset(s) + multiset{x}
  {
    if |s| == 0 then [x]
    else if le(x, s[0]) then [x] + s
    else
      var r' := Insert(x, s[1..], le);
      assert s == [s[0]] + s[1..];
      assert le(s[0], x);
      assert forall k :: 0 <= k < |r'| ==> le(s[0], r'[k]) by {
        forall k | 0 <= k < |r'| ensures le(s[0], r'[k]) {
          assert r'[k] in multiset(r');
          if r'[k] != x {
            assert r'[k] in multiset(s[1..]);
            var m :| 0 <= m < |s[1..]| && s[1..][m] == r'[k];
            assert le(s[0], s[m + 1]);
          }
        }
      }
      [s[0]] + r'
  }

  /** Insertion sort: an ordered permutation of `s`. */
  function SortBy<T(!new)>(s: seq<T>, le: (T, T) -> bool): (r: seq<T>)
    requires TotalPreorder(le)
    ensures SortedBy(r, le)
    ensures multiset(r) == multiset(s)
  {
    if |s| == 0 then []
    else
      assert s == [s[0]] + s[1..];
      Insert(s[0], SortBy(s[1..], le), le)
  }

  /** Two ordered permutations of one multiset are equal. */
  lemma {:induction false} SortedUnique<T(!new)>(a: seq<T>, b: seq<T>, le: (T, T) -> bool)
    requires TotalPreorder(le) && Antisymmetric(le)
    requires SortedBy(a, le) && SortedBy(b, le)
    requires multiset(a) == multiset(b)
    ensures a == b
    decreases |a|
  {
    if |a| == 0 {
      assert |b| == |multiset(b)| == 0;
    } else {
      assert |b| == |multiset(b)| == |a|;
      SortedHeads(a, b, le);
      assert multiset(a) == multiset{a[0]} + multiset(a[1..]) by {
        assert a == [a[0]] + a[1..];
      }
      assert multiset(b) == multiset{b[0]} + multiset(b[1..]) by {
        assert b == [b[0]] + b[1..];
      }
      assert multiset(a[1..]) == multiset(a) - multiset{a[0]};
      assert multiset(b[1..]) == multiset(b) - multiset{b[0]};
      SortedTail(a, le);
      SortedTail(b, le);
      SortedUnique(a[1..], b[1..], le);
      assert a == [a[0]] + a[1..] && b == [b[0]] + b[1..];
    }
  }

  /** Two ordered permutations of one multiset start with the same element. */
  lemma SortedHeads<T(!new)>(a: seq<T>, b: seq<T>, le: (T, T) -> bool)
    requires TotalPreorder(le) && Antisymmetric(le)
    requires SortedBy(a, le) && SortedBy(b, le)
    requires multiset(a) == multiset(b) && |a| > 0
    ensures |b| > 0 && a[0] == b[0]
  {
    assert |b| == |multiset(b)| == |a|;
    assert a[0] in multiset(b) && b[0] in multiset(a);
    assert le(b[0], a[0]) by {
      var i :| 0 <= i < |b| && b[i] == a[0];
      if i > 0 { assert le(b[0], b[i]); }
    }
    assert le(a[0], b[0]) by {
      var j :| 0 <= j < |a| && a[j] == b[0];
      if j > 0 { assert le(a[0], a[j]); }
    }
  }

  /** The tail of an ordered sequence is ordered. */
  lemma SortedTail<T>(a: seq<T>, le: (T, T) -> bool)
    requires SortedBy(a, le) && |a| > 0
    ensures SortedBy(a[1..], le)
  {
    forall i, j | 0 <= i < j < |a[1..]| ensures le(a[1..][i], a[1..][j]) {
      assert le(a[i + 1], a[j + 1]);
    }
  }

  /** A duplicate-free listing of a set has the set's multiset. */
  lemma {:induction false} EnumerationMultiset<T(!new)>(xs: seq<T>, s: set<T>)
    requires Enumerates(xs, s)
    ensures multiset(xs) == multiset(s)
    ensures |xs| == |s|
    decreases |xs|
  {
    if |xs| == 0 {
      assert s == {};
    } else {
      var rest := s - {xs[0]};
      EnumerationTail(xs, s);
      EnumerationMultiset(xs[1..], rest);
      assert xs == [xs[0]] + xs[1..];
      assert multiset(xs) == multiset{xs[0]} + multiset(xs[1..]);
      assert xs[0] in s && xs[0] !in rest;
      assert s == rest + {xs[0]};
      assert |s| == |rest| + 1;
      assert multiset(s) == multiset(rest) + multiset{xs[0]};
    }
  }

  /** Dropping the first element of a listing lists the rest of the set. */
  lemma EnumerationTail<T(!new)>(xs: seq<T>, s: set<T>)
    requires Enumerates(xs, s) && |xs| > 0
    ensures Enumerates(xs[1..], s - {xs[0]})
  {
    var rest := s - {xs[0]};
    forall x ensures x in xs[1..] <==> x in rest {
      if x in xs[1..] {
        var k :| 1 <= k < |xs| && xs[k] == x;
        assert xs[0] != xs[k];
      }
      if x in rest {
        assert x in xs && x != xs[0];
        var k :| 0 <= k < |xs| && xs[k] == x;
        assert xs[1..][k - 1] == x;
      }
    }
  }

  /** Every finite set has a listing. */
  lemma {:induction false} EnumerationExists<T(!new)>(s: set<T>)
    ensures exists xs :: Enumerates(xs, s)
    decreases |s|
  {
    if s == {} {
      assert Enumerates<T>([], s);
    } else {
      var x :| x in s;
      EnumerationExists(s - {x});
      var xs :| Enumerates(xs, s - {x});
      assert Enumerates([x] + xs, s);
    }
  }

  /** The sorted listing of a set of integers, in ascending order. */
  predicate IntLe(a: int, b: int) { a <= b }

  lemma IntLeOrder()
    ensures TotalPreorder(IntLe) && Antisymmetric(IntLe)
  {
  }

  lemma StrLeOrder()
    ensures TotalPreorder(Text.StrLe) && Antisymmetric(Text.StrLe)
  {
    forall a, b ensures Text.StrLe(a, b) || Text.StrLe(b, a) {
      Text.StrLeTotal(a, b);
    }
    forall a, b, c | Text.StrLe(a, b) && Text.StrLe(b, c) ensures Text.StrLe(a, c) {
      Text.StrLeTransitive(a, b, c);
    }
    forall a, b | Text.StrLe(a, b) && Text.StrLe(b, a) ensures a == b {
      Text.StrLeAntisymmetric(a, b);
    }
  }

  /** `sort.Strings`. */
  function SortStrings(s: seq<string>): (r: seq<string>)
    ensures SortedBy(r, Text.StrLe)
    ensures multiset(r) == multiset(s)
  {
    StrLeOrder();
    SortBy(s, Text.StrLe)
  }

  /** The strings of a set in Go's string order: the one ordered listing of the set. */
  ghost function SortedSet(s: set<string>): (r: seq<string>)
    ensures SortedBy(r, Text.StrLe)
    ensures Enumerates(r, s)
  {
    EnumerationExists(s);
    var xs :| Enumerates(xs, s);
    EnumerationMultiset(xs, s);
    var r := SortStrings(xs);
    assert forall x :: x in r <==> x in multiset(r);
    SortedDistinct(r, multiset(s));
    r
  }

  /** A sequence whose multiset has no repeated element has no repeated element. */
  lemma SortedDistinct(r: seq<string>, m: multiset<string>)
    requires multiset(r) == m
    requires forall x :: x in m ==> m[x] == 1
    ensures forall i, j :: 0 <= i < j < |r| ==> r[i] != r[j]
  {
    forall i, j | 0 <= i < j < |r| ensures r[i] != r[j] {
      RepeatCounted(r, i, j);
    }
  }

  lemma RepeatCounted<T>(r: seq<T>, i: int, j: int)
    requires 0 <= i < j < |r|
    ensures r[i] == r[j] ==> multiset(r)[r[i]] >= 2
  {
    assert r == r[..i] + [r[i]] + r[i + 1..j] + [r[j]] + r[j + 1..];
  }

  /** Sorting any listing of a set of strings gives `SortedSet`. */
  lemma SortedSetUnique(xs: seq<string>, s: set<string>)
    requires Enumerates(xs, s)
    ensures SortStrings(xs) == SortedSet(s)
  {
    StrLeOrder();
    EnumerationMultiset(xs, s);
    EnumerationMultiset(SortedSet(s), s);
    SortedUnique(SortStrings(xs), SortedSet(s), Text.StrLe);
  }

  /** Sorting sorted strings changes nothing. */
  lemma SortStringsIdempotent(s: seq<string>)
    ensures SortStrings(SortStrings(s)) == SortStrings(s)
  {
    StrLeOrder();
    SortedUnique(SortStrings(SortStrings(s)), SortStrings(s), Text.StrLe);
  }

  /** Any ordered rearrangement of `s` is what `sort.Strings` makes of it. */
  lemma SortStringsIs(s: seq<string>, r: seq<string>)
    requires SortedBy(r, Text.StrLe) && multiset(r) == multiset(s)
    ensures SortStrings(s) == r
  {
    StrLeOrder();
    SortedUnique(SortStrings(s), r, Text.StrLe);
  }

  /** An ordered listing of a set of strings is `SortedSet` of it. */
  lemma OrderedListingIsSortedSet(xs: seq<string>, s: set<string>)
    requires Enumerates(xs, s) && SortedBy(xs, Text.StrLe)
    ensures xs == SortedSet(s)
  {
    StrLeOrder();
    EnumerationMultiset(xs, s);
    EnumerationMultiset(SortedSet(s), s);
    SortedUnique(xs, SortedSet(s), Text.StrLe);
  }

  /** Some member of a non-empty set. */
  lemma Member<T>(s: set<T>) returns (w: T)
    requires s != {}
    ensures w in s
  {
    w :| w in s;
  }

  /** `for k := range m`: the keys of `m`, each once, in whatever order the
      map yields them. */
  method MapKeys<K(!new), V>(m: map<K, V>) returns (keys: seq<K>)
    ensures Enumerates(keys, m.Keys)
  {
    keys := [];
    var rest := m.Keys;
    ghost var done: set<K> := {};
    while rest != {}
      invariant Enumerates(keys, done)
      invariant done + rest == m.Keys && done !! rest
      decreases |rest|
    {
      ghost var w := Member(rest);
      var k :| k in rest;
      keys := keys + [k];
      done := done + {k};
      rest := rest - {k};
    }
  }
}
