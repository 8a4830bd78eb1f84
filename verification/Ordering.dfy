/** Byte-wise string order and comparison sorting, as Go's `<` on strings and `sort.Slice` provide them. */
module Ordering {
  import opened Common

  /** Go's `a < b` on strings. */
  predicate Less(a: string, b: string) {
    b != [] && (a == [] || a[0] < b[0] || (a[0] == b[0] && Less(a[1..], b[1..])))
  }

  /** The first difference decides, a text before its continuations. */
  lemma {:induction false} LessExactlyWhen(a: string, b: string)
    ensures Less(a, b) <==>
            exists k :: 0 <= k <= |a| && k < |b| && a[..k] == b[..k] && (k == |a| || a[k] as int < b[k] as int)
  {
    if a != [] && b != [] && a[0] == b[0] {
      LessExactlyWhen(a[1..], b[1..]);
      forall k | 0 < k <= |a| && k < |b| ensures a[..k] == b[..k] <==> a[1..][..k - 1] == b[1..][..k - 1] {
        assert a[..k] == [a[0]] + a[1..][..k - 1] && b[..k] == [b[0]] + b[1..][..k - 1];
      }
      if Less(a, b) {
        var k :| 0 <= k <= |a[1..]| && k < |b[1..]| && a[1..][..k] == b[1..][..k]
                 && (k == |a[1..]| || a[1..][k] as int < b[1..][k] as int);
        assert a[..k + 1] == b[..k + 1];
      }
    } else if Less(a, b) {
      assert a[..0] == b[..0];
    } else if a != [] && b != [] {
      forall k | 0 < k <= |a| && k < |b| ensures a[..k] != b[..k] {
        assert a[..k][0] == a[0] && b[..k][0] == b[0];
      }
    }
  }

  lemma {:induction false} LessTotal(a: string, b: string)
    ensures Less(a, b) || Less(b, a) || a == b
  {
    if a != [] && b != [] && a[0] == b[0] {
      LessTotal(a[1..], b[1..]);
      if a[1..] == b[1..] {
        assert a == [a[0]] + a[1..] == b;
      }
    }
  }

  lemma {:induction false} LessAsymmetric(a: string, b: string)
    requires Less(a, b)
    ensures !Less(b, a) && a != b
  {
    if a != [] && a[0] == b[0] {
      LessAsymmetric(a[1..], b[1..]);
    }
  }

  lemma {:induction false} LessTransitive(a: string, b: string, c: string)
    requires Less(a, b) && Less(b, c)
    ensures Less(a, c)
  {
    if a != [] && a[0] == b[0] == c[0] {
      LessTransitive(a[1..], b[1..], c[1..]);
    }
  }

  /** `less` is a strict total order on the elements that satisfy `valid`. */
  ghost predicate StrictTotal<T(!new)>(less: (T, T) -> bool, s: set<T>) {
    && (forall x | x in s :: !less(x, x))
    && (forall x, y, z | x in s && y in s && z in s && less(x, y) && less(y, z) :: less(x, z))
    && (forall x, y | x in s && y in s && x != y :: less(x, y) || less(y, x))
  }

  /** No element stands after one that it precedes. */
  ghost predicate SortedBy<T(!new)>(less: (T, T) -> bool, s: seq<T>) {
    s == [] || ((forall y | y in s[1..] :: !less(y, s[0])) && SortedBy(less, s[1..]))
  }

  ghost function Elements<T>(s: seq<T>): set<T> { set x | x in s }

  function Insert<T>(x: T, s: seq<T>, less: (T, T) -> bool): (r: seq<T>)
    ensures multiset(r) == multiset(s) + multiset{x}
  {
    if s == [] then [x]
    else if less(x, s[0]) then [x] + s
    else
      assert s == [s[0]] + s[1..];
      [s[0]] + Insert(x, s[1..], less)
  }

  /** The specification of `sort.Slice(s, less)`; SortUnique shows any other sort agrees with it. */
  function Sort<T>(s: seq<T>, less: (T, T) -> bool): (r: seq<T>)
    ensures multiset(r) == multiset(s)
  {
    if s == [] then []
    else
      assert s == [s[0]] + s[1..];
      Insert(s[0], Sort(s[1..], less), less)
  }

  lemma SameElements<T>(a: seq<T>, b: seq<T>)
    requires multiset(a) == multiset(b)
    ensures |a| == |b| && Elements(a) == Elements(b)
  {
    assert |a| == |multiset(a)| == |multiset(b)| == |b|;
    forall x ensures x in a <==> x in b {
      assert x in a <==> x in multiset(a);
      assert x in b <==> x in multiset(b);
    }
  }

  lemma DuplicateCount<T>(s: seq<T>, i: nat, j: nat)
    requires i < j < |s| && s[i] == s[j]
    ensures multiset(s)[s[i]] >= 2
  {
    assert s == s[..j] + [s[j]] + s[j + 1..];
    assert s[i] in s[..j] by { assert s[..j][i] == s[i]; }
    assert multiset(s) == multiset(s[..j]) + multiset{s[j]} + multiset(s[j + 1..]);
  }

  lemma {:induction false} InsertSorted<T(!new)>(x: T, s: seq<T>, less: (T, T) -> bool)
    requires StrictTotal(less, Elements(s) + {x})
    requires SortedBy(less, s)
    ensures SortedBy(less, Insert(x, s, less))
  {
    if s != [] {
      var t := s[1..];
      assert s == [s[0]] + t;
      if less(x, s[0]) {
        forall y | y in s ensures !less(y, x) {
          assert y in Elements(s) && s[0] in Elements(s);
          assert y == s[0] || y in t;
        }
        assert ([x] + s)[1..] == s;
      } else {
        assert Elements(t) + {x} <= Elements(s) + {x};
        InsertSorted(x, t, less);
        var q := Insert(x, t, less);
        forall y | y in q ensures !less(y, s[0]) {
          assert y in multiset(t) + multiset{x};
        }
        assert ([s[0]] + q)[1..] == q;
      }
    }
  }

  lemma SortedAt<T(!new)>(less: (T, T) -> bool, s: seq<T>, i: nat, j: nat)
    requires SortedBy(less, s) && i < j < |s|
    ensures !less(s[j], s[i])
  {
    if i == 0 {
      assert s[j] == s[1..][j - 1];
    } else {
      SortedAt(less, s[1..], i - 1, j - 1);
    }
  }

  lemma {:induction false} SortSorts<T(!new)>(s: seq<T>, less: (T, T) -> bool)
    requires StrictTotal(less, Elements(s))
    ensures SortedBy(less, Sort(s, less))
  {
    if s != [] {
      var t := s[1..];
      assert Elements(t) <= Elements(s);
      SortSorts(t, less);
      SameElements(t, Sort(t, less));
      assert Elements(Sort(t, less)) + {s[0]} <= Elements(s);
      InsertSorted(s[0], Sort(t, less), less);
    }
  }

  /** Under a strict total order a sorted arrangement is unique, so an unstable sort is still deterministic. */
  lemma {:induction false} SortUnique<T(!new)>(a: seq<T>, b: seq<T>, less: (T, T) -> bool)
    requires multiset(a) == multiset(b)
    requires StrictTotal(less, Elements(a))
    requires SortedBy(less, a) && SortedBy(less, b)
    ensures a == b
  {
    SameElements(a, b);
    if a != [] {
      assert a[0] in Elements(a) && b[0] in Elements(b);
      assert a[0] in b && b[0] in a;
      assert !less(b[0], a[0]) by { assert a == [a[0]] + a[1..]; }
      assert !less(a[0], b[0]) by { assert b == [b[0]] + b[1..]; }
      assert a[0] == b[0];
      var a', b' := a[1..], b[1..];
      assert a == [a[0]] + a' && b == [b[0]] + b';
      assert multiset(a') == multiset(a) - multiset{a[0]};
      assert multiset(b') == multiset(b) - multiset{b[0]};
      assert Elements(a') <= Elements(a);
      SortUnique(a', b', less);
    }
  }

  /** Sorting does not depend on the order of its input. */
  lemma SortPermutation<T(!new)>(a: seq<T>, b: seq<T>, less: (T, T) -> bool)
    requires multiset(a) == multiset(b)
    requires StrictTotal(less, Elements(a))
    ensures Sort(a, less) == Sort(b, less)
  {
    SameElements(a, b);
    SortSorts(a, less);
    SortSorts(b, less);
    SameElements(a, Sort(a, less));
    SortUnique(Sort(a, less), Sort(b, less), less);
  }
}
