/** Lexicographic string order and the stable sort that the wallet's sorted lists rely on. */
module Orders {

  /** Byte-wise string comparison, the `<` of the implementation language. */
  predicate LexLess(a: string, b: string) {
    if b == "" then false
    else if a == "" then true
    else if a[0] != b[0] then a[0] < b[0]
    else LexLess(a[1..], b[1..])
  }

  lemma {:induction false} LexTotal(a: string, b: string)
    ensures !(LexLess(a, b) && LexLess(b, a))
    ensures a != b ==> LexLess(a, b) || LexLess(b, a)
    ensures !LexLess(a, a)
    decreases |a|
  {
    if a != "" {
      if b != "" && a[0] == b[0] {
        LexTotal(a[1..], b[1..]);
        assert a == [a[0]] + a[1..] && b == [b[0]] + b[1..];
      }
      LexTotal(a[1..], a[1..]);
    }
  }

  lemma {:induction false} LexTransitive(a: string, b: string, c: string)
    ensures LexLess(a, b) && LexLess(b, c) ==> LexLess(a, c)
    decreases |a|
  {
    if a != "" && b != "" && c != "" {
      LexTransitive(a[1..], b[1..], c[1..]);
    }
  }

  /** The order is decided where the texts first differ, a proper prefix being less. */
  lemma {:induction false} LexIsFirstDifference(a: string, b: string)
    ensures LexLess(a, b) <==> exists k: nat :: DiffersFirstAt(a, b, k)
    decreases |a|
  {
    if a != "" && b != "" && a[0] == b[0] {
      LexIsFirstDifference(a[1..], b[1..]);
      if k: nat :| DiffersFirstAt(a, b, k) {
        assert a[1..][..k - 1] == a[..k][1..] && b[1..][..k - 1] == b[..k][1..];
        assert DiffersFirstAt(a[1..], b[1..], k - 1);
      }
      if k: nat :| DiffersFirstAt(a[1..], b[1..], k) {
        assert a[..k + 1] == [a[0]] + a[1..][..k] && b[..k + 1] == [b[0]] + b[1..][..k];
        assert DiffersFirstAt(a, b, k + 1);
      }
    } else if b != "" {
      assert a[..0] == b[..0];
      assert LexLess(a, b) ==> DiffersFirstAt(a, b, 0);
    }
  }

  /** The texts agree before position `k`, where `a` ends or has the smaller character. */
  predicate DiffersFirstAt(a: string, b: string, k: nat) {
    k <= |a| && k < |b| && a[..k] == b[..k] && (k == |a| || a[k] < b[k])
  }

  /** Splits a sequence around one occurrence of `x`. */
  lemma Extract<T>(s: seq<T>, x: T) returns (l: seq<T>, r: seq<T>)
    requires x in multiset(s)
    ensures s == l + [x] + r && multiset(l + r) == multiset(s) - multiset{x}
  {
    var j :| 0 <= j < |s| && s[j] == x;
    l, r := s[..j], s[j + 1..];
    assert s == l + [x] + r;
  }

  /** A comparator a stable sort may be given: asymmetric, and "not greater" is transitive. */
  ghost predicate WeakOrder<T(!new)>(less: (T, T) -> bool) {
    && (forall x, y :: less(x, y) ==> !less(y, x))
    && (forall x, y, z :: !less(y, x) && !less(z, y) ==> !less(z, x))
  }

  lemma LexIsWeakOrder()
    ensures WeakOrder(LexLess)
  {
    forall x, y ensures LexLess(x, y) ==> !LexLess(y, x) { LexTotal(x, y); }
    forall x, y, z ensures !LexLess(y, x) && !LexLess(z, y) ==> !LexLess(z, x) {
      LexTotal(x, y); LexTotal(y, z); LexTransitive(z, x, y); LexTransitive(y, z, x);
      LexTransitive(z, y, x); LexTotal(x, z);
    }
  }

  ghost predicate Sorted<T>(s: seq<T>, less: (T, T) -> bool) {
    forall i, j :: 0 <= i < j < |s| ==> !less(s[j], s[i])
  }

  function Insert<T>(x: T, s: seq<T>, less: (T, T) -> bool): seq<T> {
    if s != [] && less(s[0], x) then [s[0]] + Insert(x, s[1..], less) else [x] + s
  }

  /** A stable sort: of two elements neither of which is less, the earlier one stays first. */
  function SortBy<T>(s: seq<T>, less: (T, T) -> bool): seq<T> {
    if s == [] then [] else Insert(s[0], SortBy(s[1..], less), less)
  }

  lemma {:induction false} InsertAdds<T>(x: T, s: seq<T>, less: (T, T) -> bool)
    ensures multiset(Insert(x, s, less)) == multiset(s) + multiset{x}
    ensures forall y :: y in Insert(x, s, less) ==> y == x || y in s
  {
    if s != [] && less(s[0], x) {
      InsertAdds(x, s[1..], less);
      assert s == [s[0]] + s[1..];
    }
  }

  lemma ConsSorted<T>(x: T, s: seq<T>, less: (T, T) -> bool)
    requires Sorted(s, less) && forall y :: y in s ==> !less(y, x)
    ensures Sorted([x] + s, less)
  {
    var r := [x] + s;
    forall i, j | 0 <= i < j < |r| ensures !less(r[j], r[i]) {
      assert r[j] == s[j - 1];
      if i > 0 {
        assert r[i] == s[i - 1];
      }
    }
  }

  lemma {:induction false} InsertSorted<T(!new)>(x: T, s: seq<T>, less: (T, T) -> bool)
    requires WeakOrder(less) && Sorted(s, less)
    ensures Sorted(Insert(x, s, less), less)
  {
    if s != [] && less(s[0], x) {
      InsertSorted(x, s[1..], less);
      InsertAdds(x, s[1..], less);
      forall y | y in Insert(x, s[1..], less) ensures !less(y, s[0]) {
        if y != x {
          var j :| 0 <= j < |s[1..]| && s[1..][j] == y;
          assert s[j + 1] == y;
        }
      }
      ConsSorted(s[0], Insert(x, s[1..], less), less);
    } else {
      forall y | y in s ensures !less(y, x) {
        var j :| 0 <= j < |s| && s[j] == y;
        assert j == 0 || !less(s[j], s[0]);
      }
      ConsSorted(x, s, less);
    }
  }

  lemma {:induction false} SortBySorts<T(!new)>(s: seq<T>, less: (T, T) -> bool)
    requires WeakOrder(less)
    ensures Sorted(SortBy(s, less), less)
    ensures multiset(SortBy(s, less)) == multiset(s)
    ensures |SortBy(s, less)| == |s|
  {
    if s != [] {
      SortBySorts(s[1..], less);
      InsertSorted(s[0], SortBy(s[1..], less), less);
      InsertAdds(s[0], SortBy(s[1..], less), less);
      assert s == [s[0]] + s[1..];
    }
    assert |SortBy(s, less)| == |multiset(SortBy(s, less))|;
  }

  /** Sorting a sorted list changes nothing. */
  lemma {:induction false} SortedIsFixed<T>(s: seq<T>, less: (T, T) -> bool)
    requires Sorted(s, less)
    ensures SortBy(s, less) == s
  {
    if s != [] {
      SortedIsFixed(s[1..], less);
      assert |s| > 1 ==> s[1..][0] == s[1];
      assert s == [s[0]] + s[1..];
    }
  }

  /** Distinct elements of `s` never tie. */
  ghost predicate NoTies<T>(s: seq<T>, less: (T, T) -> bool) {
    forall x, y :: x in s && y in s && x != y ==> less(x, y) || less(y, x)
  }

  lemma LeastComesFirst<T>(a: seq<T>, b: seq<T>, less: (T, T) -> bool)
    requires Sorted(a, less) && Sorted(b, less) && a != [] && b != []
    requires multiset(a) == multiset(b) && NoTies(a, less)
    ensures a[0] == b[0]
  {
    assert a[0] in multiset(b) && b[0] in multiset(a);
    var i :| 0 <= i < |b| && b[i] == a[0];
    var j :| 0 <= j < |a| && a[j] == b[0];
  }

  lemma DropHead<T>(a: seq<T>)
    requires a != []
    ensures multiset(a[1..]) == multiset(a) - multiset{a[0]}
  {
    assert a == [a[0]] + a[1..];
  }

  /** With no ties there is only one sorted arrangement. */
  lemma {:induction false} SortedUnique<T>(a: seq<T>, b: seq<T>, less: (T, T) -> bool)
    requires Sorted(a, less) && Sorted(b, less)
    requires multiset(a) == multiset(b)
    requires NoTies(a, less)
    ensures a == b
  {
    assert |a| == |multiset(a)| && |b| == |multiset(b)|;
    if a != [] {
      LeastComesFirst(a, b, less);
      DropHead(a);
      DropHead(b);
      SortedUnique(a[1..], b[1..], less);
      assert a == [a[0]] + a[1..] && b == [b[0]] + b[1..];
    }
  }

  /** Sorting forgets the order of its input when there are no ties. */
  lemma SortByForgetsOrder<T(!new)>(a: seq<T>, b: seq<T>, less: (T, T) -> bool)
    requires WeakOrder(less) && multiset(a) == multiset(b) && NoTies(a, less)
    ensures SortBy(a, less) == SortBy(b, less)
  {
    SortBySorts(a, less);
    SortBySorts(b, less);
    forall x, y | x in SortBy(a, less) && y in SortBy(a, less) && x != y
      ensures less(x, y) || less(y, x)
    {
      assert x in multiset(a) && y in multiset(a);
    }
    SortedUnique(SortBy(a, less), SortBy(b, less), less);
  }
}
