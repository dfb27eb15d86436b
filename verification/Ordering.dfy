/** Byte strings in `str` order, and the sort the components share. */
module Ordering {
  type Byte = x: int | 0 <= x < 256
  type Bytes = seq<Byte>

  predicate LexLeq(a: Bytes, b: Bytes) {
    a == [] || (b != [] && (a[0] < b[0] || (a[0] == b[0] && LexLeq(a[1..], b[1..]))))
  }

  /** Byte order: a prefix comes first, and otherwise the first difference decides. */
  lemma {:induction false} LexIsFirstDifference(a: Bytes, b: Bytes)
    ensures LexLeq(a, b) <==>
            a <= b || exists k :: 0 <= k < |a| && k < |b| && a[..k] == b[..k] && a[k] < b[k]
  {
    if a != [] && b != [] {
      LexIsFirstDifference(a[1..], b[1..]);
      assert a == [a[0]] + a[1..] && b == [b[0]] + b[1..];
      if k :| 0 <= k < |a[1..]| && k < |b[1..]| && a[1..][..k] == b[1..][..k] && a[1..][k] < b[1..][k] && a[0] == b[0] {
        assert a[..k + 1] == [a[0]] + a[1..][..k] && b[..k + 1] == [b[0]] + b[1..][..k];
        assert a[k + 1] < b[k + 1];
      }
      if k :| 0 <= k < |a| && k < |b| && a[..k] == b[..k] && a[k] < b[k] {
        if k > 0 {
          assert a[..k][0] == b[..k][0];
          assert a[1..][..k - 1] == a[..k][1..] && b[1..][..k - 1] == b[..k][1..];
        } else {
          assert a[0] < b[0];
        }
      }
    }
  }

  lemma {:induction false} LexTotal(a: Bytes, b: Bytes)
    ensures LexLeq(a, b) || LexLeq(b, a)
  {
    if a != [] && b != [] && a[0] == b[0] {
      LexTotal(a[1..], b[1..]);
    }
  }

  lemma {:induction false} LexAntisymmetric(a: Bytes, b: Bytes)
    requires LexLeq(a, b) && LexLeq(b, a)
    ensures a == b
  {
    if a != [] && b != [] {
      LexAntisymmetric(a[1..], b[1..]);
      assert a == [a[0]] + a[1..] && b == [b[0]] + b[1..];
    }
  }

  lemma {:induction false} LexTransitive(a: Bytes, b: Bytes, c: Bytes)
    requires LexLeq(a, b) && LexLeq(b, c)
    ensures LexLeq(a, c)
  {
    if a != [] && a[0] == b[0] && b[0] == c[0] {
      LexTransitive(a[1..], b[1..], c[1..]);
    }
  }

  ghost predicate TotalPreorder<T(!new)>(leq: (T, T) -> bool) {
    && (forall a, b :: leq(a, b) || leq(b, a))
    && (forall a, b, c :: leq(a, b) && leq(b, c) ==> leq(a, c))
  }

  ghost predicate SortedBy<T>(s: seq<T>, leq: (T, T) -> bool) {
    forall i, j :: 0 <= i < j < |s| ==> leq(s[i], s[j])
  }

  function Insert<T>(x: T, s: seq<T>, leq: (T, T) -> bool): seq<T> {
    if s == [] || leq(x, s[0]) then [x] + s else [s[0]] + Insert(x, s[1..], leq)
  }

  /** A stable sort: `sort_by`, `sort_by_key`. */
  function Sort<T>(s: seq<T>, leq: (T, T) -> bool): seq<T> {
    if s == [] then [] else Insert(s[0], Sort(s[1..], leq), leq)
  }

  lemma {:induction false} InsertPermutes<T>(x: T, s: seq<T>, leq: (T, T) -> bool)
    ensures multiset(Insert(x, s, leq)) == multiset{x} + multiset(s)
  {
    if s != [] && !leq(x, s[0]) {
      InsertPermutes(x, s[1..], leq);
      assert s == [s[0]] + s[1..];
    }
  }

  lemma {:induction false} SortPermutes<T>(s: seq<T>, leq: (T, T) -> bool)
    ensures multiset(Sort(s, leq)) == multiset(s) && |Sort(s, leq)| == |s|
  {
    if s != [] {
      SortPermutes(s[1..], leq);
      InsertPermutes(s[0], Sort(s[1..], leq), leq);
      assert s == [s[0]] + s[1..];
    }
    assert |Sort(s, leq)| == |multiset(Sort(s, leq))|;
  }

  lemma InsertMembers<T>(x: T, s: seq<T>, leq: (T, T) -> bool)
    ensures forall y :: y in Insert(x, s, leq) <==> y == x || y in s
  {
    InsertPermutes(x, s, leq);
    forall y
      ensures y in Insert(x, s, leq) <==> y == x || y in s
    {
      assert y in Insert(x, s, leq) <==> y in multiset(Insert(x, s, leq));
    }
  }

  lemma {:induction false} InsertSorts<T(!new)>(x: T, s: seq<T>, leq: (T, T) -> bool)
    requires TotalPreorder(leq) && SortedBy(s, leq)
    ensures SortedBy(Insert(x, s, leq), leq)
  {
    if s != [] && !leq(x, s[0]) {
      InsertSorts(x, s[1..], leq);
      InsertMembers(x, s[1..], leq);
      var r := Insert(x, s[1..], leq);
      forall j | 0 <= j < |r|
        ensures leq(s[0], r[j])
      {
        assert r[j] in r;
        assert r[j] == x || r[j] in s[1..];
      }
    } else if s != [] {
      forall j | 0 <= j < |s|
        ensures leq(x, s[j])
      {
        assert leq(x, s[0]) && (j == 0 || leq(s[0], s[j]));
      }
    }
  }

  lemma {:induction false} SortSorts<T(!new)>(s: seq<T>, leq: (T, T) -> bool)
    requires TotalPreorder(leq)
    ensures SortedBy(Sort(s, leq), leq)
  {
    if s != [] {
      SortSorts(s[1..], leq);
      InsertSorts(s[0], Sort(s[1..], leq), leq);
    }
  }

  /** Sorting neither loses nor invents elements. */
  lemma SortMembers<T>(s: seq<T>, leq: (T, T) -> bool)
    ensures forall y :: y in Sort(s, leq) <==> y in s
  {
    SortPermutes(s, leq);
    forall y
      ensures y in Sort(s, leq) <==> y in s
    {
      assert y in Sort(s, leq) <==> y in multiset(Sort(s, leq));
    }
  }

  /** Sorting what is sorted changes nothing. */
  lemma {:induction false} SortedIsFixed<T(!new)>(s: seq<T>, leq: (T, T) -> bool)
    requires SortedBy(s, leq)
    ensures Sort(s, leq) == s
  {
    if s != [] {
      SortedIsFixed(s[1..], leq);
    }
  }

  /** What stands at two places counts twice. */
  lemma TwiceInside<T>(s: seq<T>, i: nat, j: nat)
    requires i < j < |s| && s[i] == s[j]
    ensures multiset(s)[s[i]] >= 2
  {
    assert s == s[..j] + s[j..];
    assert s[..j][i] == s[i] && s[j..][0] == s[i];
    assert s[i] in s[..j] && s[i] in s[j..];
    assert s[i] in multiset(s[..j]) && s[i] in multiset(s[j..]);
  }
}
