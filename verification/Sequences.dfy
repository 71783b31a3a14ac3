/** Sequence vocabulary shared by the models: filters, duplicate-freedom and intervals. */
module Sequences {

  datatype Option<+T> = None | Some(value: T)

  function Not<T>(p: T -> bool): T -> bool {
    x => !p(x)
  }

  /** The elements of s that satisfy p, in their original order. */
  function Filter<T>(s: seq<T>, p: T -> bool): seq<T> {
    if s == [] then [] else (if p(s[0]) then [s[0]] else []) + Filter(s[1..], p)
  }

  /** The elements of s that satisfy p, last one first: the order in which a backward loop meets them. */
  function FilterBackwards<T>(s: seq<T>, p: T -> bool): seq<T> {
    if s == [] then [] else FilterBackwards(s[1..], p) + (if p(s[0]) then [s[0]] else [])
  }

  ghost predicate NoDuplicates<T>(s: seq<T>) {
    forall i, j :: 0 <= i < j < |s| ==> s[i] != s[j]
  }

  /** lo, lo + 1, ..., hi - 1 */
  function Interval(lo: int, hi: int): (r: seq<int>)
    ensures |r| == (if lo < hi then hi - lo else 0)
    ensures forall i :: 0 <= i < |r| ==> r[i] == lo + i
  {
    if lo < hi then seq(hi - lo, i => lo + i) else []
  }

  lemma {:induction false} FilterMember<T>(s: seq<T>, p: T -> bool, x: T)
    ensures x in Filter(s, p) <==> x in s && p(x)
  {
    if s != [] {
      assert s == [s[0]] + s[1..];
      FilterMember(s[1..], p, x);
    }
  }

  lemma {:induction false} FilterCounts<T>(s: seq<T>, p: T -> bool, x: T)
    ensures multiset(Filter(s, p))[x] == if p(x) then multiset(s)[x] else 0
  {
    if s != [] {
      assert s == [s[0]] + s[1..];
      FilterCounts(s[1..], p, x);
    }
  }

  lemma {:induction false} FilterMembers<T>(s: seq<T>, p: T -> bool)
    ensures forall x :: x in Filter(s, p) <==> x in s && p(x)
  {
    forall x ensures x in Filter(s, p) <==> x in s && p(x) {
      FilterMember(s, p, x);
    }
  }

  lemma {:induction false} FilterKeepsNoDuplicates<T>(s: seq<T>, p: T -> bool)
    requires NoDuplicates(s)
    ensures NoDuplicates(Filter(s, p))
  {
    if s != [] {
      FilterKeepsNoDuplicates(s[1..], p);
      FilterMembers(s[1..], p);
    }
  }

  /** A filter and its complement, met backwards, share out the elements of s. */
  lemma {:induction false} FilterPartition<T>(s: seq<T>, p: T -> bool)
    ensures multiset(s) == multiset(Filter(s, p)) + multiset(FilterBackwards(s, Not(p)))
  {
    if s != [] {
      assert s == [s[0]] + s[1..];
      FilterPartition(s[1..], p);
    }
  }

  /** A filter that keeps everything is the identity. */
  lemma {:induction false} FilterAll<T>(s: seq<T>, p: T -> bool)
    requires forall x :: x in s ==> p(x)
    ensures Filter(s, p) == s
  {
    if s != [] {
      assert s == [s[0]] + s[1..];
      FilterAll(s[1..], p);
    }
  }

  lemma {:induction false} FilterConcat<T>(a: seq<T>, b: seq<T>, p: T -> bool)
    ensures Filter(a + b, p) == Filter(a, p) + Filter(b, p)
  {
    if a == [] {
      assert a + b == b;
    } else {
      FilterConcat(a[1..], b, p);
      assert (a + b)[0] == a[0] && (a + b)[1..] == a[1..] + b;
      assert Filter(a + b, p) == (if p(a[0]) then [a[0]] else []) + (Filter(a[1..], p) + Filter(b, p));
    }
  }

  lemma {:induction false} FilterBackwardsNone<T>(s: seq<T>, p: T -> bool)
    requires forall x :: x in s ==> !p(x)
    ensures FilterBackwards(s, p) == []
  {
    if s != [] {
      FilterBackwardsNone(s[1..], p);
    }
  }

  lemma {:induction false} RepeatCountsTwice<T>(s: seq<T>, i: int, j: int)
    requires 0 <= i < j < |s|
    ensures s[i] == s[j] ==> multiset(s)[s[i]] >= 2
  {
    assert s == s[..j] + s[j..] && s[i] == s[..j][i] && s[j] == s[j..][0];
    assert multiset(s) == multiset(s[..j]) + multiset(s[j..]);
    assert s[i] in multiset(s[..j]) && s[j] in multiset(s[j..]);
  }

  lemma {:induction false} NoDuplicatesFromCounts<T>(s: seq<T>)
    requires forall x :: x in s ==> multiset(s)[x] == 1
    ensures NoDuplicates(s)
  {
    forall i, j | 0 <= i < j < |s| ensures s[i] != s[j] {
      RepeatCountsTwice(s, i, j);
    }
  }

  lemma {:induction false} CountsFromNoDuplicates<T>(s: seq<T>, x: T)
    requires NoDuplicates(s)
    ensures multiset(s)[x] == if x in s then 1 else 0
  {
    if s != [] {
      assert s == [s[0]] + s[1..];
      CountsFromNoDuplicates(s[1..], x);
    }
  }

  // ---- Concatenation ----

  /** The parts one after the other. */
  function Concat<T>(parts: seq<seq<T>>): seq<T> {
    if |parts| == 0 then [] else Concat(parts[..|parts| - 1]) + parts[|parts| - 1]
  }

  lemma {:induction false} ConcatOne<T>(part: seq<T>)
    ensures Concat([part]) == part
  {
    assert [part][..0] == [];
  }

  lemma {:induction false} ConcatAdds<T>(a: seq<seq<T>>, b: seq<seq<T>>)
    ensures Concat(a + b) == Concat(a) + Concat(b)
  {
    if b == [] {
      assert a + b == a;
    } else {
      assert (a + b)[..|a + b| - 1] == a + b[..|b| - 1];
      ConcatAdds(a, b[..|b| - 1]);
    }
  }

  lemma {:induction false} ConcatFirst<T>(parts: seq<seq<T>>)
    requires |parts| > 0
    ensures Concat(parts) == parts[0] + Concat(parts[1..])
  {
    assert parts == [parts[0]] + parts[1..];
    ConcatAdds([parts[0]], parts[1..]);
    ConcatOne(parts[0]);
  }

  // ---- Ordering ----

  function InsertBy<T>(x: T, sorted: seq<T>, key: T -> int): seq<T> {
    if |sorted| == 0 || key(x) <= key(sorted[0]) then [x] + sorted else [sorted[0]] + InsertBy(x, sorted[1..], key)
  }

  /** ORDER BY key ASC */
  function SortBy<T>(s: seq<T>, key: T -> int): seq<T> {
    if |s| == 0 then [] else InsertBy(s[0], SortBy(s[1..], key), key)
  }

  ghost predicate OrderedBy<T>(s: seq<T>, key: T -> int) {
    forall i, j :: 0 <= i < j < |s| ==> key(s[i]) <= key(s[j])
  }

  lemma {:induction false} InsertByMembers<T>(x: T, s: seq<T>, key: T -> int)
    ensures multiset(InsertBy(x, s, key)) == multiset(s) + multiset{x}
  {
    if s != [] && key(x) > key(s[0]) {
      InsertByMembers(x, s[1..], key);
      assert s == [s[0]] + s[1..];
    }
  }

  lemma {:induction false} InsertByOrders<T>(x: T, s: seq<T>, key: T -> int)
    requires OrderedBy(s, key)
    ensures OrderedBy(InsertBy(x, s, key), key)
  {
    if s != [] && key(x) > key(s[0]) {
      InsertByOrders(x, s[1..], key);
      InsertByMembers(x, s[1..], key);
      var o := InsertBy(x, s[1..], key);
      forall y | y in o ensures key(s[0]) <= key(y) {
        assert y in multiset(o);
        assert y == x || y in s[1..];
      }
    }
  }

  /** The ordering is an ordered permutation. */
  lemma {:induction false} SortByOrders<T>(s: seq<T>, key: T -> int)
    ensures OrderedBy(SortBy(s, key), key) && multiset(SortBy(s, key)) == multiset(s)
  {
    if s != [] {
      assert s == [s[0]] + s[1..];
      SortByOrders(s[1..], key);
      InsertByOrders(s[0], SortBy(s[1..], key), key);
      InsertByMembers(s[0], SortBy(s[1..], key), key);
    }
  }

  lemma {:induction false} SortByOrdered<T>(s: seq<T>, key: T -> int)
    requires OrderedBy(s, key)
    ensures SortBy(s, key) == s
  {
    if s != [] {
      SortByOrdered(s[1..], key);
    }
  }
}
