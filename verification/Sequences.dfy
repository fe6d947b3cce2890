/** Sums, sorting and distinct keys of sequences. */
module Sequences {

  // ---------------------------------------------------------------- sums

  function SumReal<T>(s: seq<T>, f: T -> real): real {
    if s == [] then 0.0 else SumReal(s[..|s| - 1], f) + f(s[|s| - 1])
  }

  function SumInt<T>(s: seq<T>, f: T -> int): int {
    if s == [] then 0 else SumInt(s[..|s| - 1], f) + f(s[|s| - 1])
  }

  lemma SumRealAppend<T>(s: seq<T>, x: T, f: T -> real)
    ensures SumReal(s + [x], f) == SumReal(s, f) + f(x)
  {
    assert (s + [x])[..|s|] == s;
  }

  lemma {:induction false} SumRealJoin<T>(s: seq<T>, t: seq<T>, f: T -> real)
    ensures SumReal(s + t, f) == SumReal(s, f) + SumReal(t, f)
  {
    if t == [] {
      assert s + t == s;
    } else {
      var n := |t| - 1;
      assert (s + t)[..|s + t| - 1] == s + t[..n];
      SumRealJoin(s, t[..n], f);
    }
  }

  lemma SumIntAppend<T>(s: seq<T>, x: T, f: T -> int)
    ensures SumInt(s + [x], f) == SumInt(s, f) + f(x)
  {
    assert (s + [x])[..|s|] == s;
  }

  lemma {:induction false} SumIntJoin<T>(s: seq<T>, t: seq<T>, f: T -> int)
    ensures SumInt(s + t, f) == SumInt(s, f) + SumInt(t, f)
  {
    if t == [] {
      assert s + t == s;
    } else {
      var n := |t| - 1;
      assert (s + t)[..|s + t| - 1] == s + t[..n];
      SumIntJoin(s, t[..n], f);
    }
  }

  /** Where the last element of one permutation stands in the other. */
  lemma Locate<T>(a: seq<T>, b: seq<T>) returns (i: nat)
    requires a != [] && multiset(a) == multiset(b)
    ensures i < |b| && b[i] == a[|a| - 1]
    ensures multiset(a[..|a| - 1]) == multiset(b[..i] + b[i + 1..])
    ensures b == b[..i] + [b[i]] + b[i + 1..]
  {
    var n := |a| - 1;
    assert a == a[..n] + [a[n]];
    assert a[n] in multiset(b);
    i :| 0 <= i < |b| && b[i] == a[n];
    assert b == b[..i] + [b[i]] + b[i + 1..];
    Split(b, i);
    Split(a, n);
    assert a[..n] + a[n + 1..] == a[..n];
    assert multiset(a[..n]) == multiset(b[..i] + b[i + 1..]) by {
      assert multiset(a[..n]) == multiset(a) - multiset{a[n]};
      assert multiset(b[..i] + b[i + 1..]) == multiset(b) - multiset{b[i]};
    }
  }

  lemma Split<T>(s: seq<T>, i: nat)
    requires i < |s|
    ensures multiset(s[..i] + s[i + 1..]) == multiset(s) - multiset{s[i]}
  {
    assert s == s[..i] + [s[i]] + s[i + 1..];
  }

  /** A sum does not depend on the order of its terms. */
  lemma {:induction false} SumRealPermutes<T>(a: seq<T>, b: seq<T>, f: T -> real)
    requires multiset(a) == multiset(b)
    ensures SumReal(a, f) == SumReal(b, f)
  {
    if a == [] {
      assert |multiset(b)| == 0;
    } else {
      var i := Locate(a, b);
      SumRealPermutes(a[..|a| - 1], b[..i] + b[i + 1..], f);
      SumRealJoin(b[..i], b[i + 1..], f);
      SumRealJoin(b[..i] + [b[i]], b[i + 1..], f);
      SumRealAppend(b[..i], b[i], f);
    }
  }

  lemma {:induction false} SumIntPermutes<T>(a: seq<T>, b: seq<T>, f: T -> int)
    requires multiset(a) == multiset(b)
    ensures SumInt(a, f) == SumInt(b, f)
  {
    if a == [] {
      assert |multiset(b)| == 0;
    } else {
      var i := Locate(a, b);
      SumIntPermutes(a[..|a| - 1], b[..i] + b[i + 1..], f);
      SumIntJoin(b[..i], b[i + 1..], f);
      SumIntJoin(b[..i] + [b[i]], b[i + 1..], f);
      SumIntAppend(b[..i], b[i], f);
    }
  }

  // ---------------------------------------------------------------- sorting

  ghost predicate Ordered<T>(s: seq<T>, le: (T, T) -> bool) {
    forall i, j :: 0 <= i < j < |s| ==> le(s[i], s[j])
  }

  ghost predicate TotalPreorder<T(!new)>(le: (T, T) -> bool) {
    && (forall x, y :: le(x, y) || le(y, x))
    && (forall x, y, z :: le(x, y) && le(y, z) ==> le(x, z))
  }

  /** Puts `x` behind everything that may stand before it. */
  function Insert<T>(s: seq<T>, x: T, le: (T, T) -> bool): seq<T> {
    if s == [] then [x]
    else if le(s[|s| - 1], x) then s + [x]
    else Insert(s[..|s| - 1], x, le) + [s[|s| - 1]]
  }

  /** A stable sort. */
  function Sort<T>(s: seq<T>, le: (T, T) -> bool): seq<T> {
    if s == [] then [] else Insert(Sort(s[..|s| - 1], le), s[|s| - 1], le)
  }

  lemma {:induction false} InsertPermutes<T>(s: seq<T>, x: T, le: (T, T) -> bool)
    ensures multiset(Insert(s, x, le)) == multiset(s) + multiset{x}
  {
    if s != [] {
      var n := |s| - 1;
      assert s == s[..n] + [s[n]];
      if !le(s[n], x) { InsertPermutes(s[..n], x, le); }
    }
  }

  lemma {:induction false} SortPermutes<T>(s: seq<T>, le: (T, T) -> bool)
    ensures multiset(Sort(s, le)) == multiset(s) && |Sort(s, le)| == |s|
  {
    if s != [] {
      var n := |s| - 1;
      assert s == s[..n] + [s[n]];
      SortPermutes(s[..n], le);
      InsertPermutes(Sort(s[..n], le), s[n], le);
    }
    assert |multiset(Sort(s, le))| == |multiset(s)|;
  }

  lemma {:induction false} InsertOrders<T(!new)>(s: seq<T>, x: T, le: (T, T) -> bool)
    requires TotalPreorder(le) && Ordered(s, le)
    ensures Ordered(Insert(s, x, le), le)
    ensures forall i :: 0 <= i < |Insert(s, x, le)| ==> Insert(s, x, le)[i] == x || Insert(s, x, le)[i] in s
  {
    if s != [] {
      var n := |s| - 1;
      if le(s[n], x) {
        assert forall i :: 0 <= i < n ==> le(s[i], s[n]);
      } else {
        InsertOrders(s[..n], x, le);
      }
    }
  }

  lemma {:induction false} SortOrders<T(!new)>(s: seq<T>, le: (T, T) -> bool)
    requires TotalPreorder(le)
    ensures Ordered(Sort(s, le), le)
  {
    if s != [] {
      SortOrders(s[..|s| - 1], le);
      InsertOrders(Sort(s[..|s| - 1], le), s[|s| - 1], le);
    }
  }

  // ---------------------------------------------------------------- distinct keys

  ghost predicate Distinct<T, K>(s: seq<T>, key: T -> K) {
    forall i, j :: 0 <= i < j < |s| ==> key(s[i]) != key(s[j])
  }

  lemma {:induction false} DistinctCounts<T, K>(s: seq<T>, key: T -> K, x: T)
    requires Distinct(s, key)
    ensures multiset(s)[x] <= 1
  {
    if s != [] {
      var n := |s| - 1;
      assert s == s[..n] + [s[n]];
      DistinctCounts(s[..n], key, x);
      assert s[n] !in s[..n];
    }
  }

  lemma TwiceCounts<T>(s: seq<T>, i: nat, j: nat)
    requires i < j < |s| && s[i] == s[j]
    ensures multiset(s)[s[i]] >= 2
  {
    assert s == s[..j] + [s[j]] + s[j + 1..];
    assert s[..j][i] == s[i];
    assert s[i] in multiset(s[..j]);
  }

  /** A selection from elements with distinct keys has distinct keys. */
  lemma SelectionDistinct<T, K>(t: seq<T>, s: seq<T>, key: T -> K)
    requires Distinct(s, key) && multiset(t) <= multiset(s)
    ensures Distinct(t, key)
  {
    forall i, j | 0 <= i < j < |t| ensures key(t[i]) != key(t[j]) {
      if key(t[i]) == key(t[j]) {
        assert t[i] in multiset(t) && t[j] in multiset(t);
        assert t[i] in s && t[j] in s;
        SameKey(s, key, t[i], t[j]);
        TwiceCounts(t, i, j);
        DistinctCounts(s, key, t[i]);
      }
    }
  }

  lemma SameKey<T, K>(s: seq<T>, key: T -> K, x: T, y: T)
    requires Distinct(s, key) && x in s && y in s && key(x) == key(y)
    ensures x == y
  {
    var k :| 0 <= k < |s| && s[k] == x;
    var l :| 0 <= l < |s| && s[l] == y;
  }

  // ---------------------------------------------------------------- strict order

  ghost predicate StrictOrder<T(!new)>(less: (T, T) -> bool) {
    && (forall x :: !less(x, x))
    && (forall x, y, z :: less(x, y) && less(y, z) ==> less(x, z))
  }

  lemma FrontMembers<T(!new)>(x: seq<T>, less: (T, T) -> bool)
    requires StrictOrder(less) && Ordered(x, less) && x != []
    ensures forall e :: e in x[..|x| - 1] <==> e in x && e != x[|x| - 1]
  {
    var n := |x| - 1;
    assert x == x[..n] + [x[n]];
    forall i | 0 <= i < n ensures x[i] != x[n] {
      assert less(x[i], x[n]);
    }
  }

  lemma SameLast<T(!new)>(x: seq<T>, y: seq<T>, less: (T, T) -> bool)
    requires StrictOrder(less) && Ordered(x, less) && Ordered(y, less) && x != [] && y != []
    requires x[|x| - 1] in y && y[|y| - 1] in x
    ensures x[|x| - 1] == y[|y| - 1]
  {
    var n, m := |x| - 1, |y| - 1;
    assert forall j :: 0 <= j < m ==> less(y[j], y[m]);
    assert forall i :: 0 <= i < n ==> less(x[i], x[n]);
    var j :| 0 <= j <= m && y[j] == x[n];
    var i :| 0 <= i <= n && x[i] == y[m];
  }

  /** A strictly ordered sequence is determined by its elements. */
  lemma {:induction false} StrictUnique<T(!new)>(x: seq<T>, y: seq<T>, less: (T, T) -> bool)
    requires StrictOrder(less) && Ordered(x, less) && Ordered(y, less)
    requires forall e :: e in x <==> e in y
    ensures x == y
  {
    assert y != [] ==> y[0] in x;
    if x != [] {
      assert x[|x| - 1] in y && (y != [] ==> y[|y| - 1] in x);
      SameLast(x, y, less);
      FrontMembers(x, less);
      FrontMembers(y, less);
      var n, m := |x| - 1, |y| - 1;
      assert Ordered(x[..n], less) && Ordered(y[..m], less);
      hide Ordered, StrictOrder;
      forall e ensures e in x[..n] <==> e in y[..m] {
        assert e in x <==> e in y;
      }
      StrictUnique(x[..n], y[..m], less);
      assert x == x[..n] + [x[n]] && y == y[..m] + [y[m]];
    }
  }
}
