/**
 * List<T> operations used throughout the model: Remove (first occurrence),
 * IndexOf, Insert and an adjacent swap, over immutable sequences.
 */
module Seqs {

  predicate Distinct<T(==)>(s: seq<T>)
  {
    forall i, j :: 0 <= i < j < |s| ==> s[i] != s[j]
  }

  /** List<T>.IndexOf: the first position holding x, or -1. */
  function IndexOf<T(==)>(s: seq<T>, x: T): (i: int)
    ensures -1 <= i < |s|
    ensures i == -1 <==> x !in s
    ensures 0 <= i ==> s[i] == x && x !in s[..i]
  {
    if |s| == 0 then -1
    else if s[0] == x then 0
    else
      var k := IndexOf(s[1..], x);
      if k == -1 then -1 else k + 1
  }

  /** List<T>.Remove: drops the first occurrence of x, if any. */
  function RemoveFirst<T(==)>(s: seq<T>, x: T): (r: seq<T>)
    ensures x !in s ==> r == s
    ensures x in s ==> |r| == |s| - 1
    ensures multiset(r) == multiset(s) - multiset{x}
  {
    if |s| == 0 then s
    else if s[0] == x then
      assert s == [s[0]] + s[1..];
      s[1..]
    else
      assert s == [s[0]] + s[1..];
      [s[0]] + RemoveFirst(s[1..], x)
  }

  /** Remove cuts exactly the position IndexOf finds: what precedes and what follows keep their order. */
  lemma {:induction false} RemoveFirstSplits<T>(s: seq<T>, x: T)
    requires x in s
    ensures RemoveFirst(s, x) == s[..IndexOf(s, x)] + s[IndexOf(s, x) + 1..]
  {
    if s[0] != x {
      var t := s[1..];
      PastHead(s, x);
      RemoveFirstSplits(t, x);
      CutBehindHead(s, IndexOf(t, x));
    } else {
      assert s[..0] + s[1..] == s[1..];
    }
  }

  /** Past a head other than x, IndexOf and Remove both work on the tail. */
  lemma PastHead<T>(s: seq<T>, x: T)
    requires x in s && s[0] != x
    ensures x in s[1..]
    ensures IndexOf(s, x) == IndexOf(s[1..], x) + 1
    ensures RemoveFirst(s, x) == [s[0]] + RemoveFirst(s[1..], x)
  {
    assert s == [s[0]] + s[1..];
  }

  /** Cutting position k out of the tail, then putting the head back, cuts position k + 1 out of the list. */
  lemma CutBehindHead<T>(s: seq<T>, k: nat)
    requires k + 1 < |s|
    ensures [s[0]] + (s[1..][..k] + s[1..][k + 1..]) == s[..k + 1] + s[k + 2..]
  {
    assert s[..k + 1] == [s[0]] + s[1..][..k];
    assert s[k + 2..] == s[1..][k + 1..];
  }

  /** A position holding x with no x before it is where IndexOf finds x. */
  lemma {:induction false} IndexOfFirst<T>(s: seq<T>, x: T, p: nat)
    requires p < |s| && s[p] == x && x !in s[..p]
    ensures IndexOf(s, x) == p
  {
    if p > 0 {
      var t := s[1..];
      assert s[..p] == [s[0]] + t[..p - 1];
      IndexOfFirst(t, x, p - 1);
    }
  }

  lemma AppendAssoc<T>(a: seq<T>, b: seq<T>, c: seq<T>)
    ensures (a + b) + c == a + (b + c)
  {
  }

  /** A list is its part before p followed by its part from p. */
  lemma SplitJoin<T>(s: seq<T>, p: nat)
    requires p <= |s|
    ensures s[..p] + s[p..] == s
  {
    assert s == s[..p] + s[p..];
  }

  /** Position i of a list with position k cut out holds the old element, shifted past k. */
  lemma CutIndex<T>(s: seq<T>, k: nat, i: nat)
    requires k < |s| && i + 1 < |s|
    ensures (s[..k] + s[k + 1..])[i] == s[if i < k then i else i + 1]
  {
  }

  /** On a list without repetitions, Remove takes x out entirely and keeps everything else. */
  lemma RemoveFirstDistinct<T>(s: seq<T>, x: T)
    requires Distinct(s)
    ensures Distinct(RemoveFirst(s, x))
    ensures x !in RemoveFirst(s, x)
    ensures forall y :: y in RemoveFirst(s, x) <==> y in s && y != x
  {
    var r := RemoveFirst(s, x);
    forall y
      ensures y in r <==> y in s && y != x
    {
      assert y in r <==> y in multiset(r);
      assert y in s <==> y in multiset(s);
      assert multiset(s)[x] <= 1 by { DistinctCount(s, x); }
    }
    assert x !in r by {
      assert multiset(s)[x] <= 1 by { DistinctCount(s, x); }
      assert x in r <==> x in multiset(r);
    }
    RemovePreservesDistinct(s, x);
  }

  /** The tail of a list without repetitions has none either, and does not hold the head. */
  lemma TailDistinct<T>(s: seq<T>)
    requires |s| > 0 && Distinct(s)
    ensures Distinct(s[1..]) && s[0] !in s[1..]
  {
    var t := s[1..];
    forall i, j | 0 <= i < j < |t| ensures t[i] != t[j] {
      assert t[i] == s[i + 1] && t[j] == s[j + 1];
    }
    forall k | 0 <= k < |t| ensures t[k] != s[0] {
      assert t[k] == s[k + 1];
    }
  }

  /** A new head that the list does not hold keeps it free of repetitions. */
  lemma ConsDistinct<T>(x: T, t: seq<T>)
    requires Distinct(t) && x !in t
    ensures Distinct([x] + t)
  {
    var r := [x] + t;
    forall i, j | 0 <= i < j < |r| ensures r[i] != r[j] {
      assert r[j] == t[j - 1];
      if i > 0 {
        assert r[i] == t[i - 1];
      }
    }
  }

  /** Remove only drops elements. */
  lemma RemoveFirstIn<T>(s: seq<T>, x: T, y: T)
    requires y in RemoveFirst(s, x)
    ensures y in s
  {
    var r := RemoveFirst(s, x);
    assert multiset(r)[y] > 0;
    assert multiset(s)[y] > 0;
  }

  lemma {:induction false} DistinctCount<T>(s: seq<T>, x: T)
    requires Distinct(s)
    ensures multiset(s)[x] <= 1
  {
    if |s| > 0 {
      assert s == [s[0]] + s[1..];
      TailDistinct(s);
      DistinctCount(s[1..], x);
      if s[0] == x {
        assert multiset(s[1..])[x] == 0;
      }
    }
  }

  lemma {:induction false} RemovePreservesDistinct<T>(s: seq<T>, x: T)
    requires Distinct(s)
    ensures Distinct(RemoveFirst(s, x))
  {
    if |s| > 0 {
      TailDistinct(s);
      var t := s[1..];
      if s[0] != x {
        RemovePreservesDistinct(t, x);
        var rt := RemoveFirst(t, x);
        assert RemoveFirst(s, x) == [s[0]] + rt;
        if s[0] in rt {
          RemoveFirstIn(t, x, s[0]);
        }
        ConsDistinct(s[0], rt);
      }
    }
  }

  /** A concatenation with a non-empty left part starts with its head. */
  lemma ConsSplit<T>(pre: seq<T>, s: seq<T>)
    requires |pre| > 0
    ensures (pre + s)[0] == pre[0] && (pre + s)[1..] == pre[1..] + s
    ensures pre + s == [pre[0]] + (pre[1..] + s)
  {
    assert pre == [pre[0]] + pre[1..];
  }

  /** Moving the head of the right part onto the left part keeps the concatenation. */
  lemma ShiftHead<T>(pre: seq<T>, s: seq<T>)
    requires |s| > 0
    ensures pre + s == (pre + [s[0]]) + s[1..]
  {
    assert s == [s[0]] + s[1..];
  }

  /** Remove skips a prefix that does not hold x. */
  lemma {:induction false} RemoveFirstBehind<T>(pre: seq<T>, s: seq<T>, x: T)
    requires x !in pre
    ensures RemoveFirst(pre + s, x) == pre + RemoveFirst(s, x)
    decreases |pre|
  {
    if |pre| > 0 {
      var rest := pre[1..];
      assert x !in rest by {
        forall k | 0 <= k < |rest| ensures rest[k] != x { assert rest[k] == pre[k + 1]; }
      }
      RemoveFirstBehind(rest, s, x);
      ConsSplit(pre, s);
      ConsSplit(pre, RemoveFirst(s, x));
      assert RemoveFirst(pre + s, x) == [pre[0]] + RemoveFirst(rest + s, x);
    } else {
      assert pre + s == s;
    }
  }

  /** Exchange the elements at positions i and j. */
  function Swap<T>(s: seq<T>, i: nat, j: nat): (r: seq<T>)
    requires i < |s| && j < |s|
    ensures |r| == |s|
    ensures r[i] == s[j] && r[j] == s[i]
    ensures forall k :: 0 <= k < |s| && k != i && k != j ==> r[k] == s[k]
    ensures multiset(r) == multiset(s)
  {
    var t := s[i := s[j]][j := s[i]];
    SwapIsPermutation(s, i, j);
    t
  }

  /** Exchanging two positions keeps a list free of repetitions. */
  lemma SwapDistinct<T>(s: seq<T>, i: nat, j: nat)
    requires i < |s| && j < |s| && Distinct(s)
    ensures Distinct(Swap(s, i, j))
  {
    var r := Swap(s, i, j);
    forall a, b | 0 <= a < b < |r| ensures r[a] != r[b] {
      var a' := if a == i then j else if a == j then i else a;
      var b' := if b == i then j else if b == j then i else b;
      assert r[a] == s[a'] && r[b] == s[b'] && a' != b';
      if a' > b' {
        assert s[b'] != s[a'];
      }
    }
  }

  lemma SwapIsPermutation<T>(s: seq<T>, i: nat, j: nat)
    requires i < |s| && j < |s|
    ensures multiset(s[i := s[j]][j := s[i]]) == multiset(s)
  {
    var t := s[i := s[j]];
    assert multiset(t) == multiset(s) - multiset{s[i]} + multiset{s[j]};
    assert multiset(t[j := s[i]]) == multiset(t) - multiset{t[j]} + multiset{s[i]};
  }

  /** List<T>.Insert(index, x): index must lie in [0, Count], otherwise .NET throws. */
  function InsertAt<T>(s: seq<T>, i: nat, x: T): (r: seq<T>)
    requires i <= |s|
    ensures |r| == |s| + 1 && r[i] == x
    ensures r[..i] == s[..i] && r[i + 1..] == s[i..]
  {
    s[..i] + [x] + s[i..]
  }
}
