/** `Array.prototype.filter` over sequences. */
module Seqs {

  /** The elements that satisfy `p`, in their order. */
  function Filter<T>(s: seq<T>, p: T -> bool): (r: seq<T>)
    ensures |r| <= |s|
    ensures forall i :: 0 <= i < |r| ==> p(r[i])
  {
    if s == [] then []
    else (if p(s[0]) then [s[0]] else []) + Filter(s[1..], p)
  }

  /** An element is kept exactly when it occurs and satisfies `p`. */
  lemma {:induction false} FilterMembers<T>(s: seq<T>, p: T -> bool)
    ensures forall x :: x in Filter(s, p) <==> x in s && p(x)
  {
    if s != [] {
      FilterMembers(s[1..], p);
      assert s == [s[0]] + s[1..];
    }
  }

  /** Writing back the element already there changes nothing. */
  lemma UpdateSame<T>(s: seq<T>, i: nat)
    requires i < |s|
    ensures s[i := s[i]] == s
  {
  }

  /** Appending one element keeps the prefix and puts the element last. */
  lemma AppendOne<T>(s: seq<T>, x: T)
    ensures |s + [x]| == |s| + 1 && (s + [x])[..|s|] == s && (s + [x])[|s|] == x
  {
  }

  /** The last element of `a + b` and what comes before it, for a non-empty `b`. */
  lemma AppendInit<T>(a: seq<T>, b: seq<T>)
    requires b != []
    ensures (a + b)[..|a + b| - 1] == a + b[..|b| - 1] && (a + b)[|a + b| - 1] == b[|b| - 1]
  {
  }

  lemma InSlice<T>(x: T, s: seq<T>, a: nat, b: nat)
    requires a <= b <= |s| && x in s[a..b]
    ensures x in s
  {
    var k :| 0 <= k < b - a && s[a..b][k] == x;
    assert s[a + k] == x;
  }

  /** What holds of every element holds of every element kept. */
  lemma {:induction false} FilterPreserves<T>(s: seq<T>, p: T -> bool, q: T -> bool)
    requires forall k :: 0 <= k < |s| ==> q(s[k])
    ensures forall i :: 0 <= i < |Filter(s, p)| ==> q(Filter(s, p)[i])
  {
    if s != [] {
      FilterPreserves(s[1..], p, q);
      var head: seq<T> := if p(s[0]) then [s[0]] else [];
      var r := Filter(s, p);
      assert r == head + Filter(s[1..], p);
      forall i | 0 <= i < |r|
        ensures q(r[i])
      {
        if i >= |head| {
          assert r[i] == Filter(s[1..], p)[i - |head|];
        }
      }
    }
  }

  /** Filtering a sequence whose every element passes changes nothing. */
  lemma {:induction false} FilterAll<T>(s: seq<T>, p: T -> bool)
    requires forall i :: 0 <= i < |s| ==> p(s[i])
    ensures Filter(s, p) == s
  {
    if s != [] {
      FilterAll(s[1..], p);
    }
  }

  lemma {:induction false} FilterAppend<T>(a: seq<T>, b: seq<T>, p: T -> bool)
    ensures Filter(a + b, p) == Filter(a, p) + Filter(b, p)
  {
    if a == [] {
      assert a + b == b;
    } else {
      assert (a + b)[1..] == a[1..] + b;
      FilterAppend(a[1..], b, p);
    }
  }

  /** A weaker test keeps no more elements. */
  lemma {:induction false} FilterMono<T>(s: seq<T>, p: T -> bool, q: T -> bool)
    requires forall k :: 0 <= k < |s| && p(s[k]) ==> q(s[k])
    ensures |Filter(s, p)| <= |Filter(s, q)|
  {
    if s != [] {
      FilterMono(s[1..], p, q);
    }
  }

  /** `Array.prototype.map`. */
  function Map<T, U>(s: seq<T>, f: T -> U): (r: seq<U>)
    ensures |r| == |s| && forall i :: 0 <= i < |s| ==> r[i] == f(s[i])
  {
    seq(|s|, i requires 0 <= i < |s| => f(s[i]))
  }

  /** The least index in `from..n` that satisfies `ok`, or -1: what `find`, `findIndex` and a
      regular expression's leftmost match look for. */
  function FirstIndex(n: nat, from: nat, ok: nat -> bool): (i: int)
    ensures i == -1 || (from <= i < n && ok(i))
    decreases n - from
  {
    if from >= n then -1 else if ok(from) then from else FirstIndex(n, from + 1, ok)
  }

  /** No index before the one found satisfies `ok`. */
  lemma {:induction false} FirstIndexLeast(n: nat, from: nat, ok: nat -> bool)
    ensures forall k :: from <= k < n && (FirstIndex(n, from, ok) == -1 || k < FirstIndex(n, from, ok)) ==> !ok(k)
    decreases n - from
  {
    if from < n && !ok(from) {
      FirstIndexLeast(n, from + 1, ok);
    }
  }

  /** The elements kept after a map are the images that pass `p`. */
  lemma MapFilterMembers<T, U>(s: seq<T>, f: T -> U, p: U -> bool)
    ensures forall x :: x in Filter(Map(s, f), p) <==> p(x) && exists y :: y in s && x == f(y)
  {
    var m := Map(s, f);
    FilterMembers(m, p);
    forall x
      ensures x in m <==> exists y :: y in s && x == f(y)
    {
      if x in m {
        var i :| 0 <= i < |m| && m[i] == x;
        assert s[i] in s;
      }
      if exists y :: y in s && x == f(y) {
        var y :| y in s && x == f(y);
        var i :| 0 <= i < |s| && s[i] == y;
        assert m[i] == x;
      }
    }
  }
}
