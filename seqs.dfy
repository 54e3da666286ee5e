/** Order-preserving filtering and mapping of sequences (`Array.prototype.filter`
    and `.map`), with the facts the pipeline stages are proved from. */
module Seqs {
  import opened Js

  /** `a` is an order-preserving subsequence of `b`. */
  ghost predicate IsSubsequence<T>(a: seq<T>, b: seq<T>)
    decreases |b|
  {
    if a == [] then true
    else if b == [] then false
    else (a[0] == b[0] && IsSubsequence(a[1..], b[1..])) || IsSubsequence(a, b[1..])
  }

  /** `s.filter(p)`. */
  function Filter<T>(s: seq<T>, p: T -> bool): (r: seq<T>)
    ensures |r| <= |s|
    ensures forall i :: 0 <= i < |r| ==> r[i] in s && p(r[i])
    ensures forall i :: 0 <= i < |s| && p(s[i]) ==> s[i] in r
  {
    if s == [] then []
    else if p(s[0]) then [s[0]] + Filter(s[1..], p)
    else Filter(s[1..], p)
  }

  /** `s.map(f)`. */
  function MapSeq<A, B>(s: seq<A>, f: A -> B): (r: seq<B>)
    ensures |r| == |s|
    ensures forall i :: 0 <= i < |s| ==> r[i] == f(s[i])
  {
    seq(|s|, i requires 0 <= i < |s| => f(s[i]))
  }

  /** Filtering keeps elements in their order. */
  lemma {:induction false} FilterIsSubsequence<T>(s: seq<T>, p: T -> bool)
    ensures IsSubsequence(Filter(s, p), s)
  {
    if s != [] {
      FilterIsSubsequence(s[1..], p);
      if p(s[0]) {
        assert Filter(s, p)[1..] == Filter(s[1..], p);
      } else {
        SubsequenceDropHead(Filter(s, p), s);
      }
    }
  }

  lemma SubsequenceDropHead<T>(a: seq<T>, s: seq<T>)
    requires s != []
    requires IsSubsequence(a, s[1..])
    ensures IsSubsequence(a, s)
  {
  }

  /** Filtering keeps every occurrence of a kept element and no occurrence of a dropped one. */
  lemma {:induction false} FilterMultiplicity<T>(s: seq<T>, p: T -> bool, x: T)
    ensures multiset(Filter(s, p))[x] == if p(x) then multiset(s)[x] else 0
  {
    if s != [] {
      FilterMultiplicity(s[1..], p, x);
      assert s == [s[0]] + s[1..];
      assert multiset(s) == multiset([s[0]]) + multiset(s[1..]);
      if p(s[0]) {
        assert multiset(Filter(s, p)) == multiset([s[0]]) + multiset(Filter(s[1..], p));
      }
    }
  }

  lemma {:induction false} FilterAllKept<T>(s: seq<T>, p: T -> bool)
    requires forall x :: x in s ==> p(x)
    ensures Filter(s, p) == s
  {
    if s != [] {
      FilterAllKept(s[1..], p);
    }
  }

  lemma {:induction false} FilterNoneKept<T>(s: seq<T>, p: T -> bool)
    requires forall x :: x in s ==> !p(x)
    ensures Filter(s, p) == []
  {
    if s != [] {
      FilterNoneKept(s[1..], p);
    }
  }

  /** A second pass of the same filter changes nothing. */
  lemma FilterIdempotent<T>(s: seq<T>, p: T -> bool)
    ensures Filter(Filter(s, p), p) == Filter(s, p)
  {
    FilterAllKept(Filter(s, p), p);
  }

  lemma {:induction false} FilterConcat<T>(a: seq<T>, b: seq<T>, p: T -> bool)
    ensures Filter(a + b, p) == Filter(a, p) + Filter(b, p)
  {
    if a != [] {
      assert (a + b)[0] == a[0] && (a + b)[1..] == a[1..] + b;
      FilterConcat(a[1..], b, p);
      if p(a[0]) {
        assert Filter(a + b, p) == [a[0]] + Filter(a[1..] + b, p);
        assert Filter(a, p) == [a[0]] + Filter(a[1..], p);
      }
    } else {
      assert a + b == b;
    }
  }

  /** Mapping distributes over concatenation. */
  lemma MapSeqConcat<A, B>(a: seq<A>, b: seq<A>, f: A -> B)
    ensures MapSeq(a + b, f) == MapSeq(a, f) + MapSeq(b, f)
  {
    assert forall i :: 0 <= i < |a| ==> (a + b)[i] == a[i];
    assert forall i :: |a| <= i < |a| + |b| ==> (a + b)[i] == b[i - |a|];
  }

  /** Filtering by a stronger condition after a weaker one is filtering by the stronger one alone. */
  lemma {:induction false} FilterOfFilter<T>(s: seq<T>, p: T -> bool, q: T -> bool)
    requires forall x :: q(x) ==> p(x)
    ensures Filter(Filter(s, p), q) == Filter(s, q)
  {
    if s != [] {
      FilterOfFilter(s[1..], p, q);
      if p(s[0]) {
        assert Filter(s, p)[1..] == Filter(s[1..], p);
      }
    }
  }

  /** A map that leaves the kept elements alone and never lets a dropped one in
      changes nothing that the filter keeps. */
  lemma {:induction false} FilterOfMap<T>(s: seq<T>, f: T -> T, q: T -> bool)
    requires forall x :: q(x) ==> f(x) == x
    requires forall x :: !q(x) ==> !q(f(x))
    ensures Filter(MapSeq(s, f), q) == Filter(s, q)
  {
    if s != [] {
      FilterOfMap(s[1..], f, q);
      assert MapSeq(s, f)[1..] == MapSeq(s[1..], f);
    }
  }

  /** `.filter((data) => data !== null)`, unwrapping the survivors. */
  function Somes<T>(s: seq<Option<T>>): (r: seq<T>)
    ensures |r| <= |s|
    ensures forall i :: 0 <= i < |r| ==> Some(r[i]) in s
    ensures forall i :: 0 <= i < |s| && s[i].Some? ==> s[i].value in r
  {
    if s == [] then []
    else
      var rest := Somes(s[1..]);
      assert forall i :: 1 <= i < |s| ==> s[i] == s[1..][i - 1];
      if s[0].Some? then [s[0].value] + rest else rest
  }

  lemma {:induction false} SomesAllNone<T>(s: seq<Option<T>>)
    requires forall i :: 0 <= i < |s| ==> s[i].None?
    ensures Somes(s) == []
  {
    if s != [] {
      SomesAllNone(s[1..]);
    }
  }

  lemma {:induction false} SomesSubsequence<T>(a: seq<Option<T>>, b: seq<Option<T>>)
    requires IsSubsequence(a, b)
    ensures IsSubsequence(Somes(a), Somes(b))
    decreases |b|
  {
    if a == [] {
      EmptySubsequence(Somes(b));
    } else if b != [] {
      assert Somes(b) == (if b[0].Some? then [b[0].value] else []) + Somes(b[1..]);
      if a[0] == b[0] && IsSubsequence(a[1..], b[1..]) {
        SomesSubsequence(a[1..], b[1..]);
        assert Somes(a) == (if a[0].Some? then [a[0].value] else []) + Somes(a[1..]);
        if b[0].Some? {
          assert Somes(a)[1..] == Somes(a[1..]);
        } else {
          assert Somes(a) == Somes(a[1..]);
        }
      } else {
        SomesSubsequence(a, b[1..]);
        if b[0].Some? {
          SubsequenceDropHead(Somes(a), Somes(b));
        }
      }
    }
  }

  lemma {:induction false} EmptySubsequence<T>(b: seq<T>)
    ensures IsSubsequence([], b)
  {
  }

  lemma {:induction false} MapSubsequence<A, B>(a: seq<A>, b: seq<A>, f: A -> B)
    requires IsSubsequence(a, b)
    ensures IsSubsequence(MapSeq(a, f), MapSeq(b, f))
    decreases |b|
  {
    if a != [] && b != [] {
      assert MapSeq(b, f)[1..] == MapSeq(b[1..], f);
      if a[0] == b[0] && IsSubsequence(a[1..], b[1..]) {
        MapSubsequence(a[1..], b[1..], f);
        assert MapSeq(a, f)[1..] == MapSeq(a[1..], f);
      } else {
        MapSubsequence(a, b[1..], f);
        SubsequenceDropHead(MapSeq(a, f), MapSeq(b, f));
      }
    }
  }
}
