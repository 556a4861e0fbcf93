/** `Array.prototype.filter` and what the pages rely on when they use it:
    the result keeps exactly the elements that pass, in their original order. */
module Seqs {
  import opened Wrappers

  /** `a` can be obtained from `b` by deleting elements (order preserved). */
  ghost predicate Subsequence<T>(a: seq<T>, b: seq<T>)
    decreases |b|
  {
    a == [] || (b != [] && ((a[0] == b[0] && Subsequence(a[1..], b[1..])) || Subsequence(a, b[1..])))
  }

  /** `s.filter(p)`. */
  function Filter<T>(s: seq<T>, p: T -> bool): (r: seq<T>)
    ensures |r| <= |s|
    ensures forall i :: 0 <= i < |r| ==> r[i] in s && p(r[i])
    ensures forall i :: 0 <= i < |s| && p(s[i]) ==> s[i] in r
  {
    if s == [] then [] else (if p(s[0]) then [s[0]] else []) + Filter(s[1..], p)
  }

  /** An element is kept exactly when it is in the input and passes. */
  lemma FilterMember<T>(s: seq<T>, p: T -> bool, x: T)
    ensures x in Filter(s, p) <==> x in s && p(x)
  {
    var r := Filter(s, p);
    if x in r {
      var i :| 0 <= i < |r| && r[i] == x;
    }
    if x in s && p(x) {
      var i :| 0 <= i < |s| && s[i] == x;
    }
  }

  /** The filtered sequence is an order-preserving subsequence of the input. */
  lemma {:induction false} FilterIsSubsequence<T>(s: seq<T>, p: T -> bool)
    ensures Subsequence(Filter(s, p), s)
  {
    if s != [] {
      FilterIsSubsequence(s[1..], p);
      var r := Filter(s, p);
      if p(s[0]) {
        assert r == [s[0]] + Filter(s[1..], p);
        assert r[0] == s[0] && r[1..] == Filter(s[1..], p);
      } else {
        assert r == Filter(s[1..], p);
      }
    }
  }

  /** When every element passes, nothing is dropped. */
  lemma {:induction false} FilterAllPass<T>(s: seq<T>, p: T -> bool)
    requires forall i :: 0 <= i < |s| ==> p(s[i])
    ensures Filter(s, p) == s
  {
    if s != [] {
      FilterAllPass(s[1..], p);
    }
  }

  /** Filtering splits the input: what `p` keeps and what it drops add up to all of it. */
  lemma {:induction false} FilterComplement<T>(s: seq<T>, p: T -> bool, q: T -> bool)
    requires forall i :: 0 <= i < |s| ==> (q(s[i]) <==> !p(s[i]))
    ensures |Filter(s, p)| + |Filter(s, q)| == |s|
  {
    if s != [] {
      FilterComplement(s[1..], p, q);
    }
  }

  /** Two predicates that no element satisfies together keep, between them,
      as many elements as their disjunction. */
  lemma {:induction false} FilterDisjointUnion<T>(s: seq<T>, p: T -> bool, q: T -> bool, pq: T -> bool)
    requires forall i :: 0 <= i < |s| ==> !(p(s[i]) && q(s[i]))
    requires forall i :: 0 <= i < |s| ==> (pq(s[i]) <==> p(s[i]) || q(s[i]))
    ensures |Filter(s, p)| + |Filter(s, q)| == |Filter(s, pq)|
  {
    if s != [] {
      FilterDisjointUnion(s[1..], p, q, pq);
    }
  }

  /** The values of the present entries of `s`, in order: the result of pushing
      each present entry's value onto an initially empty array. */
  function Present<T>(s: seq<Option<T>>): (r: seq<T>)
    ensures |r| <= |s|
  {
    if s == [] then [] else Present(s[..|s| - 1]) + (if s[|s| - 1].Some? then [s[|s| - 1].value] else [])
  }

  /** How many entries of `s` are present. */
  function PresentCount<T>(s: seq<Option<T>>): nat
  {
    if s == [] then 0 else PresentCount(s[..|s| - 1]) + (if s[|s| - 1].Some? then 1 else 0)
  }

  /** One element per present entry. */
  lemma {:induction false} PresentLength<T>(s: seq<Option<T>>)
    ensures |Present(s)| == PresentCount(s)
  {
    if s != [] {
      PresentLength(s[..|s| - 1]);
    }
  }

  /** A present entry `s[k]` appears in `Present(s)` at the index given by the
      number of present entries before it. */
  lemma {:induction false} PresentAt<T>(s: seq<Option<T>>, k: nat)
    requires k < |s| && s[k].Some?
    ensures PresentCount(s[..k]) < |Present(s)|
    ensures Present(s)[PresentCount(s[..k])] == s[k].value
  {
    var n := |s| - 1;
    assert s[..n + 1] == s;
    PresentLength(s[..k]);
    if k == n {
      assert s[..n] == s[..k];
      PresentLength(s);
    } else {
      assert s[..n][..k] == s[..k];
      PresentAt(s[..n], k);
    }
  }

  /** Counting present entries over a longer prefix never gives less, and
      strictly more once a present entry is passed. */
  lemma {:induction false} PresentCountGrows<T>(s: seq<Option<T>>, j: nat, k: nat)
    requires j < k <= |s| && s[j].Some?
    ensures PresentCount(s[..j]) < PresentCount(s[..k])
    decreases k - j
  {
    if k == j + 1 {
      assert s[..k][..j] == s[..j];
    } else {
      PresentCountGrows(s, j, k - 1);
      assert s[..k][..k - 1] == s[..k - 1];
    }
  }

  /** Present entries keep their relative order. */
  lemma PresentOrder<T>(s: seq<Option<T>>, j: nat, k: nat)
    requires j < k < |s| && s[j].Some? && s[k].Some?
    ensures PresentCount(s[..j]) < PresentCount(s[..k]) < |Present(s)|
    ensures Present(s)[PresentCount(s[..j])] == s[j].value
    ensures Present(s)[PresentCount(s[..k])] == s[k].value
  {
    PresentAt(s, j);
    PresentAt(s, k);
    PresentCountGrows(s, j, k);
  }
}
