/** Order-preserving selection over sequences: the `Array.prototype.filter` every
    list in the board is built with, and the `filter(...).length` counts. */
module Sequences {

  /** The elements of `s` satisfying `p`, in their original order. */
  function Filter<T>(p: T -> bool, s: seq<T>): (r: seq<T>)
    ensures |r| <= |s|
    ensures forall i :: 0 <= i < |r| ==> r[i] in s && p(r[i])
    ensures forall i :: 0 <= i < |s| && p(s[i]) ==> s[i] in r
    decreases |s|
  {
    if s == [] then []
    else if p(s[0]) then [s[0]] + Filter(p, s[1..])
    else Filter(p, s[1..])
  }

  /** Filtering a concatenation filters each part and keeps them in order. */
  lemma {:induction false} FilterAppend<T>(p: T -> bool, a: seq<T>, b: seq<T>)
    ensures Filter(p, a + b) == Filter(p, a) + Filter(p, b)
    decreases |a|
  {
    if a == [] {
      assert a + b == b;
    } else {
      assert (a + b)[0] == a[0];
      assert (a + b)[1..] == a[1..] + b;
      FilterAppend(p, a[1..], b);
    }
  }

  /** A predicate every element satisfies keeps the whole sequence. */
  lemma {:induction false} FilterKeepsAll<T>(p: T -> bool, s: seq<T>)
    requires forall i :: 0 <= i < |s| ==> p(s[i])
    ensures Filter(p, s) == s
    decreases |s|
  {
    if s != [] {
      assert p(s[0]);
      FilterKeepsAll(p, s[1..]);
    }
  }

  /** Filtering by `p` and then by `q` keeps what a single filter by their conjunction keeps. */
  lemma {:induction false} FilterOfFilter<T>(p: T -> bool, q: T -> bool, c: T -> bool, s: seq<T>)
    requires forall x :: c(x) == (p(x) && q(x))
    ensures Filter(q, Filter(p, s)) == Filter(c, s)
    decreases |s|
  {
    if s != [] {
      FilterOfFilter(p, q, c, s[1..]);
    }
  }

  /** Filtering twice with the same predicate changes nothing the second time. */
  lemma FilterIdempotent<T>(p: T -> bool, s: seq<T>)
    ensures Filter(p, Filter(p, s)) == Filter(p, s)
  {
    FilterKeepsAll(p, Filter(p, s));
  }

  /** The elements kept and the elements dropped add up to the whole sequence. */
  lemma {:induction false} FilterComplement<T>(p: T -> bool, s: seq<T>)
    ensures |Filter(p, s)| + |Filter(x => !p(x), s)| == |s|
    decreases |s|
  {
    if s != [] {
      FilterComplement(p, s[1..]);
    }
  }

  /** Two predicates that never hold together count at most the whole sequence. */
  lemma {:induction false} DisjointCounts<T>(p: T -> bool, q: T -> bool, s: seq<T>)
    requires forall i :: 0 <= i < |s| ==> !(p(s[i]) && q(s[i]))
    ensures |Filter(p, s)| + |Filter(q, s)| <= |s|
    decreases |s|
  {
    if s != [] {
      DisjointCounts(p, q, s[1..]);
    }
  }

  /** Each element of `s` mapped through `f`, in order. */
  function Map<A, B>(f: A -> B, s: seq<A>): (r: seq<B>)
    ensures |r| == |s| && forall i :: 0 <= i < |s| ==> r[i] == f(s[i])
  {
    seq(|s|, i requires 0 <= i < |s| => f(s[i]))
  }

  /** Mapping a concatenation maps each part. */
  lemma MapAppend<A, B>(f: A -> B, a: seq<A>, b: seq<A>)
    ensures Map(f, a + b) == Map(f, a) + Map(f, b)
  {
  }

  /** The number of occurrences of `k` in `s`. */
  function Count<K(==)>(s: seq<K>, k: K): nat
    decreases |s|
  {
    if s == [] then 0 else (if s[0] == k then 1 else 0) + Count(s[1..], k)
  }

  /** `s.filter(x => x === k).length` is the count of `k`. */
  lemma {:induction false} CountIsFilterLength<K>(s: seq<K>, k: K)
    ensures Count(s, k) == |Filter((x: K) => x == k, s)|
    decreases |s|
  {
    if s != [] {
      CountIsFilterLength(s[1..], k);
    }
  }

  /** A value occurs in `s` exactly when its count is positive. */
  lemma {:induction false} CountPositiveIffPresent<K>(s: seq<K>, k: K)
    ensures Count(s, k) > 0 <==> k in s
    decreases |s|
  {
    if s != [] {
      CountPositiveIffPresent(s[1..], k);
      assert k in s <==> s[0] == k || k in s[1..];
    }
  }

  /** Appending one element adds one to its own count and nothing to any other. */
  lemma {:induction false} CountSnoc<K>(s: seq<K>, x: K, k: K)
    ensures Count(s + [x], k) == Count(s, k) + (if x == k then 1 else 0)
    decreases |s|
  {
    if s == [] {
      assert [x][1..] == [];
    } else {
      assert (s + [x])[1..] == s[1..] + [x];
      CountSnoc(s[1..], x, k);
    }
  }

  /** The counts of three distinct values and the count of everything else add up to |s|. */
  lemma {:induction false} CountThree<K>(s: seq<K>, a: K, b: K, c: K)
    requires a != b && a != c && b != c
    ensures Count(s, a) + Count(s, b) + Count(s, c) + |Filter((x: K) => x != a && x != b && x != c, s)| == |s|
    decreases |s|
  {
    if s != [] {
      CountThree(s[1..], a, b, c);
    }
  }

  /** The counts of four distinct values and the count of everything else add up to |s|. */
  lemma {:induction false} CountFour<K>(s: seq<K>, a: K, b: K, c: K, d: K)
    requires a != b && a != c && a != d && b != c && b != d && c != d
    ensures Count(s, a) + Count(s, b) + Count(s, c) + Count(s, d)
          + |Filter((x: K) => x != a && x != b && x != c && x != d, s)| == |s|
    decreases |s|
  {
    if s != [] {
      CountFour(s[1..], a, b, c, d);
    }
  }
}
