/** Buffers cut into blocks of equal size. */
module Blocks {
  lemma BlockInside(i: nat, n: nat, s: nat, limit: nat)
    requires i < n && n * s <= limit
    ensures i * s + s == (i + 1) * s <= limit
  {
    assert (n - (i + 1)) * s >= 0;
  }

  /** Block i of a buffer cut into blocks of s samples. */
  function Block<T>(x: seq<T>, s: nat, i: nat): (b: seq<T>)
    requires (i + 1) * s <= |x|
    ensures |b| == s
  {
    x[i * s..(i + 1) * s]
  }

  /** The first n blocks of s samples. */
  function BlocksOf<T>(x: seq<T>, s: nat, n: nat): (bs: seq<seq<T>>)
    requires n * s <= |x|
    ensures |bs| == n
  {
    if n == 0 then [] else BlockInside(n - 1, n, s, |x|); BlocksOf(x, s, n - 1) + [x[(n - 1) * s..n * s]]
  }

  lemma BlockOfPrefix<T>(a: seq<T>, b: seq<T>, m: nat, s: nat, i: nat)
    requires (i + 1) * s <= m <= |a| && m <= |b| && a[..m] == b[..m]
    ensures Block(a, s, i) == Block(b, s, i)
  {
    var lo, hi := i * s, (i + 1) * s;
    assert a[lo..hi] == a[..m][lo..hi] == b[..m][lo..hi] == b[lo..hi];
  }

  lemma BlockOfRest<T>(a: seq<T>, b: seq<T>, m: nat, s: nat, i: nat)
    requires m == i * s <= (i + 1) * s == m + s <= |a| == |b| && a[m..] == b[m..]
    ensures Block(a, s, i) == Block(b, s, i)
  {
    assert a[m..][..s] == b[m..][..s];
  }

  lemma AtMost(q: nat, s: nat, k: nat, limit: nat)
    requires q * s <= limit < (k + 1) * s
    ensures q <= k
  {
    if q > k {
      BlockInside(k, q, s, q * s);
    }
  }

  lemma WholeBlocks(samples: nat, s: nat)
    requires s > 0
    ensures samples / s * s <= samples < samples / s * s + s
  {
    assert samples == samples / s * s + samples % s;
  }
}
