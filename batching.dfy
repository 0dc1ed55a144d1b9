/**
  Drop-remainder batching: a stream is cut into consecutive batches of exactly
  k elements, and a trailing group of fewer than k elements is discarded.
*/
module Batching {

  /** The batches joined back into one sequence, in order. */
  function Flatten<T>(b: seq<seq<T>>): seq<T>
  {
    if b == [] then [] else b[0] + Flatten(b[1..])
  }

  /**
    The batches of k consecutive elements: |s| / k of them, each of size k,
    holding together the first (|s| / k) * k elements of s in order.
  */
  function Batch<T>(s: seq<T>, k: nat): (b: seq<seq<T>>)
    requires k > 0
    ensures |b| == |s| / k
    ensures forall i :: 0 <= i < |b| ==> |b[i]| == k
    ensures |b| * k <= |s| && Flatten(b) == s[..|b| * k]
    decreases |s|
  {
    DivStep(|s|, k);
    if |s| < k then []
    else
      var rest := Batch(s[k..], k);
      FlattenCons(s[..k], rest);
      MulSucc(|rest|, k);
      PrefixJoin(s, k, |rest| * k);
      [s[..k]] + rest
  }

  lemma FlattenCons<T>(a: seq<T>, rest: seq<seq<T>>)
    ensures Flatten([a] + rest) == a + Flatten(rest)
  {
    assert ([a] + rest)[1..] == rest;
  }

  lemma PrefixJoin<T>(s: seq<T>, k: nat, m: nat)
    requires k + m <= |s|
    ensures s[..k] + s[k..][..m] == s[..k + m]
  {
  }

  /** One batch fewer once the first k elements are taken; none when fewer than k remain. */
  lemma DivStep(n: nat, k: nat)
    requires k > 0
    ensures n < k ==> n / k == 0
    ensures n >= k ==> n / k == 1 + (n - k) / k
  {
    if n >= k {
      var q, r := (n - k) / k, (n - k) % k;
      assert n - k == q * k + r && 0 <= r < k;
      assert n == (q + 1) * k + r;
      DivUnique(n, k, q + 1, r);
    } else {
      DivUnique(n, k, 0, n);
    }
  }

  lemma DivUnique(n: nat, k: nat, q: int, r: int)
    requires k > 0 && 0 <= r < k && n == q * k + r
    ensures n / k == q
  {
    var q0, r0 := n / k, n % k;
    assert n == q0 * k + r0 && 0 <= r0 < k;
    if q0 > q {
      MulAtLeast(q0 - q, k);
    } else if q0 < q {
      MulAtLeast(q - q0, k);
    }
  }

  lemma MulAtLeast(d: int, k: nat)
    requires d >= 1
    ensures d * k >= k
  {
  }


  lemma MulSucc(n: nat, k: nat)
    ensures (n + 1) * k == k + n * k
    ensures (1 + n) * k == k + n * k
  {
  }

  /** Batch i holds the elements at positions i * k up to (i + 1) * k of the stream. */
  lemma {:induction false} BatchAt<T>(s: seq<T>, k: nat, i: nat)
    requires k > 0 && i < |s| / k
    ensures (i + 1) * k <= |s|
    ensures Batch(s, k)[i] == s[i * k..(i + 1) * k]
    decreases i
  {
    DivStep(|s|, k);
    if i > 0 {
      var a, b := (i - 1) * k, i * k;
      MulSucc(i - 1, k);
      MulSucc(i, k);
      assert b == k + a && (i + 1) * k == k + b;
      BatchAt(s[k..], k, i - 1);
      assert Batch(s, k)[i] == Batch(s[k..], k)[i - 1] == s[k..][a..b];
      SliceShift(s, k, a, b);
    }
  }

  lemma SliceShift<T>(s: seq<T>, k: nat, a: nat, b: nat)
    requires k <= |s| && a <= b <= |s| - k
    ensures s[k..][a..b] == s[k + a..k + b]
  {
  }

  /** Element j of batch b is element b * k + j of the stream. */
  lemma BatchElement<T>(s: seq<T>, k: nat, b: nat, j: nat)
    requires k > 0 && b < |s| / k && j < k
    ensures b * k + j < |s| && Batch(s, k)[b][j] == s[b * k + j]
  {
    BatchAt(s, k, b);
    MulSucc(b, k);
  }

  /** Every element of every batch is an element of the stream. */
  lemma BatchMembers<T>(s: seq<T>, k: nat)
    requires k > 0
    ensures forall b, j :: 0 <= b < |Batch(s, k)| && 0 <= j < |Batch(s, k)[b]| ==> Batch(s, k)[b][j] in s
  {
    forall b, j | 0 <= b < |Batch(s, k)| && 0 <= j < |Batch(s, k)[b]|
      ensures Batch(s, k)[b][j] in s
    {
      BatchElement(s, k, b, j);
    }
  }

  /** A stream of 10 elements in batches of 4 gives two batches; the last two elements are dropped. */
  lemma TenInBatchesOfFour<T>(s: seq<T>)
    requires |s| == 10
    ensures |Batch(s, 4)| == 2
    ensures Batch(s, 4) == [s[0..4], s[4..8]]
  {
    BatchAt(s, 4, 0);
    BatchAt(s, 4, 1);
  }
}
