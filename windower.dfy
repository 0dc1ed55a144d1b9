/**
  The windower: one fixed-length (input, target) pair per stitched sequence,
  built from the tensor operations the source composes (range, gather, slice
  and the reshapes that pin the length to n_ctx).
*/
module Windower {
  import opened Tokens

  /** An (input, target) pair; target is meant to be input shifted by one token. */
  datatype Window = Window(input: seq<int>, target: seq<int>)

  /** tf.range(lo, hi): the integers lo, lo + 1, ..., hi - 1. */
  function Range(lo: int, hi: int): (r: seq<int>)
    requires lo <= hi
    ensures |r| == hi - lo
    ensures forall j :: 0 <= j < |r| ==> r[j] == lo + j
    decreases hi - lo
  {
    if lo >= hi then [] else [lo] + Range(lo + 1, hi)
  }

  /** tf.gather on a vector: the elements at the given indices, or the first index outside x. */
  function Gather(x: seq<int>, idx: seq<int>): (r: Result<seq<int>>)
    ensures r.Ok? <==> forall j :: 0 <= j < |idx| ==> 0 <= idx[j] < |x|
    ensures r.Ok? ==> |r.value| == |idx| && forall j :: 0 <= j < |idx| ==> r.value[j] == x[idx[j]]
    ensures r.Err? ==> r.error.IndexOutOfRange? && r.error.size == |x|
  {
    if idx == [] then Ok([])
    else if !(0 <= idx[0] < |x|) then Err(IndexOutOfRange(idx[0], |x|))
    else
      match Gather(x, idx[1..])
      case Ok(rest) => Ok([x[idx[0]]] + rest)
      case Err(e) => Err(e)
  }

  /** tf.reshape to the one-dimensional shape [n]: a length assertion. */
  function Reshape(v: seq<int>, n: nat): Result<seq<int>>
  {
    if |v| == n then Ok(v) else Err(ShapeMismatch(|v|, n))
  }

  /** The slice x[lo:hi] with non-negative bounds, clamped to x as Python and TensorFlow do. */
  function Slice(x: seq<int>, lo: nat, hi: nat): (r: seq<int>)
    ensures |r| == if lo < hi && lo < |x| then Min(hi, |x|) - lo else 0
    ensures forall j :: 0 <= j < |r| ==> lo + j < |x| && r[j] == x[lo + j]
    ensures lo <= hi <= |x| ==> r == x[lo..hi]
  {
    var start := Min(lo, |x|);
    var stop := Min(hi, |x|);
    if stop <= start then [] else x[start..stop]
  }

  /**
    The n tokens of x from position lo on, as the random policy gathers them:
    the index range reshaped to [n], gathered, and the values reshaped to [n].
    Each step is checked; none fails when the indices lie inside x.
  */
  function GatherWindow(x: seq<int>, lo: int, n: nat): (r: Result<seq<int>>)
    ensures r.Ok? <==> n == 0 || (0 <= lo && lo + n <= |x|)
    ensures r.Ok? ==> |r.value| == n
    ensures r.Ok? && 0 <= lo && lo + n <= |x| ==> r.value == x[lo..lo + n]
  {
    match Reshape(Range(lo, lo + n), n)
    case Err(e) => Err(e)
    case Ok(idx) =>
      assert n > 0 ==> idx[0] == lo && idx[n - 1] == lo + n - 1;
      match Gather(x, idx)
      case Err(e) => Err(e)
      case Ok(vals) => Reshape(vals, n)
  }

  /** Every offset a uniform draw from [0, |x| - (nCtx + 1)) can return. */
  predicate OffsetInRange(x: seq<int>, nCtx: nat, r: int)
  {
    0 <= r < |x| - (nCtx + 1)
  }

  /**
    The random-offset policy for one drawn offset r. The draw fails when its
    range is empty; otherwise r is some member of the range.
  */
  function RandomWindow(x: seq<int>, nCtx: nat, r: int): (w: Result<Window>)
    requires |x| > nCtx + 1 ==> OffsetInRange(x, nCtx, r)
    ensures w.Ok? <==> |x| > nCtx + 1
    ensures w.Err? ==> w.error == EmptyOffsetRange(|x|, nCtx)
    ensures w.Ok? ==> |w.value.input| == nCtx && |w.value.target| == nCtx
    ensures w.Ok? ==> w.value.input == x[r..r + nCtx] && w.value.target == x[r + 1..r + 1 + nCtx]
    ensures w.Ok? ==> forall j :: 0 <= j < nCtx - 1 ==> w.value.target[j] == w.value.input[j + 1]
    // the largest index used is r + nCtx <= |x| - 2: the last token is never a target
    ensures w.Ok? ==> 0 <= r && r + nCtx + 1 < |x|
  {
    var maxval := |x| - (nCtx + 1);
    if maxval <= 0 then Err(EmptyOffsetRange(|x|, nCtx))
    else
      match GatherWindow(x, r, nCtx)
      case Err(e) => Err(e)
      case Ok(vals1) =>
        match GatherWindow(x, r + 1, nCtx)
        case Err(e) => Err(e)
        case Ok(vals2) => Ok(Window(vals1, vals2))
  }

  /** The deterministic left-aligned policy: x[:nCtx] and x[1:nCtx+1], each reshaped to [nCtx]. */
  function LeftWindow(x: seq<int>, nCtx: nat): (w: Result<Window>)
    ensures w.Ok? <==> nCtx == 0 || nCtx < |x|
    ensures w.Err? ==> w.error.ShapeMismatch? && w.error.want == nCtx
    ensures w.Ok? ==> |w.value.input| == nCtx && |w.value.target| == nCtx
    ensures w.Ok? && nCtx < |x| ==> w.value.input == x[..nCtx] && w.value.target == x[1..nCtx + 1]
    ensures w.Ok? ==> forall j :: 0 <= j < nCtx - 1 ==> w.value.target[j] == w.value.input[j + 1]
  {
    var vals1 :- Reshape(Slice(x, 0, nCtx), nCtx);
    var vals2 :- Reshape(Slice(x, 1, nCtx + 1), nCtx);
    Ok(Window(vals1, vals2))
  }
}
