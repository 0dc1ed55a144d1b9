/**
  One source's dataset: records of a "sample" datatype are grouped, stitched
  and windowed; records of any other datatype pass through unchanged; with
  batching on, the elements are cut into drop-remainder batches.
*/
module TextDataset {
  import opened Tokens
  import opened Stitcher
  import opened Windower
  import opened Batching

  /** An element of the dataset: a record as read, or an (input, target) pair. */
  datatype Element = Chunk(tokens: seq<int>) | Pair(input: seq<int>, target: seq<int>)

  /** Python's substring test `sub in s`. */
  predicate Contains(s: string, sub: string)
  {
    exists i | 0 <= i <= |s| - |sub| :: OccursAt(s, sub, i)
  }

  predicate OccursAt(s: string, sub: string, i: int)
  {
    0 <= i <= |s| - |sub| && s[i..i + |sub|] == sub
  }

  /** Datatypes containing "sample" are stitched and windowed. */
  predicate IsSampling(dataType: string)
  {
    Contains(dataType, "sample")
  }

  /** Only "random_sample" draws a random window offset. */
  predicate IsRandomSampling(dataType: string)
  {
    dataType == "random_sample"
  }

  /**
    The offset drawn for a stitched sequence x, from an arbitrary draw: a
    member of [0, |x| - (nCtx + 1)) when that range is not empty, and the draw
    itself whenever the draw lies in the range.
  */
  function OffsetFor(x: seq<int>, nCtx: nat, draw: nat): (r: int)
    ensures |x| > nCtx + 1 ==> OffsetInRange(x, nCtx, r)
    ensures OffsetInRange(x, nCtx, draw) ==> r == draw
  {
    var maxval := |x| - (nCtx + 1);
    if maxval > 0 then draw % maxval else 0
  }

  /** The window policy the datatype selects, applied to one stitched sequence. */
  function SampleText(x: seq<int>, nCtx: nat, random: bool, draw: nat): (r: Result<Window>)
    ensures r.Ok? <==> LongEnough(|x|, nCtx, random)
    ensures r.Ok? ==> |r.value.input| == nCtx && |r.value.target| == nCtx
  {
    if random then RandomWindow(x, nCtx, OffsetFor(x, nCtx, draw)) else LeftWindow(x, nCtx)
  }

  /** A group as the stitcher receives it: the dense batch and the parsed lengths. */
  function StitchGroup(group: seq<seq<int>>): (x: seq<int>)
    ensures x == Stitch(group)
  {
    DenseSegmentsAreTexts(group);
    Stitch(Segments(ToDense(group), Lengths(group)))
  }

  function AsPair(w: Window): Element
  {
    Pair(w.input, w.target)
  }

  /** The windowing map over the stitched sequences; the first failure is fatal. */
  function WindowAll(xs: seq<seq<int>>, nCtx: nat, random: bool, draws: seq<nat>): (r: Result<seq<Element>>)
    requires |draws| >= |xs|
    ensures r.Ok? <==> forall k :: 0 <= k < |xs| ==> SampleText(xs[k], nCtx, random, draws[k]).Ok?
    ensures r.Ok? ==> |r.value| == |xs|
    ensures r.Ok? ==> forall k :: 0 <= k < |xs| ==>
      var w := SampleText(xs[k], nCtx, random, draws[k]); w.Ok? && r.value[k] == AsPair(w.value)
  {
    if xs == [] then Ok([])
    else
      match SampleText(xs[0], nCtx, random, draws[0])
      case Err(e) => Err(e)
      case Ok(w) =>
        match WindowAll(xs[1..], nCtx, random, draws[1..])
        case Err(e) => Err(e)
        case Ok(rest) => Ok([AsPair(w)] + rest)
  }

  /** The stitched sequences of the consecutive groups of `stitch` records. */
  function StitchAll(records: seq<seq<int>>, stitch: nat): (xs: seq<seq<int>>)
    requires stitch > 0
    ensures |xs| == |records| / stitch
  {
    var groups := Batch(records, stitch);
    seq(|groups|, k requires 0 <= k < |groups| => StitchGroup(groups[k]))
  }

  /**
    The elements of one source before batching. The draws stand for the
    random offsets, one per stitched sequence.
  */
  function TextElements(records: seq<seq<int>>, stitch: nat, dataType: string, nCtx: nat, draws: seq<nat>)
    : (r: Result<seq<Element>>)
    requires IsSampling(dataType) ==> stitch > 0 && |draws| >= |records| / stitch
    ensures !IsSampling(dataType) ==>
      r.Ok? && |r.value| == |records| && forall i :: 0 <= i < |records| ==> r.value[i] == Chunk(records[i])
    ensures IsSampling(dataType) && r.Ok? ==> |r.value| == |records| / stitch
    ensures IsSampling(dataType) && r.Ok? ==> forall k :: 0 <= k < |r.value| ==>
      r.value[k].Pair? && |r.value[k].input| == nCtx && |r.value[k].target| == nCtx
  {
    if !IsSampling(dataType) then
      Ok(seq(|records|, i requires 0 <= i < |records| => Chunk(records[i])))
    else
      var xs := StitchAll(records, stitch);
      var r := WindowAll(xs, nCtx, IsRandomSampling(dataType), draws);
      assert r.Ok? ==> forall k :: 0 <= k < |xs| ==> SampleText(xs[k], nCtx, IsRandomSampling(dataType), draws[k]).Ok?;
      r
  }

  /** With batching on: the elements cut into drop-remainder batches of batchSize. */
  function TextBatches(records: seq<seq<int>>, stitch: nat, dataType: string, nCtx: nat, draws: seq<nat>,
                       batchSize: nat): (r: Result<seq<seq<Element>>>)
    requires IsSampling(dataType) ==> stitch > 0 && |draws| >= |records| / stitch
    requires batchSize > 0
    ensures r.Ok? <==> TextElements(records, stitch, dataType, nCtx, draws).Ok?
    ensures r.Ok? ==> forall b :: 0 <= b < |r.value| ==> |r.value[b]| == batchSize
    // the batches are the elements in order, with the trailing partial batch dropped
    ensures r.Ok? ==> var e := TextElements(records, stitch, dataType, nCtx, draws);
      && e.Ok?
      && |r.value| == |e.value| / batchSize
      && |r.value| * batchSize <= |e.value|
      && Flatten(r.value) == e.value[..|r.value| * batchSize]
    // in sampling mode every batch has the fixed shape [batchSize, nCtx]
    ensures IsSampling(dataType) && r.Ok? ==> forall b, j :: 0 <= b < |r.value| && 0 <= j < |r.value[b]| ==>
      r.value[b][j].Pair? && |r.value[b][j].input| == nCtx && |r.value[b][j].target| == nCtx
  {
    match TextElements(records, stitch, dataType, nCtx, draws)
    case Err(e) => Err(e)
    case Ok(elements) =>
      BatchMembers(elements, batchSize);
      Ok(Batch(elements, batchSize))
  }

  /**
    Element k of a sampled dataset is the selected window of the stitched
    records k * stitch up to (k + 1) * stitch.
  */
  lemma SampledElement(records: seq<seq<int>>, stitch: nat, dataType: string, nCtx: nat, draws: seq<nat>, k: nat)
    requires IsSampling(dataType) && stitch > 0 && |draws| >= |records| / stitch
    requires TextElements(records, stitch, dataType, nCtx, draws).Ok?
    requires k < |records| / stitch
    ensures (k + 1) * stitch <= |records|
    ensures var w := SampleText(Stitch(records[k * stitch..(k + 1) * stitch]), nCtx, IsRandomSampling(dataType), draws[k]);
      w.Ok? && TextElements(records, stitch, dataType, nCtx, draws).value[k] == AsPair(w.value)
  {
    var xs := StitchAll(records, stitch);
    StitchAllAt(records, stitch, k);
    assert TextElements(records, stitch, dataType, nCtx, draws) == WindowAll(xs, nCtx, IsRandomSampling(dataType), draws);
  }

  /** Stitched sequence k joins the records k * stitch up to (k + 1) * stitch. */
  lemma StitchAllAt(records: seq<seq<int>>, stitch: nat, k: nat)
    requires stitch > 0 && k < |records| / stitch
    ensures (k + 1) * stitch <= |records|
    ensures StitchAll(records, stitch)[k] == Stitch(records[k * stitch..(k + 1) * stitch])
  {
    BatchAt(records, stitch, k);
  }

  /**
    A sampled dataset fails exactly when some stitched sequence is too short
    for the selected window: at most n_ctx + 1 tokens for the random policy,
    at most n_ctx tokens (with n_ctx > 0) for the left-aligned one.
  */
  lemma SampledSucceedsIff(records: seq<seq<int>>, stitch: nat, dataType: string, nCtx: nat, draws: seq<nat>)
    requires IsSampling(dataType) && stitch > 0 && |draws| >= |records| / stitch
    ensures TextElements(records, stitch, dataType, nCtx, draws).Ok? <==>
      forall k :: 0 <= k < |records| / stitch ==>
        LongEnough(|StitchAll(records, stitch)[k]|, nCtx, IsRandomSampling(dataType))
  {
  }

  /** The length a stitched sequence needs for the selected window policy to succeed. */
  predicate LongEnough(size: nat, nCtx: nat, random: bool)
  {
    if random then size > nCtx + 1 else nCtx == 0 || size > nCtx
  }

  /**
    The tuning rule for the stitch count: if every record has at least minLen
    tokens and stitch * minLen + (stitch - 1) > n_ctx + 1, every window succeeds,
    whatever the offsets drawn.
  */
  lemma StitchTuningSuffices(records: seq<seq<int>>, stitch: nat, dataType: string, nCtx: nat, draws: seq<nat>,
                             minLen: nat)
    requires IsSampling(dataType) && stitch > 0 && |draws| >= |records| / stitch
    requires forall i :: 0 <= i < |records| ==> |records[i]| >= minLen
    requires stitch * minLen + stitch - 1 > nCtx + 1
    ensures TextElements(records, stitch, dataType, nCtx, draws).Ok?
  {
    var xs := StitchAll(records, stitch);
    var groups := Batch(records, stitch);
    BatchMembers(records, stitch);
    forall k | 0 <= k < |xs|
      ensures LongEnough(|xs[k]|, nCtx, IsRandomSampling(dataType))
    {
      var group := groups[k];
      assert xs[k] == Stitch(group);
      assert |group| == stitch;
      StitchLengthLowerBound(group, minLen);
    }
    SampledSucceedsIff(records, stitch, dataType, nCtx, draws);
  }

  /** The three datatypes of the configuration and the path each selects. */
  lemma DatatypeDispatch()
    ensures IsSampling("random_sample") && IsRandomSampling("random_sample")
    ensures IsSampling("sample") && !IsRandomSampling("sample")
    ensures !IsSampling("chunk")
  {
    assert OccursAt("random_sample", "sample", 7);
    assert OccursAt("sample", "sample", 0);
  }
}
