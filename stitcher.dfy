/**
  The stitcher: a group of records, each a dense row padded to the batch width
  together with its true length, becomes one sequence in which the records'
  tokens follow each other in group order, consecutive records separated by
  one EndOfText token.
*/
module Stitcher {
  import opened Tokens

  /** The number of tokens of the longest text: the width of the dense batch. */
  function MaxLen(texts: seq<seq<int>>): (m: nat)
    ensures forall i :: 0 <= i < |texts| ==> |texts[i]| <= m
    ensures texts == [] ==> m == 0
    ensures texts != [] ==> exists i :: 0 <= i < |texts| && |texts[i]| == m
  {
    if texts == [] then 0
    else
      var rest := MaxLen(texts[1..]);
      if |texts[0]| >= rest then |texts[0]| else rest
  }

  function Zeros(n: nat): seq<int>
  {
    seq(n, _ => 0)
  }

  /**
    Sparse-to-dense conversion of a batch of variable-length texts: row i is
    text i followed by zeros up to the width of the longest text.
  */
  function ToDense(texts: seq<seq<int>>): (x: seq<seq<int>>)
    ensures |x| == |texts|
    ensures forall i :: 0 <= i < |x| ==> |x[i]| == MaxLen(texts) && x[i][..|texts[i]|] == texts[i]
  {
    var m := MaxLen(texts);
    seq(|texts|, i requires 0 <= i < |texts| => texts[i] + Zeros(m - |texts[i]|))
  }

  /** Past the end of its text, a dense row holds only the padding value 0. */
  lemma DensePadding(texts: seq<seq<int>>, i: nat, j: nat)
    requires i < |texts| && |texts[i]| <= j < MaxLen(texts)
    ensures ToDense(texts)[i][j] == 0
  {
  }

  /** The true length the parser reports with each text. */
  function Lengths(texts: seq<seq<int>>): seq<nat>
  {
    seq(|texts|, i requires 0 <= i < |texts| => |texts[i]|)
  }

  /** The segment taken from each record: the first y[i] tokens of dense row i. */
  function Segments(x: seq<seq<int>>, y: seq<nat>): seq<seq<int>>
    requires |x| == |y|
    requires forall i :: 0 <= i < |y| ==> y[i] <= |x[i]|
  {
    seq(|x|, i requires 0 <= i < |x| => x[i][..y[i]])
  }

  /**
    The reference definition of a stitched sequence: the segments in order,
    one EndOfText token between each two consecutive ones.
  */
  function Stitch(segs: seq<seq<int>>): seq<int>
  {
    if segs == [] then []
    else if |segs| == 1 then segs[0]
    else segs[0] + [EndOfText] + Stitch(segs[1..])
  }

  /** The total number of tokens in the segments. */
  function TotalLength(segs: seq<seq<int>>): nat
  {
    if segs == [] then 0 else |segs[0]| + TotalLength(segs[1..])
  }

  /** Where segment i starts in the stitched sequence: the tokens and separators before it. */
  function Offset(segs: seq<seq<int>>, i: nat): nat
    requires i <= |segs|
  {
    TotalLength(segs[..i]) + i
  }

  /** How many EndOfText tokens the segments themselves hold. */
  function InnerSeparators(segs: seq<seq<int>>): nat
  {
    if segs == [] then 0 else multiset(segs[0])[EndOfText] + InnerSeparators(segs[1..])
  }

  /**
    The stitching loop over the dense batch x and the true lengths y: start
    from the first record's segment and, for each further record, append the
    separator and that record's segment.
  */
  method StitchText(x: seq<seq<int>>, y: seq<nat>) returns (out: seq<int>)
    requires 0 < |x| == |y|
    requires forall i :: 0 <= i < |y| ==> y[i] <= |x[i]|
    ensures out == Stitch(Segments(x, y))
  {
    ghost var segs := Segments(x, y);
    out := x[0][..y[0]];
    assert segs[..1] == [segs[0]];
    for i := 1 to |y|
      invariant out == Stitch(segs[..i])
    {
      assert segs[..i + 1] == segs[..i] + [x[i][..y[i]]];
      StitchAppend(segs[..i], x[i][..y[i]]);
      out := out + [EndOfText] + x[i][..y[i]];
    }
    assert segs[..|y|] == segs;
  }

  /** Appending one segment to a group appends a separator and that segment. */
  lemma {:induction false} StitchAppend(segs: seq<seq<int>>, t: seq<int>)
    requires |segs| > 0
    ensures Stitch(segs + [t]) == Stitch(segs) + [EndOfText] + t
  {
    if |segs| == 1 {
      assert (segs + [t])[1..] == [t];
    } else {
      assert (segs + [t])[1..] == segs[1..] + [t];
      StitchAppend(segs[1..], t);
    }
  }

  /** A stitched group of n segments has their total length plus n - 1 separators. */
  lemma {:induction false} StitchLength(segs: seq<seq<int>>)
    requires |segs| > 0
    ensures |Stitch(segs)| == TotalLength(segs) + |segs| - 1
  {
    if |segs| > 1 {
      StitchLength(segs[1..]);
    }
  }

  /**
    Segment i occupies the positions from Offset(segs, i) on, in group order,
    and a separator follows it unless it is the last one.
  */
  lemma {:induction false} StitchSegmentAt(segs: seq<seq<int>>, i: nat)
    requires i < |segs|
    ensures Offset(segs, i) + |segs[i]| <= |Stitch(segs)|
    ensures i + 1 < |segs| ==> Offset(segs, i) + |segs[i]| < |Stitch(segs)|
    ensures Stitch(segs)[Offset(segs, i)..Offset(segs, i) + |segs[i]|] == segs[i]
    ensures i + 1 < |segs| ==> Stitch(segs)[Offset(segs, i) + |segs[i]|] == EndOfText
    ensures i + 1 < |segs| ==> Offset(segs, i + 1) == Offset(segs, i) + |segs[i]| + 1
  {
    OffsetStep(segs, i);
    if i == 0 {
      assert segs[..0] == [];
    } else {
      var rest := segs[1..];
      var head := segs[0] + [EndOfText];
      assert Stitch(segs) == head + Stitch(rest);
      StitchSegmentAt(rest, i - 1);
      OffsetShift(segs, i);
      if i + 1 < |segs| {
        OffsetShift(segs, i + 1);
      }
      var o := Offset(rest, i - 1);
      assert Stitch(segs)[|head| + o..|head| + o + |segs[i]|] == Stitch(rest)[o..o + |segs[i]|];
    }
  }

  /** The offset of segment i + 1 comes one separator after segment i. */
  lemma OffsetStep(segs: seq<seq<int>>, i: nat)
    requires i < |segs|
    ensures Offset(segs, i + 1) == Offset(segs, i) + |segs[i]| + 1
  {
    TotalLengthAppend(segs[..i], segs[i]);
    assert segs[..i + 1] == segs[..i] + [segs[i]];
  }

  /** Offsets in the whole group are the offsets in its tail shifted past the first segment. */
  lemma OffsetShift(segs: seq<seq<int>>, i: nat)
    requires 0 < i <= |segs|
    ensures Offset(segs, i) == |segs[0]| + 1 + Offset(segs[1..], i - 1)
  {
    assert segs[..i][1..] == segs[1..][..i - 1];
  }

  lemma {:induction false} TotalLengthAppend(segs: seq<seq<int>>, t: seq<int>)
    ensures TotalLength(segs + [t]) == TotalLength(segs) + |t|
  {
    if segs != [] {
      assert (segs + [t])[1..] == segs[1..] + [t];
      TotalLengthAppend(segs[1..], t);
    }
  }

  /**
    A stitched group of n segments holds exactly n - 1 more EndOfText tokens
    than its segments do; so exactly n - 1 when no record contains one.
  */
  lemma {:induction false} StitchSeparatorCount(segs: seq<seq<int>>)
    requires |segs| > 0
    ensures multiset(Stitch(segs))[EndOfText] == |segs| - 1 + InnerSeparators(segs)
    ensures (forall i :: 0 <= i < |segs| ==> EndOfText !in segs[i]) ==>
      multiset(Stitch(segs))[EndOfText] == |segs| - 1
  {
    if |segs| > 1 {
      StitchSeparatorCount(segs[1..]);
    }
    if forall i :: 0 <= i < |segs| ==> EndOfText !in segs[i] {
      NoInnerSeparators(segs);
    }
  }

  lemma {:induction false} NoInnerSeparators(segs: seq<seq<int>>)
    requires forall i :: 0 <= i < |segs| ==> EndOfText !in segs[i]
    ensures InnerSeparators(segs) == 0
  {
    if segs != [] {
      NoInnerSeparators(segs[1..]);
    }
  }

  /**
    With the lengths the parser reports, the segments cut from the dense batch
    are the records' texts, so stitching them stitches the records.
  */
  lemma DenseSegmentsAreTexts(texts: seq<seq<int>>)
    ensures Segments(ToDense(texts), Lengths(texts)) == texts
  {
  }

  /** If every record has at least m tokens, a group of n of them stitches to at least n * m + n - 1 tokens. */
  lemma {:induction false} StitchLengthLowerBound(segs: seq<seq<int>>, m: nat)
    requires |segs| > 0
    requires forall i :: 0 <= i < |segs| ==> |segs[i]| >= m
    ensures |Stitch(segs)| >= |segs| * m + |segs| - 1
  {
    StitchLength(segs);
    TotalLengthLowerBound(segs, m);
  }

  lemma {:induction false} TotalLengthLowerBound(segs: seq<seq<int>>, m: nat)
    requires forall i :: 0 <= i < |segs| ==> |segs[i]| >= m
    ensures TotalLength(segs) >= |segs| * m
  {
    if segs != [] {
      TotalLengthLowerBound(segs[1..], m);
      assert |segs| * m == m + (|segs| - 1) * m;
    }
  }
}
