# GPT-Neo input pipeline: stitching, windowing and batching

This project models how the training input pipeline of `inputs.py` shapes token
data. The TensorFlow plumbing around it is set aside. The model covers:

- the **stitcher**. It takes a group of `stitch` records, already made dense
  and padded to the width of the longest record, with each record's true
  length. It joins the first `y[i]` tokens of each record in group order and
  puts the end-of-text token `50256` between consecutive records;
- the **windower**. It cuts one `(input, target)` pair of `n_ctx` tokens from a
  stitched sequence. Under `random_sample` it starts at an offset drawn from
  `[0, size - (n_ctx + 1))`. Under any other sampling datatype it takes the
  left-aligned window `x[:n_ctx]`, `x[1:n_ctx + 1]`;
- the **datatype dispatch** of `text_dataset`. A datatype that contains
  `"sample"` is grouped, stitched and windowed. Records of any other datatype
  (`"chunk"`) pass through unchanged;
- **drop-remainder batching** into batches of exactly `k` elements;
- the **inference input builder** of `gpt2_pred_input`. It truncates the
  prompt to 1024 tokens and repeats it into `batch_size` rows.

Files:

- `tokens.dfy` has the boundary token, the error values and `Result`.
- `stitcher.dfy` has the sparse-to-dense step (`ToDense`) and the stitching
  loop (`StitchText`). The loop runs on the dense batch and is proved against
  the reference function `Stitch`.
- `windower.dfy` has both window policies. They are built from models of
  `tf.range`, `tf.gather`, slicing and `tf.reshape`.
- `batching.dfy` has `Batch`.
- `text_dataset.dfy` has the dispatch and the composed dataset of one source.
- `inference.dfy` has `PredInput`.

The failures that valid calls can reach are modelled as `Err` values, not as
preconditions. There are three of them:

- a uniform draw whose range is empty;
- a reshape to `[n_ctx]` of a tensor with a different number of elements;
- a gather outside the tensor.

Two TensorFlow errors are preconditions instead: a descending `tf.range`
(`Range` requires `lo <= hi`), and a group or batch size of zero (`Batch`,
`StitchAll`, `TextElements` and `TextBatches` require a positive size). The
pipeline's calls never reach either error; both are listed under "Left out".

The random offset is a parameter. The model does not draw it.
`RandomWindow` takes an offset `r` that must lie in the drawn range whenever
that range is not empty. The dataset level takes a sequence of draws, one per
stitched sequence. Each draw is reduced into the range, and every offset in
the range comes from the draw equal to it.

`LeftWindow` is a function of `x` and `n_ctx` alone, so repeated calls on
the same stitched sequence give the same pair.

Two consequences of the code as written are stated in the two window
contracts:

- The window fails when the stitched sequence has exactly `n_ctx + 1`
  tokens, because the offset range `[0, 0)` is empty. The left-aligned window
  succeeds on that sequence.
- The random window never uses the last token: every index it uses is at
  most `|x| - 2`. The left-aligned window does use it when the sequence has
  exactly `n_ctx + 1` tokens.

## Model

| member | source | states |
|---|---|---|
| `Stitcher.StitchText` | inputs.py:49-57 | The loop over the dense batch `x` and the lengths `y` returns `Stitch` of the segments `x[i][..y[i]]`. Each step appends a separator and the next record's segment. |
| `Stitcher.StitchAppend` | inputs.py:55 | Appending one segment to a group appends `50256` followed by that segment. This is the step the loop takes. |
| `Stitcher.StitchLength` | inputs.py:53-55 | A stitched group of `n` segments has length `y[0] + ... + y[n-1] + (n - 1)`. |
| `Stitcher.StitchSegmentAt` | inputs.py:50-55 | Segment `i` sits, unchanged and in group order, at the offset given by the tokens and separators before it. A `50256` sits right after it unless it is the last segment. The next segment starts one position later. |
| `Stitcher.StitchSeparatorCount` | inputs.py:55 | The stitched sequence holds exactly `n - 1` more `50256` tokens than its records do. So it holds exactly `n - 1` when no record contains one. |
| `Stitcher.DenseSegmentsAreTexts` | inputs.py:48-51 | Pad the records to dense rows, then cut each row back to the length the parser reports: the result is the records' own texts. |
| `Stitcher.Segments` | inputs.py:50-51 | The gather of `tf.range(y[i])` from dense row `i`, the first `y[i]` tokens of that row. It carries no contract of its own: `DenseSegmentsAreTexts` states that on a parsed batch these segments are the records, and `StitchText` states how they are joined. |
| `Stitcher.Lengths` | inputs.py:31 | The length the parser reports with each record, its dense shape. It carries no contract of its own: `DenseSegmentsAreTexts` states that cutting the dense rows to these lengths gives back the records. |
| `Stitcher.StitchLengthLowerBound` | inputs.py:44-46 | If every record has at least `m` tokens, a group of `n` records stitches to at least `n * m + n - 1` tokens. |
| `Stitcher.ToDense` | inputs.py:48 | Each dense row has the width of the longest record and starts with that record's text. |
| `Stitcher.DensePadding` | inputs.py:48 | Past the end of its record's text, a dense row holds only zeros. |
| `Stitcher.MaxLen` | inputs.py:48 | The dense width is at least every record's length and equals one of them. |
| `Windower.Range` | inputs.py:67-68 | For `lo <= hi`, `tf.range(lo, hi)` yields `hi - lo` integers. Element `j` is `lo + j`. |
| `Windower.Gather` | inputs.py:71-72 | Gather succeeds exactly when every index lies inside `x`. It then gives `x[idx[j]]` at each position. Otherwise it fails with an out-of-range error. |
| `Windower.Reshape` | inputs.py:69-84 | `tf.reshape` to `[n_ctx]` as a length assertion. It carries no contract of its own: `GatherWindow` (indices and gathered values) and `LeftWindow` (the two slices) state when it fails and that it otherwise passes the values through. |
| `Windower.Slice` | inputs.py:80-81 | The Python slice `x[lo:hi]` clamped to `x`: its length is `min(hi, |x|) - lo` when `lo < hi` and `lo < |x|`, and 0 otherwise. Element `j` is `x[lo + j]`. Inside `x` it is `x[lo..hi]`. |
| `Windower.GatherWindow` | inputs.py:67-75 | Reshaping the index range, gathering and reshaping the values succeeds exactly when the `n` indices from `lo` lie inside `x` (or `n == 0`). The result is then `x[lo..lo+n]`, of length `n`. |
| `Windower.RandomWindow` | inputs.py:64-76 | The window succeeds exactly when `|x| > n_ctx + 1`, and otherwise fails with an empty offset range. On success, `input == x[r..r+n_ctx]` and `target == x[r+1..r+1+n_ctx]`. Both have length `n_ctx`, and `target[j] == input[j+1]` for `j < n_ctx - 1`. Every index used lies in `[0, |x| - 1)`. |
| `Windower.LeftWindow` | inputs.py:79-85 | The window succeeds exactly when `n_ctx == 0` or `|x| > n_ctx`, and otherwise fails with a reshape error. On success, `input == x[..n_ctx]` and `target == x[1..n_ctx+1]`, both of length `n_ctx`, and `target` is `input` shifted by one. |
| `TextDataset.OffsetFor` | inputs.py:66 | The offset lies in `[0, |x| - (n_ctx + 1))` whenever that range is non-empty. It equals the draw whenever the draw lies in the range. |
| `TextDataset.SampleText` | inputs.py:63-85 | The window of the policy the datatype selects succeeds exactly when the sequence is long enough for that policy (`LongEnough`). On success both tensors have `n_ctx` tokens. `SampledElement` states that element `k` of the dataset is this window. |
| `TextDataset.StitchGroup` | inputs.py:60 | A group as the pipeline hands it to the stitcher (dense batch and parsed lengths) stitches to `Stitch` of the records themselves. |
| `TextDataset.WindowAll` | inputs.py:87 | Windowing all stitched sequences succeeds exactly when every window does. Element `k` is then window `k`, in order. |
| `TextDataset.StitchAll` | inputs.py:60 | Grouping `|records|` records `stitch` at a time gives `|records| / stitch` stitched sequences. |
| `TextDataset.StitchAllAt` | inputs.py:60 | Stitched sequence `k` joins records `k*stitch` up to `(k+1)*stitch`. |
| `TextDataset.TextElements` | inputs.py:20-94 | A non-sample datatype returns the records unchanged as chunks. A sample datatype, on success, yields `|records| / stitch` pairs, each with input and target of `n_ctx` tokens. |
| `TextDataset.SampledElement` | inputs.py:60-87 | Element `k` of a sampled dataset is the chosen policy's window of the stitched records `k*stitch .. (k+1)*stitch`. The policy is random only for `"random_sample"`. |
| `TextDataset.SampledSucceedsIff` | inputs.py:63-87 | A sampled dataset succeeds exactly when every stitched sequence is long enough for its policy. The random policy needs more than `n_ctx + 1` tokens. The left-aligned policy needs more than `n_ctx` tokens, or `n_ctx == 0`. |
| `TextDataset.StitchTuningSuffices` | inputs.py:44-46 | Suppose every record has at least `minLen` tokens and `stitch * minLen + stitch - 1 > n_ctx + 1`. Then every window succeeds, whatever offsets are drawn. |
| `TextDataset.TextBatches` | inputs.py:89-90 | With batching on, the result is `|elements| / batch_size` batches of exactly `batch_size` elements. Joined back together they are the first `(|elements| / batch_size) * batch_size` elements, in order, so only the trailing partial batch is dropped. In sampling mode every element of every batch is a pair of `n_ctx`-token tensors. |
| `TextDataset.DatatypeDispatch` | inputs.py:24-63 | An instance check of the substring test on the three configured datatypes: `"random_sample"` samples with a random offset, `"sample"` samples left-aligned, `"chunk"` does not sample. |
| `TextDataset.IsSampling` | inputs.py:24 | The test `"sample" in datatype` (also at inputs.py:43), written with `Contains` and `OccursAt` as a substring search. It carries no contract of its own: `DatatypeDispatch` states its value on the configured datatypes and `TextElements` states what each outcome selects. |
| `TextDataset.IsRandomSampling` | inputs.py:63 | The test `datatype == "random_sample"`. It carries no contract of its own: `DatatypeDispatch` states its value on the configured datatypes and `SampledElement` states that it selects the random window. |
| `Batching.Batch` | inputs.py:90 | Batching yields `|s| / k` batches, each of size `k`. Their concatenation is the first `(|s| / k) * k` elements of `s`, in order, and the remainder is dropped. |
| `Batching.BatchAt` | inputs.py:60 | Batch `i` is `s[i*k .. (i+1)*k]`. |
| `Batching.BatchElement` | inputs.py:16 | Element `j` of batch `b` is element `b*k + j` of the stream. |
| `Batching.BatchMembers` | inputs.py:16 | Every element of every batch is an element of the stream. |
| `Batching.TenInBatchesOfFour` | inputs.py:16 | Ten elements in batches of four give exactly two batches, `s[0..4]` and `s[4..8]`. The last two elements are dropped. |
| `Inference.PredInput` | inputs.py:101-103 | The result has `batch_size` rows. Each row is the first `min(|tokens|, 1024)` tokens of the encoded prompt, and all rows are identical. |

## Left out

- Reading TFRecord files, resolving globs, `parallel_interleave` and
  `parse_single_example` (inputs.py:10, 21-40) are I/O and library decoding.
  Records enter the model as token sequences. In sample mode each record comes
  with its length, as the parser reports it (inputs.py:31).
- `shuffle(1000 * stitch)` (inputs.py:60) is a randomised, bounded-buffer
  shuffle with no specified order. The model groups records in the order
  given, so that order stands for the order after the shuffle.
- `tf.random.uniform` (inputs.py:66) is not modelled. The offset is an input
  with a range precondition. At the dataset level it is a sequence of draws
  reduced into the range. The model does not claim the draws are uniform.
- Weighted mixing with `sample_from_datasets` (inputs.py:15) is left out. It is
  a probabilistic choice per draw. `generic_text` batches the mixed stream
  (inputs.py:16) with the same `Batch`.
- `prefetch` and `repeat` (inputs.py:16, 90, 92) are left out. They tune
  throughput and make the stream infinite. The model is a finite stream read
  once.
- The GPT-2 tokenizer `enc.encode` (inputs.py:98-100) is external code. Its
  output is an arbitrary sequence of integers.
- `PredInput` returns the single batch, not a one-element dataset holding it
  (inputs.py:104).
- A runtime error ends the whole modelled dataset. Elements that TensorFlow
  would emit before the failing one are not modelled.
- Tensor element types are unbounded integers. The model does not capture
  int64 or int32 widths, including the int32 offset draw.
- `Gather` follows the CPU behaviour of `tf.gather`, which rejects an
  out-of-range index. On other devices such indices can yield zeros. With the
  offsets the model uses, no index is ever out of range.
- Grouping and batching require a positive group or batch size. TensorFlow
  rejects a batch size of zero, and the model does not handle it.
- Range: requires `lo <= hi` and says nothing about a descending range. The
  calls at inputs.py:67-68 have `hi = lo + n_ctx`. The call at inputs.py:51,
  `tf.range(y[i])`, has `0 <= y[i]`, and `Segments` models it as the slice
  `x[i][..y[i]]`.
