# FaceNet identity decision

This project models the identity-decision part of `predict` in
`RamokFaceNetFeatureProvider.java`, together with its helper
`reverseOrderStream`. Given a gallery of labelled similarity scores for one
query face, `predict` does the following:

1. Groups the scores by label.
2. Sorts each label's quantised scores ascending and reverses them.
3. Keeps the `numSamples` largest and averages them in units of 1/10000.
4. Admits a label when that average reaches the threshold (the test is
   inclusive).
5. Ranks the admitted labels by score, highest first.
6. Returns a list holding at most the best one.

The model is written in Dafny. There are two modules:

- `Sorting` (`sorting.dfy`): a stable ascending insertion sort by a real key,
  `SortBy`. It stands for both library sorts the code uses, `IntStream.sorted()`
  and `List.sort(Comparator.comparing(Prediction::getScore))`. Separate lemmas
  prove that the result is ordered and is a permutation of the input.
- `FaceNetFeatureProvider` (`facenet.dfy`):
  - The gallery is a `seq<(string, int)>` of labels and already-quantised
    scores.
  - `reverseOrderStream`, and `Collections.reverse` too, is `ReverseOrder`.
  - The per-label pipeline is `TopNAverage`. Its two exceptions are modelled
    as error results. A negative `numSamples` makes `limit` throw
    (`IllegalLimit`). An empty selection makes `average().getAsDouble()`
    throw (`NoAverage`).
  - `predict` itself is imperative:
    - `GroupByLabel` builds the label map in a loop.
    - `Summarise` walks the map's entries and appends the admitted labels.
    - `SelectBest` is the counted loop that copies at most one ranked
      prediction.
    - `Predict` composes them.
  - Averages and the threshold are `real`. A label's aggregate is
    `Sum(top) / 10000 / |top|`.

The map's iteration order is unspecified, so `Summarise` may visit the labels
in any order (a `:|` choice). The model therefore does not fix which of
several equally scored labels wins. It does prove that whether there is a
match, and the winning score, do not depend on that order.

Ties are settled by HashMap iteration order, and the quantising cast
truncates toward zero. The model follows the code.

## Model

| member | source | states |
|---|---|---|
| FaceNetFeatureProvider.ReverseOrderIsReversal | RamokFaceNetFeatureProvider.java:143-147 | the output has the input's length; element `k` is input element `len-1-k`; reversing twice returns the input; the multiset of elements is unchanged |
| FaceNetFeatureProvider.ReverseOrderOfSorted | RamokFaceNetFeatureProvider.java:168-173 | reversing an ascending sequence yields a descending one, so the sorted scores come largest first |
| Sorting.InsertByPermutes | RamokFaceNetFeatureProvider.java:172 | inserting an element adds exactly that element to the multiset |
| Sorting.InsertBySorted | RamokFaceNetFeatureProvider.java:172 | inserting into an ascending sequence keeps it ascending |
| Sorting.SortByCorrect | RamokFaceNetFeatureProvider.java:172 | the sort returns its input in ascending key order, as a permutation |
| FaceNetFeatureProvider.TopNAverage | RamokFaceNetFeatureProvider.java:168-177 | the aggregate exists iff `numSamples >= 1` and the bucket is non-empty; otherwise the error is `IllegalLimit` for a negative count and `NoAverage` for zero |
| FaceNetFeatureProvider.DescendingArrangement | RamokFaceNetFeatureProvider.java:168-173 | sorting ascending and then reversing gives a descending permutation of the scores |
| FaceNetFeatureProvider.PrefixDominates | RamokFaceNetFeatureProvider.java:174 | in a descending sequence no element after a cut exceeds an element before it |
| FaceNetFeatureProvider.DescendingPrefix | RamokFaceNetFeatureProvider.java:174 | a prefix of a descending arrangement is a descending sub-multiset that no left-out score exceeds |
| FaceNetFeatureProvider.TopNAreLargest | RamokFaceNetFeatureProvider.java:168-174 | exactly `min(numSamples, bucket size)` scores are kept, drawn from the bucket, in descending order, and none of the dropped scores exceeds a kept one |
| FaceNetFeatureProvider.SumConcat | RamokFaceNetFeatureProvider.java:176 | the sum of a concatenation is the sum of the sums |
| FaceNetFeatureProvider.SumRemoveAt | RamokFaceNetFeatureProvider.java:176 | the sum is one element plus the sum of the rest |
| FaceNetFeatureProvider.MultisetRemoveAt | RamokFaceNetFeatureProvider.java:176 | removing one position removes exactly that element from the multiset |
| FaceNetFeatureProvider.SumPermutation | RamokFaceNetFeatureProvider.java:175-177 | the total does not depend on the order of the kept scores |
| FaceNetFeatureProvider.AllSamplesAveraged | RamokFaceNetFeatureProvider.java:168-177 | when a label has at most `numSamples` samples, the aggregate is the mean of all of them |
| FaceNetFeatureProvider.BucketMembers | RamokFaceNetFeatureProvider.java:165 | a label's bucket holds exactly the scores of the entries with that label, and is non-empty exactly for the gallery's labels |
| FaceNetFeatureProvider.AppendEntry | RamokFaceNetFeatureProvider.java:165 | appending an entry adds its label and extends only that label's bucket, at the end |
| FaceNetFeatureProvider.GroupByLabel | RamokFaceNetFeatureProvider.java:165 | the map's keys are exactly the gallery's labels, and each maps to its bucket in gallery order |
| FaceNetFeatureProvider.RecordStep | RamokFaceNetFeatureProvider.java:178-180 | visiting a new label appends it iff its aggregate reaches the threshold, keeping labels distinct and every admitted visited label listed |
| FaceNetFeatureProvider.RecordedIsSummary | RamokFaceNetFeatureProvider.java:166-181 | after every entry is visited, the list holds each admitted label once with its aggregate, and nothing else |
| FaceNetFeatureProvider.Summarise | RamokFaceNetFeatureProvider.java:166-181 | fails iff some label's aggregate fails, with that error kind; otherwise the summary holds each label at most once, each with its aggregate, and a label is in it iff its aggregate is `>= threshold` |
| FaceNetFeatureProvider.Ranked | RamokFaceNetFeatureProvider.java:184-185 | the ranked summary is a permutation of the summary in descending score order |
| FaceNetFeatureProvider.SelectBest | RamokFaceNetFeatureProvider.java:187-193 | the result has length at most 1; it is empty iff the summary is; otherwise its element is from the summary and no summary score exceeds it |
| FaceNetFeatureProvider.Predict | RamokFaceNetFeatureProvider.java:163-193 | fails iff the gallery is non-empty and `numSamples < 1`, with the matching error; otherwise at most one prediction: none iff no label is admitted, else a gallery label with its aggregate, at least the threshold, and no label's aggregate larger |
| FaceNetFeatureProvider.DecisionScoreDetermined | RamokFaceNetFeatureProvider.java:184-192 | two decisions for the same inputs agree on whether there is a match and on the winning score; only the identity of a tied winner may differ |
| FaceNetFeatureProvider.ThresholdMonotone | RamokFaceNetFeatureProvider.java:178-193 | raising the threshold never turns an empty result into a match, and a match that survives keeps its score |
| FaceNetFeatureProvider.EmptyGalleryNoMatch | RamokFaceNetFeatureProvider.java:164-193 | an empty gallery yields an empty result |
| FaceNetFeatureProvider.TwoLabelBuckets | RamokFaceNetFeatureProvider.java:165 | a concrete gallery with two samples for one label and one for another groups into the expected buckets |
| FaceNetFeatureProvider.TwoLabelAggregates | RamokFaceNetFeatureProvider.java:168-177 | the aggregates of the concrete buckets are 0.9 and 0.4 |
| FaceNetFeatureProvider.TwoLabelScenario | RamokFaceNetFeatureProvider.java:163-193 | for that gallery, with threshold 0.5 and two samples, the only possible decision is the first label at 0.9 |

## Left out

- Model loading and the transfer-learning graph surgery (lines 60-71). These are neural-network library calls.
- Embedding inference: `getEmbeddings` and `normalize` (lines 93-100, 196-198). These are neural-network library calls.
- Image cropping, resizing and matrix conversion: `getEmbeddingsFromPic`, `getEmbeddingFromPic`, and the first lines of `predict` (lines 102-141, 150-153). These are image I/O. In particular, `resize` changes the caller's image in place.
- Building the gallery from a directory: `setupAnchor` and `generateEmbeddings` (lines 73-91). This is file I/O plus inference. The model takes the gallery as a parameter.
- The static gallery list (line 56), which grows on every setup call. Its process-wide mutable state is not modelled.
- The loop that scores each gallery entry against the query (lines 155-161), and its floating-point `1 - euclideanDistance`. Each entry's score is an input.
- TopNAverage: does not model the truncating `(int)(score * 10000)` cast (line 171). Scores are already-quantised integers.
- TopNAverage: does not model `double` rounding in the division and the average (lines 175-177). The model uses exact `real` arithmetic.
- The Java `int` width. Quantised scores are unbounded integers. In the source they come from a `double`-to-`int` cast of a value within ±10000, which can be negative, and the average is computed in `double`, so no `int` arithmetic can overflow.
- The `faceLocalization` field of `Prediction`. It is copied through unchanged and plays no part in the decision.
- Predict: does not determine which of several labels with equal aggregates is returned. That depends on HashMap iteration order and on the stability of the sort. `DecisionScoreDetermined` states what is determined instead.
- Sorting the summary in place and reversing it (lines 184-185). The model computes the ranked list as a value (`Ranked`). No other code holds the list, so aliasing plays no part.
