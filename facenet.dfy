/** The identity decision of `RamokFaceNetFeatureProvider.predict`: per-label
    top-N averaging of quantised similarity scores, an inclusive threshold
    gate, ranking by score and selection of at most one prediction.

    A gallery entry is a label with its similarity score to the query face,
    already quantised to units of 1/10000 (the integer `(int)(score * 10000)`
    of the source).  Computing that score from embeddings is not modelled. */
module FaceNetFeatureProvider {
  import opened Sorting

  /** The two exceptions the aggregation can raise:
      `IntStream.limit` rejects a negative size (IllegalArgumentException), and
      `average().getAsDouble()` on an empty stream throws NoSuchElementException. */
  datatype Error = IllegalLimit | NoAverage

  datatype Result<T> = Ok(value: T) | Err(error: Error)

  /** A label with its aggregate score (the face location is not modelled). */
  datatype Prediction = Prediction(name: string, score: real)

  /** A gallery entry: a label and its quantised score for the query. */
  type Entry = (string, int)

  // ---------------------------------------------------------------------
  // reverseOrderStream
  // ---------------------------------------------------------------------

  /** `reverseOrderStream`: position `i` (counting from 1) of the output holds
      input element `length - i`.  `Collections.reverse` does the same to a list. */
  function ReverseOrder<T>(s: seq<T>): seq<T> {
    seq(|s|, i requires 0 <= i < |s| => s[|s| - (i + 1)])
  }

  /** Reversal keeps the length, puts element `|s| - 1 - k` at `k`, undoes
      itself and keeps the elements. */
  lemma {:induction false} ReverseOrderIsReversal<T>(s: seq<T>)
    ensures |ReverseOrder(s)| == |s|
    ensures forall k :: 0 <= k < |s| ==> ReverseOrder(s)[k] == s[|s| - 1 - k]
    ensures ReverseOrder(ReverseOrder(s)) == s
    ensures multiset(ReverseOrder(s)) == multiset(s)
  {
    if s != [] {
      var front := s[..|s| - 1];
      ReverseOrderIsReversal(front);
      assert ReverseOrder(s) == [s[|s| - 1]] + ReverseOrder(front);
      assert s == front + [s[|s| - 1]];
    }
  }

  /** Reversing an ascending sequence gives a descending one: the step that
      turns the sorted scores "largest first". */
  lemma ReverseOrderOfSorted<T>(s: seq<T>, key: T -> real)
    requires SortedBy(s, key)
    ensures DescendingBy(ReverseOrder(s), key)
  {
    ReverseOrderIsReversal(s);
  }

  // ---------------------------------------------------------------------
  // Per-label aggregation: sorted, reversed, limit(numSamples), average
  // ---------------------------------------------------------------------

  function IntKey(x: int): real { x as real }

  function Sum(s: seq<int>): int {
    if s == [] then 0 else s[0] + Sum(s[1..])
  }

  /** The aggregate of a non-empty selection: the mean of `num / 10000`. */
  function Mean(top: seq<int>): real
    requires top != []
  {
    Sum(top) as real / 10000.0 / |top| as real
  }

  /** The scores sorted ascending, reversed, and cut after `n` elements. */
  function TopN(scores: seq<int>, n: int): seq<int>
    requires n >= 0
  {
    var desc := ReverseOrder(SortBy(scores, IntKey));
    desc[..if n < |desc| then n else |desc|]
  }

  /** `topNAvg` for one label's bucket, with the exceptions as errors. */
  function TopNAverage(scores: seq<int>, n: int): (r: Result<real>)
    ensures r.Ok? <==> n >= 1 && scores != []
    ensures r.Err? ==> r.error == (if n < 0 then IllegalLimit else NoAverage)
  {
    if n < 0 then Err(IllegalLimit)
    else
      if n == 0 || scores == [] then Err(NoAverage)
      else Ok(Mean(TopN(scores, n)))
  }

  /** In a descending sequence no element after position `k` exceeds an
      element before it. */
  lemma PrefixDominates(desc: seq<int>, k: nat)
    requires DescendingBy(desc, IntKey) && k <= |desc|
    ensures forall x, y :: x in desc[..k] && y in desc[k..] ==> y <= x
  {
    forall x, y | x in desc[..k] && y in desc[k..] ensures y <= x {
      var i :| 0 <= i < k && desc[..k][i] == x;
      var j :| 0 <= j < |desc| - k && desc[k..][j] == y;
      assert IntKey(desc[i]) >= IntKey(desc[k + j]);
    }
  }

  /** A prefix of a descending arrangement of `scores` is a descending
      selection of `scores` that no left-out score exceeds. */
  lemma DescendingPrefix(desc: seq<int>, scores: seq<int>, k: nat)
    requires multiset(desc) == multiset(scores)
    requires DescendingBy(desc, IntKey) && k <= |desc|
    ensures multiset(desc[..k]) <= multiset(scores)
    ensures DescendingBy(desc[..k], IntKey)
    ensures forall x, y :: x in desc[..k] && y in multiset(scores) - multiset(desc[..k]) ==> y <= x
  {
    assert multiset(scores) == multiset(desc[..k]) + multiset(desc[k..]) by {
      assert desc == desc[..k] + desc[k..];
    }
    PrefixDominates(desc, k);
    forall x, y | x in desc[..k] && y in multiset(scores) - multiset(desc[..k]) ensures y <= x {
      assert y in desc[k..];
    }
  }

  /** The scores sorted ascending and reversed are a descending arrangement
      of the scores. */
  lemma DescendingArrangement(scores: seq<int>)
    ensures multiset(ReverseOrder(SortBy(scores, IntKey))) == multiset(scores)
    ensures DescendingBy(ReverseOrder(SortBy(scores, IntKey)), IntKey)
  {
    SortByCorrect(scores, IntKey);
    ReverseOrderIsReversal(SortBy(scores, IntKey));
    ReverseOrderOfSorted(SortBy(scores, IntKey), IntKey);
  }

  /** Exactly `min(n, |scores|)` scores are kept, all drawn from `scores`,
      in descending order, and none of the dropped scores exceeds a kept one. */
  lemma TopNAreLargest(scores: seq<int>, n: int)
    requires n >= 0
    ensures |TopN(scores, n)| == if n < |scores| then n else |scores|
    ensures multiset(TopN(scores, n)) <= multiset(scores)
    ensures DescendingBy(TopN(scores, n), IntKey)
    ensures forall x, y :: x in TopN(scores, n) && y in multiset(scores) - multiset(TopN(scores, n)) ==> y <= x
  {
    DescendingArrangement(scores);
    var desc := ReverseOrder(SortBy(scores, IntKey));
    DescendingPrefix(desc, scores, if n < |desc| then n else |desc|);
  }

  lemma {:induction false} SumConcat(a: seq<int>, b: seq<int>)
    ensures Sum(a + b) == Sum(a) + Sum(b)
  {
    if a == [] {
      assert a + b == b;
    } else {
      assert (a + b)[0] == a[0];
      assert (a + b)[1..] == a[1..] + b;
      SumConcat(a[1..], b);
    }
  }

  lemma SumRemoveAt(t: seq<int>, j: nat)
    requires j < |t|
    ensures Sum(t) == t[j] + Sum(t[..j] + t[j + 1..])
  {
    var a, x, b := t[..j], t[j], t[j + 1..];
    assert t == (a + [x]) + b;
    assert Sum([x]) == x by {
      assert [x][1..] == [];
    }
    SumConcat(a + [x], b);
    SumConcat(a, [x]);
    SumConcat(a, b);
  }

  lemma MultisetRemoveAt(t: seq<int>, j: nat)
    requires j < |t|
    ensures multiset(t[..j] + t[j + 1..]) == multiset(t) - multiset{t[j]}
  {
    assert t == t[..j] + [t[j]] + t[j + 1..];
  }

  /** The sum of a sequence depends only on its elements, not their order. */
  lemma {:induction false} SumPermutation(s: seq<int>, t: seq<int>)
    requires multiset(s) == multiset(t)
    ensures Sum(s) == Sum(t)
  {
    if s == [] {
      assert |t| == |multiset(t)| == 0;
    } else {
      assert s[0] in multiset(t);
      var j :| 0 <= j < |t| && t[j] == s[0];
      SumRemoveAt(t, j);
      MultisetRemoveAt(t, j);
      assert s == [s[0]] + s[1..];
      assert multiset(s[1..]) == multiset(s) - multiset{s[0]};
      SumPermutation(s[1..], t[..j] + t[j + 1..]);
    }
  }

  /** When a label has no more than `n` samples the aggregate is the mean of
      all of them. */
  lemma AllSamplesAveraged(scores: seq<int>, n: int)
    requires 1 <= |scores| <= n
    ensures TopNAverage(scores, n) == Ok(Mean(scores))
  {
    var top := TopN(scores, n);
    assert top != [] && |top| == |scores| && Sum(top) == Sum(scores) by {
      DescendingArrangement(scores);
      assert top == ReverseOrder(SortBy(scores, IntKey));
      assert |multiset(top)| == |top|;
      SumPermutation(top, scores);
    }
    assert Mean(top) == Mean(scores);
  }

  // ---------------------------------------------------------------------
  // Grouping by label
  // ---------------------------------------------------------------------

  /** The labels that occur in the gallery. */
  function Labels(gallery: seq<Entry>): set<string> {
    set e | e in gallery :: e.0
  }

  /** The scores of the entries labelled `name`, in gallery order. */
  function Bucket(gallery: seq<Entry>, name: string): seq<int> {
    if gallery == [] then []
    else
      var last := gallery[|gallery| - 1];
      Bucket(gallery[..|gallery| - 1], name) + (if last.0 == name then [last.1] else [])
  }

  /** A bucket holds exactly the scores of the entries with its label, and is
      non-empty exactly for the labels of the gallery. */
  lemma {:induction false} BucketMembers(gallery: seq<Entry>, name: string)
    ensures forall x :: x in Bucket(gallery, name) <==> (name, x) in gallery
    ensures Bucket(gallery, name) != [] <==> name in Labels(gallery)
  {
    if gallery != [] {
      var front := gallery[..|gallery| - 1];
      BucketMembers(front, name);
      assert gallery == front + [gallery[|gallery| - 1]];
      if name in Labels(gallery) {
        var e :| e in gallery && e.0 == name;
        if e in front {
          assert name in Labels(front);
        }
      }
      assert Labels(front) <= Labels(gallery);
    }
  }

  /** Appending an entry adds its label and extends only its own bucket. */
  lemma AppendEntry(gallery: seq<Entry>, e: Entry)
    ensures Labels(gallery + [e]) == Labels(gallery) + {e.0}
    ensures forall l :: Bucket(gallery + [e], l) == Bucket(gallery, l) + (if e.0 == l then [e.1] else [])
  {
    var g := gallery + [e];
    assert g[..|g| - 1] == gallery;
    assert forall x :: x in g <==> x in gallery || x == e;
  }

  /** `Collectors.groupingBy(Prediction::getLabel)`: one bucket per label. */
  method GroupByLabel(gallery: seq<Entry>) returns (groups: map<string, seq<int>>)
    ensures groups.Keys == Labels(gallery)
    ensures forall l :: l in groups ==> groups[l] == Bucket(gallery, l)
  {
    groups := map[];
    var i := 0;
    while i < |gallery|
      invariant 0 <= i <= |gallery|
      invariant forall l :: l in groups ==> groups[l] == Bucket(gallery[..i], l) && groups[l] != []
      invariant forall l :: l !in groups ==> Bucket(gallery[..i], l) == []
    {
      var (name, score) := gallery[i];
      assert forall l :: Bucket(gallery[..i + 1], l) == Bucket(gallery[..i], l) + (if name == l then [score] else [])
      by {
        assert gallery[..i + 1] == gallery[..i] + [(name, score)];
        AppendEntry(gallery[..i], (name, score));
      }
      groups := groups[name := (if name in groups then groups[name] else []) + [score]];
      i := i + 1;
    }
    assert gallery[..i] == gallery;
    forall l ensures l in groups <==> l in Labels(gallery) {
      BucketMembers(gallery, l);
    }
  }

  // ---------------------------------------------------------------------
  // Summary: one prediction per admitted label
  // ---------------------------------------------------------------------

  /** A bucket is admitted when its aggregate exists and reaches `threshold`. */
  ghost predicate Admitted(scores: seq<int>, n: int, threshold: real) {
    TopNAverage(scores, n).Ok? && TopNAverage(scores, n).value >= threshold
  }

  /** `summary` lists each admitted label of `groups` exactly once, with its
      aggregate, and nothing else. */
  ghost predicate IsSummary(groups: map<string, seq<int>>, threshold: real, n: int, summary: seq<Prediction>) {
    (forall i, j :: 0 <= i < j < |summary| ==> summary[i].name != summary[j].name) &&
    (forall i :: 0 <= i < |summary| ==>
       summary[i].name in groups &&
       TopNAverage(groups[summary[i].name], n) == Ok(summary[i].score) &&
       summary[i].score >= threshold) &&
    (forall l :: l in groups && Admitted(groups[l], n, threshold) ==>
       exists i :: 0 <= i < |summary| && summary[i].name == l)
  }

  /** Bookkeeping of the summary loop: `seen` holds the aggregates of the
      labels visited so far, `summary` lists each of them that reached the
      threshold once, and `at` says where. */
  ghost predicate Recorded(seen: map<string, real>, threshold: real, summary: seq<Prediction>, at: map<string, nat>) {
    (forall i, j :: 0 <= i < j < |summary| ==> summary[i].name != summary[j].name) &&
    (forall i :: 0 <= i < |summary| ==>
       summary[i].name in seen && seen[summary[i].name] == summary[i].score && summary[i].score >= threshold) &&
    (forall l :: l in seen && seen[l] >= threshold ==>
       l in at && at[l] < |summary| && summary[at[l]].name == l)
  }

  /** Visiting a new label keeps the bookkeeping right. */
  lemma RecordStep(seen: map<string, real>, threshold: real, summary: seq<Prediction>, at: map<string, nat>, name: string, average: real)
    requires Recorded(seen, threshold, summary, at) && name !in seen
    ensures average >= threshold ==>
      Recorded(seen[name := average], threshold, summary + [Prediction(name, average)], at[name := |summary|])
    ensures average < threshold ==> Recorded(seen[name := average], threshold, summary, at)
  {
  }

  /** Once every label has been visited the bookkeeping is a summary. */
  lemma RecordedIsSummary(groups: map<string, seq<int>>, threshold: real, n: int, seen: map<string, real>, summary: seq<Prediction>, at: map<string, nat>)
    requires seen.Keys == groups.Keys
    requires forall l :: l in seen ==> TopNAverage(groups[l], n) == Ok(seen[l])
    requires Recorded(seen, threshold, summary, at)
    ensures IsSummary(groups, threshold, n, summary)
  {
    forall l | l in groups && Admitted(groups[l], n, threshold)
      ensures exists i :: 0 <= i < |summary| && summary[i].name == l
    {
      assert summary[at[l]].name == l;
    }
  }

  /** The loop over the map's entries.  The map's iteration order is not
      specified, so the next label is an arbitrary unvisited one. */
  method Summarise(groups: map<string, seq<int>>, threshold: real, n: int) returns (r: Result<seq<Prediction>>)
    ensures r.Err? <==> exists l :: l in groups && TopNAverage(groups[l], n).Err?
    ensures r.Err? ==> r.error == (if n < 0 then IllegalLimit else NoAverage)
    ensures r.Ok? ==> IsSummary(groups, threshold, n, r.value)
  {
    var remaining := groups.Keys;
    var summary: seq<Prediction> := [];
    ghost var seen: map<string, real> := map[];
    ghost var at: map<string, nat> := map[];
    while remaining != {}
      invariant remaining <= groups.Keys
      invariant seen.Keys == groups.Keys - remaining
      invariant forall l {:trigger TopNAverage(groups[l], n)} :: l in seen ==> TopNAverage(groups[l], n) == Ok(seen[l])
      invariant Recorded(seen, threshold, summary, at)
      decreases remaining
    {
      var name :| name in remaining;
      var average := TopNAverage(groups[name], n);
      if average.Err? {
        return Err(average.error);
      }
      RecordStep(seen, threshold, summary, at, name, average.value);
      if average.value >= threshold {
        at := at[name := |summary|];
        summary := summary + [Prediction(name, average.value)];
      }
      seen := seen[name := average.value];
      remaining := remaining - {name};
    }
    forall l | l in seen ensures TopNAverage(groups[l], n) == Ok(seen[l]) {
    }
    RecordedIsSummary(groups, threshold, n, seen, summary, at);
    return Ok(summary);
  }

  // ---------------------------------------------------------------------
  // Ranking and top-1 selection
  // ---------------------------------------------------------------------

  function Score(p: Prediction): real { p.score }

  /** Sort by score ascending, then reverse: highest score first. */
  function Ranked(summary: seq<Prediction>): (r: seq<Prediction>)
    ensures multiset(r) == multiset(summary)
    ensures DescendingBy(r, Score)
  {
    SortByCorrect(summary, Score);
    ReverseOrderIsReversal(SortBy(summary, Score));
    ReverseOrderOfSorted(SortBy(summary, Score), Score);
    ReverseOrder(SortBy(summary, Score))
  }

  /** The counted loop that copies at most the first ranked prediction. */
  method SelectBest(summary: seq<Prediction>) returns (result: seq<Prediction>)
    ensures |result| <= 1
    ensures result == [] <==> summary == []
    ensures result != [] ==> result[0] in summary && forall p :: p in summary ==> p.score <= result[0].score
  {
    var ranked := Ranked(summary);
    assert |ranked| == |multiset(summary)| == |summary|;
    result := [];
    for i := 0 to 1
      invariant result == ranked[..if i < |ranked| then i else |ranked|]
    {
      if i < |ranked| {
        result := result + [ranked[i]];
      }
    }
    if result != [] {
      assert result[0] == ranked[0];
      assert ranked[0] in multiset(summary);
      forall p | p in summary ensures p.score <= result[0].score {
        assert p in multiset(ranked);
        var k :| 0 <= k < |ranked| && ranked[k] == p;
        assert k == 0 || Score(ranked[0]) >= Score(ranked[k]);
      }
    }
  }

  // ---------------------------------------------------------------------
  // predict
  // ---------------------------------------------------------------------

  /** The decision `predict` promises for a gallery, a threshold and a sample
      count: at most one prediction; none exactly when no gallery label is
      admitted; otherwise a gallery label with its aggregate, at least the
      threshold, and at least every label's aggregate. */
  ghost predicate IsDecision(gallery: seq<Entry>, threshold: real, n: int, out: seq<Prediction>) {
    |out| <= 1 &&
    (out == [] <==> forall l :: l in Labels(gallery) ==> !Admitted(Bucket(gallery, l), n, threshold)) &&
    (out != [] ==>
       out[0].name in Labels(gallery) &&
       TopNAverage(Bucket(gallery, out[0].name), n) == Ok(out[0].score) &&
       out[0].score >= threshold &&
       forall l :: l in Labels(gallery) && TopNAverage(Bucket(gallery, l), n).Ok? ==>
         TopNAverage(Bucket(gallery, l), n).value <= out[0].score)
  }

  /** The aggregation, threshold, ranking and top-1 part of `predict`. */
  method Predict(gallery: seq<Entry>, threshold: real, numSamples: int) returns (r: Result<seq<Prediction>>)
    ensures r.Err? <==> gallery != [] && numSamples < 1
    ensures r.Err? ==> r.error == (if numSamples < 0 then IllegalLimit else NoAverage)
    ensures r.Ok? ==> IsDecision(gallery, threshold, numSamples, r.value)
  {
    var groups := GroupByLabel(gallery);
    forall l | l in groups ensures groups[l] != [] {
      BucketMembers(gallery, l);
    }
    if gallery != [] {
      assert gallery[0].0 in groups;
    }
    var summary := Summarise(groups, threshold, numSamples);
    if summary.Err? {
      return Err(summary.error);
    }
    var result := SelectBest(summary.value);
    r := Ok(result);
    ghost var s := summary.value;
    if result == [] {
      assert forall l :: l in Labels(gallery) ==> !Admitted(Bucket(gallery, l), numSamples, threshold);
    } else {
      ghost var i :| 0 <= i < |s| && s[i] == result[0];
      assert result[0].name in groups;
      forall l | l in Labels(gallery) && TopNAverage(Bucket(gallery, l), numSamples).Ok?
        ensures TopNAverage(Bucket(gallery, l), numSamples).value <= result[0].score
      {
        assert l in groups;
        if Admitted(groups[l], numSamples, threshold) {
          var k :| 0 <= k < |s| && s[k].name == l;
          assert s[k] in s;
        }
      }
      assert s[0] in s;
      assert Admitted(Bucket(gallery, s[0].name), numSamples, threshold);
    }
  }

  // ---------------------------------------------------------------------
  // Properties of the decision
  // ---------------------------------------------------------------------

  /** The decision is the same up to which of several equally scored labels
      wins: whether it is empty, and the winning score, are determined. */
  lemma DecisionScoreDetermined(gallery: seq<Entry>, threshold: real, n: int, a: seq<Prediction>, b: seq<Prediction>)
    requires IsDecision(gallery, threshold, n, a) && IsDecision(gallery, threshold, n, b)
    ensures a == [] <==> b == []
    ensures a != [] ==> a[0].score == b[0].score
  {
  }

  /** Raising the threshold never produces a match where there was none, and
      a match that survives keeps its score. */
  lemma ThresholdMonotone(gallery: seq<Entry>, n: int, low: real, high: real, a: seq<Prediction>, b: seq<Prediction>)
    requires low <= high
    requires IsDecision(gallery, low, n, a) && IsDecision(gallery, high, n, b)
    ensures a == [] ==> b == []
    ensures b != [] ==> a != [] && a[0].score == b[0].score
  {
    if b != [] {
      assert Admitted(Bucket(gallery, b[0].name), n, low);
    }
  }

  /** An empty gallery never matches. */
  lemma EmptyGalleryNoMatch(threshold: real, n: int, out: seq<Prediction>)
    requires IsDecision([], threshold, n, out)
    ensures out == []
  {
  }

  /** The buckets of a gallery where Alice has two samples and Bob one. */
  lemma TwoLabelBuckets(g: seq<Entry>)
    requires g == [("alice", 9200), ("alice", 8800), ("bob", 4000)]
    ensures Labels(g) == {"alice", "bob"}
    ensures Bucket(g, "alice") == [9200, 8800] && Bucket(g, "bob") == [4000]
  {
    var g0: seq<Entry> := [];
    var g1 := g0 + [("alice", 9200)];
    var g2 := g1 + [("alice", 8800)];
    assert g == g2 + [("bob", 4000)];
    assert "alice" != "bob" by {
      assert "alice"[0] != "bob"[0];
    }
    AppendEntry(g0, ("alice", 9200));
    assert Bucket(g1, "alice") == [9200] && Bucket(g1, "bob") == [];
    AppendEntry(g1, ("alice", 8800));
    assert Bucket(g2, "alice") == [9200, 8800] && Bucket(g2, "bob") == [];
    AppendEntry(g2, ("bob", 4000));
  }

  /** Averaging the two best of 0.92 and 0.88 gives 0.90; Bob's single 0.40
      stays 0.40. */
  lemma TwoLabelAggregates()
    ensures TopNAverage([9200, 8800], 2) == Ok(0.9)
    ensures TopNAverage([4000], 2) == Ok(0.4)
  {
    assert Sum([9200, 8800]) == 18000 by {
      assert [9200, 8800][1..] == [8800];
      assert [8800][1..] == [];
    }
    assert Sum([4000]) == 4000 by {
      assert [4000][1..] == [];
    }
    AllSamplesAveraged([9200, 8800], 2);
    AllSamplesAveraged([4000], 2);
  }

  /** Alice has samples scoring 0.92 and 0.88, Bob one scoring 0.40; with two
      samples per label and threshold 0.5 the only decision is Alice at 0.90. */
  lemma TwoLabelScenario(out: seq<Prediction>)
    requires IsDecision([("alice", 9200), ("alice", 8800), ("bob", 4000)], 0.5, 2, out)
    ensures out == [Prediction("alice", 0.9)]
  {
    var g: seq<Entry> := [("alice", 9200), ("alice", 8800), ("bob", 4000)];
    TwoLabelBuckets(g);
    TwoLabelAggregates();
    assert Admitted(Bucket(g, "alice"), 2, 0.5);
    assert out != [];
    assert out[0].name == "alice";
    assert out == [out[0]];
  }
}
