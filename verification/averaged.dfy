/** The averaged perceptron of the trainer. Each head runs the vanilla
    updates and also caches, per weight and for the bias, the sum of every
    change scaled by a record counter c; the final parameters are w - u/c
    and b - beta/c. The integer identity behind the caching is proved here:
    c*w - u is the sum of the weights over all the states the head went
    through, so the final parameters are the mean of those states. */
module Averaged {
  import opened Features
  import opened Corpus
  import opened Perceptron

  /** One averaged head: the running head and the cached sums. */
  datatype AvgHead = AvgHead(head: Head, u: map<string, int>, beta: int)

  /** Both averaged heads and the record counter. */
  datatype AvgState = AvgState(a1: AvgHead, a2: AvgHead, c: int)

  /** The cache has a sum for exactly the weights of the head. */
  predicate Aligned(a: AvgHead) {
    a.u.Keys == a.head.w.Keys
  }

  /** Weights, caches and biases all start at zero on the vocabulary. */
  function AvgZero(vocabulary: set<string>): (a: AvgHead)
    ensures Aligned(a) && a.head == Zero(vocabulary) && a.beta == 0
    ensures forall d :: d in a.u ==> a.u[d] == 0
  {
    AvgHead(Zero(vocabulary), map d | d in vocabulary :: 0, 0)
  }

  /** One averaged head's response to the record seen at counter c: the
      vanilla response, and on a mistake u[d] += y*c*x[d] for each feature
      and beta += y*c. */
  function AvgLearn(a: AvgHead, x: FeatureVector, y: int, c: int): (r: AvgHead)
    requires Aligned(a) && Covers(a.head, x)
    ensures Aligned(r) && r.head.w.Keys == a.head.w.Keys
  {
    if Mistake(y, Activation(a.head, x)) then
      AvgHead(Update(a.head, x, y), AddScaled(a.u, x.count, x.keys, y * c), a.beta + y * c)
    else a
  }

  /** Regroups y*c*x[d] for AvgLearnWeight. */
  lemma Scaled(y: int, c: int, k: int)
    ensures (y * c) * k == c * (y * k)
  {
  }

  /** The bias cache moves exactly when the bias does, by c times the
      bias's change. */
  lemma AvgLearnBias(a: AvgHead, x: FeatureVector, y: int, c: int)
    requires Aligned(a) && Covers(a.head, x)
    ensures AvgLearn(a, x, y, c).beta - a.beta == c * (AvgLearn(a, x, y, c).head.b - a.head.b)
  {
    if Mistake(y, Activation(a.head, x)) {
      assert y * c == c * y;
    }
  }

  /** Each weight's cache moves exactly when the weight does, by c times the
      weight's change. */
  lemma AvgLearnWeight(a: AvgHead, x: FeatureVector, y: int, c: int, d: string)
    requires Aligned(a) && Covers(a.head, x) && d in a.u
    ensures AvgLearn(a, x, y, c).u[d] - a.u[d] == c * (AvgLearn(a, x, y, c).head.w[d] - a.head.w[d])
  {
    if Mistake(y, Activation(a.head, x)) {
      UpdateSpec(a.head, x, y);
      AddScaledSpec(a.u, x.count, x.keys, y * c);
      if d in x.count {
        Scaled(y, c, x.count[d]);
      }
    }
  }

  /** One averaged head learning from the examples of s in order from zero,
      the i-th example seen at counter 1 + i. It follows the vanilla head
      learning from the same examples. */
  function AvgRun(vocabulary: set<string>, s: seq<Example>): (a: AvgHead)
    requires Fits(vocabulary, s)
    ensures Aligned(a) && a.head.w.Keys == vocabulary
  {
    if s == [] then AvgZero(vocabulary)
    else
      var n := |s| - 1;
      FitsPrefix(vocabulary, s, n);
      AvgLearn(AvgRun(vocabulary, s[..n]), s[n].x, s[n].y, 1 + n)
  }

  /** The running head of an averaged head follows the vanilla head. */
  lemma AvgLearnFollows(a: AvgHead, x: FeatureVector, y: int, c: int)
    requires Aligned(a) && Covers(a.head, x)
    ensures AvgLearn(a, x, y, c).head == Learn(a.head, x, y)
  {
  }

  /** An averaged head learning from s holds, besides its caches, exactly
      the vanilla head learning from s. */
  lemma {:induction false} AvgRunFollows(vocabulary: set<string>, s: seq<Example>)
    requires Fits(vocabulary, s)
    ensures AvgRun(vocabulary, s).head == Run(Zero(vocabulary), s)
  {
    if s != [] {
      var n := |s| - 1;
      AvgRunFollows(vocabulary, s[..n]);
      AvgLearnFollows(AvgRun(vocabulary, s[..n]), s[n].x, s[n].y, 1 + n);
    }
  }

  lemma AvgRunSnoc(vocabulary: set<string>, s: seq<Example>, e: Example)
    requires Fits(vocabulary, s + [e])
    ensures Fits(vocabulary, s) && Valid(e.x) && e.x.count.Keys <= vocabulary
    ensures AvgRun(vocabulary, s + [e]) == AvgLearn(AvgRun(vocabulary, s), e.x, e.y, 1 + |s|)
  {
    FitsPrefix(vocabulary, s + [e], |s|);
    assert (s + [e])[..|s|] == s;
    assert (s + [e])[|s|] == e;
  }

  /** The states of a vanilla head learning from s: the zero head and the
      head after each example. */
  function Snapshots(vocabulary: set<string>, s: seq<Example>): (hs: seq<Head>)
    requires Fits(vocabulary, s)
    ensures |hs| == |s| + 1
    ensures forall i :: 0 <= i < |hs| ==> hs[i].w.Keys == vocabulary
  {
    if s == [] then [Zero(vocabulary)]
    else
      var n := |s| - 1;
      FitsPrefix(vocabulary, s, n);
      Snapshots(vocabulary, s[..n]) + [Run(Zero(vocabulary), s)]
  }

  /** Snapshot i is the head after the first i examples. */
  lemma {:induction false} SnapshotsAt(vocabulary: set<string>, s: seq<Example>, i: nat)
    requires Fits(vocabulary, s) && i <= |s|
    ensures Fits(vocabulary, s[..i])
    ensures Snapshots(vocabulary, s)[i] == Run(Zero(vocabulary), s[..i])
  {
    FitsPrefix(vocabulary, s, i);
    if i < |s| {
      var n := |s| - 1;
      FitsPrefix(vocabulary, s, n);
      assert s[..n][..i] == s[..i];
      SnapshotsAt(vocabulary, s[..n], i);
    } else {
      assert s[..i] == s;
    }
  }

  /** The sum of weight d over the heads of hs. */
  function WeightSum(hs: seq<Head>, d: string): int
    requires forall i :: 0 <= i < |hs| ==> d in hs[i].w
  {
    if hs == [] then 0 else WeightSum(hs[..|hs| - 1], d) + hs[|hs| - 1].w[d]
  }

  /** The sum of the biases of the heads of hs. */
  function BiasSum(hs: seq<Head>): int {
    if hs == [] then 0 else BiasSum(hs[..|hs| - 1]) + hs[|hs| - 1].b
  }

  /** The mean of weight d over the heads of hs. */
  function MeanWeight(hs: seq<Head>, d: string): real
    requires hs != [] && forall i :: 0 <= i < |hs| ==> d in hs[i].w
  {
    WeightSum(hs, d) as real / |hs| as real
  }

  /** The mean of the biases of the heads of hs. */
  function MeanBias(hs: seq<Head>): real
    requires hs != []
  {
    BiasSum(hs) as real / |hs| as real
  }

  /** One step of the running-sum identity of AvgRunWeight. */
  lemma Accumulate(c: int, w0: int, w1: int, u0: int, u1: int, sum: int)
    requires c * w0 - u0 == sum
    requires u1 - u0 == c * (w1 - w0)
    ensures (c + 1) * w1 - u1 == sum + w1
  {
  }

  /** Snapshots grow by the head after each new example. */
  lemma SnapshotsSnoc(vocabulary: set<string>, s: seq<Example>, e: Example)
    requires Fits(vocabulary, s + [e])
    ensures Fits(vocabulary, s)
    ensures Snapshots(vocabulary, s + [e]) ==
      Snapshots(vocabulary, s) + [AvgRun(vocabulary, s + [e]).head]
  {
    AvgRunSnoc(vocabulary, s, e);
    AvgRunFollows(vocabulary, s + [e]);
    assert (s + [e])[..|s|] == s;
  }

  /** One step keeps the identity for weight d: if c*w - u was the sum so
      far, (c+1)*w' - u' is that sum plus the new weight w'. */
  lemma AvgLearnAccumulates(a: AvgHead, x: FeatureVector, y: int, c: int, d: string, sum: int)
    requires Aligned(a) && Covers(a.head, x) && d in a.u
    requires c * a.head.w[d] - a.u[d] == sum
    ensures (c + 1) * AvgLearn(a, x, y, c).head.w[d] - AvgLearn(a, x, y, c).u[d] ==
      sum + AvgLearn(a, x, y, c).head.w[d]
  {
    var r := AvgLearn(a, x, y, c);
    AvgLearnWeight(a, x, y, c, d);
    Accumulate(c, a.head.w[d], r.head.w[d], a.u[d], r.u[d], sum);
  }

  lemma AvgRunWeightStep(vocabulary: set<string>, s: seq<Example>, e: Example, d: string)
    requires Fits(vocabulary, s + [e]) && d in vocabulary
    requires Fits(vocabulary, s)
    requires (1 + |s|) * AvgRun(vocabulary, s).head.w[d] - AvgRun(vocabulary, s).u[d] ==
      WeightSum(Snapshots(vocabulary, s), d)
    ensures (1 + |s + [e]|) * AvgRun(vocabulary, s + [e]).head.w[d] - AvgRun(vocabulary, s + [e]).u[d] ==
      WeightSum(Snapshots(vocabulary, s + [e]), d)
  {
    var a0 := AvgRun(vocabulary, s);
    AvgRunSnoc(vocabulary, s, e);
    AvgLearnAccumulates(a0, e.x, e.y, 1 + |s|, d, WeightSum(Snapshots(vocabulary, s), d));
    SnapshotsSnoc(vocabulary, s, e);
    var hs := Snapshots(vocabulary, s + [e]);
    assert hs[..|hs| - 1] == Snapshots(vocabulary, s);
    assert 1 + |s + [e]| == (1 + |s|) + 1;
  }

  /** The lazy-averaging identity for weight d: after the examples of s,
      with the counter at 1 + |s|, counter times weight minus cache is the
      sum of that weight over every snapshot. */
  lemma {:induction false} AvgRunWeight(vocabulary: set<string>, s: seq<Example>, d: string)
    requires Fits(vocabulary, s) && d in vocabulary
    ensures (1 + |s|) * AvgRun(vocabulary, s).head.w[d] - AvgRun(vocabulary, s).u[d] ==
      WeightSum(Snapshots(vocabulary, s), d)
  {
    if s == [] {
      var hs := Snapshots(vocabulary, s);
      assert hs[..0] == [];
    } else {
      var n := |s| - 1;
      assert s == s[..n] + [s[n]];
      FitsPrefix(vocabulary, s, n);
      AvgRunWeight(vocabulary, s[..n], d);
      AvgRunWeightStep(vocabulary, s[..n], s[n], d);
    }
  }

  /** One step keeps the identity for the bias. */
  lemma AvgLearnBiasAccumulates(a: AvgHead, x: FeatureVector, y: int, c: int, sum: int)
    requires Aligned(a) && Covers(a.head, x)
    requires c * a.head.b - a.beta == sum
    ensures (c + 1) * AvgLearn(a, x, y, c).head.b - AvgLearn(a, x, y, c).beta ==
      sum + AvgLearn(a, x, y, c).head.b
  {
    var r := AvgLearn(a, x, y, c);
    AvgLearnBias(a, x, y, c);
    Accumulate(c, a.head.b, r.head.b, a.beta, r.beta, sum);
  }

  lemma AvgRunBiasStep(vocabulary: set<string>, s: seq<Example>, e: Example)
    requires Fits(vocabulary, s + [e]) && Fits(vocabulary, s)
    requires (1 + |s|) * AvgRun(vocabulary, s).head.b - AvgRun(vocabulary, s).beta ==
      BiasSum(Snapshots(vocabulary, s))
    ensures (1 + |s + [e]|) * AvgRun(vocabulary, s + [e]).head.b - AvgRun(vocabulary, s + [e]).beta ==
      BiasSum(Snapshots(vocabulary, s + [e]))
  {
    var a0 := AvgRun(vocabulary, s);
    AvgRunSnoc(vocabulary, s, e);
    AvgLearnBiasAccumulates(a0, e.x, e.y, 1 + |s|, BiasSum(Snapshots(vocabulary, s)));
    SnapshotsSnoc(vocabulary, s, e);
    var hs := Snapshots(vocabulary, s + [e]);
    assert hs[..|hs| - 1] == Snapshots(vocabulary, s);
    assert 1 + |s + [e]| == (1 + |s|) + 1;
  }

  /** The lazy-averaging identity for the bias. */
  lemma {:induction false} AvgRunBias(vocabulary: set<string>, s: seq<Example>)
    requires Fits(vocabulary, s)
    ensures (1 + |s|) * AvgRun(vocabulary, s).head.b - AvgRun(vocabulary, s).beta ==
      BiasSum(Snapshots(vocabulary, s))
  {
    if s == [] {
      var hs := Snapshots(vocabulary, s);
      assert hs[..0] == [];
    } else {
      var n := |s| - 1;
      assert s == s[..n] + [s[n]];
      FitsPrefix(vocabulary, s, n);
      AvgRunBias(vocabulary, s[..n]);
      AvgRunBiasStep(vocabulary, s[..n], s[n]);
    }
  }

  /** w - u/c as the source computes it is the mean (c*w - u)/c. */
  lemma MeanFromCache(w: int, u: int, c: int, sum: int)
    requires c > 0 && c * w - u == sum
    ensures w as real - u as real / c as real == sum as real / c as real
  {
    var cr := c as real;
    assert sum as real == cr * w as real - u as real;
    assert (cr * w as real) / cr == w as real;
  }

  /** The final averaging step: every vocabulary weight and the bias less
      their cache divided by the counter. */
  function Average(a: AvgHead, c: int): (r: (map<string, real>, real))
    requires Aligned(a) && c > 0
    ensures r.0.Keys == a.head.w.Keys
  {
    (map d | d in a.head.w :: a.head.w[d] as real - a.u[d] as real / c as real,
     a.head.b as real - a.beta as real / c as real)
  }

  /** Averaging one head after learning from s yields the mean, over all its
      snapshots, of every weight and of the bias. */
  lemma AverageIsMean(vocabulary: set<string>, s: seq<Example>)
    requires Fits(vocabulary, s)
    ensures forall d :: d in vocabulary ==>
      Average(AvgRun(vocabulary, s), 1 + |s|).0[d] == MeanWeight(Snapshots(vocabulary, s), d)
    ensures Average(AvgRun(vocabulary, s), 1 + |s|).1 == MeanBias(Snapshots(vocabulary, s))
  {
    var a := AvgRun(vocabulary, s);
    var hs := Snapshots(vocabulary, s);
    forall d | d in vocabulary
      ensures Average(a, 1 + |s|).0[d] == MeanWeight(hs, d)
    {
      AvgRunWeight(vocabulary, s, d);
      MeanFromCache(a.head.w[d], a.u[d], 1 + |s|, WeightSum(hs, d));
    }
    AvgRunBias(vocabulary, s);
    MeanFromCache(a.head.b, a.beta, 1 + |s|, BiasSum(hs));
  }

  /** Both averaged heads are aligned and keyed by the vocabulary. */
  predicate AvgOnVocabulary(st: AvgState, t: TrainingSet) {
    && Aligned(st.a1) && Aligned(st.a2)
    && st.a1.head.w.Keys == t.vocabulary && st.a2.head.w.Keys == t.vocabulary
  }

  /** The body of the inner loop of trainAveragedPerceptron for one
      identifier: both heads learn the record at the current counter, then
      the counter goes up by one whether or not either head changed. */
  function AvgStep(st: AvgState, t: TrainingSet, id: string): (r: AvgState)
    requires Trainable(t) && AvgOnVocabulary(st, t) && id in t.x
    ensures AvgOnVocabulary(r, t)
  {
    var x := t.x[id];
    AvgState(AvgLearn(st.a1, x, t.y1[id], st.c), AvgLearn(st.a2, x, t.y2[id], st.c), st.c + 1)
  }

  /** One pass of the inner loop over ids, in order. */
  function AvgEpoch(st: AvgState, t: TrainingSet, ids: seq<string>): (r: AvgState)
    requires Trainable(t) && AvgOnVocabulary(st, t) && Known(t, ids)
    ensures AvgOnVocabulary(r, t)
    decreases |ids|
  {
    if ids == [] then st
    else
      var n := |ids| - 1;
      AvgStep(AvgEpoch(st, t, ids[..n]), t, ids[n])
  }

  /** The training loop of trainAveragedPerceptron for a number of epochs,
      before the final averaging: everything starts at zero on the
      vocabulary, whatever an earlier run left, and the counter at 1. */
  function AvgLoop(t: TrainingSet, epochs: nat): (r: AvgState)
    requires Trainable(t)
    ensures AvgOnVocabulary(r, t)
  {
    if epochs == 0 then AvgState(AvgZero(t.vocabulary), AvgZero(t.vocabulary), 1)
    else
      AvgEpoch(AvgLoop(t, epochs - 1), t, t.identifiers)
  }

  /** One averaged head alone through a pass over ids with the labels of
      y, the k-th record seen at counter c + k. */
  function AvgHeadEpoch(a: AvgHead, t: TrainingSet, ids: seq<string>, y: map<string, int>, c: int): (r: AvgHead)
    requires Trainable(t) && t.x.Keys <= y.Keys && Known(t, ids)
    requires Aligned(a) && a.head.w.Keys == t.vocabulary
    ensures Aligned(r) && r.head.w.Keys == t.vocabulary
    decreases |ids|
  {
    if ids == [] then a
    else
      var n := |ids| - 1;
      AvgLearn(AvgHeadEpoch(a, t, ids[..n], y, c), t.x[ids[n]], y[ids[n]], c + n)
  }

  lemma AvgHeadEpochLast(a: AvgHead, t: TrainingSet, ids: seq<string>, y: map<string, int>, c: int)
    requires Trainable(t) && t.x.Keys <= y.Keys && Known(t, ids) && ids != []
    requires Aligned(a) && a.head.w.Keys == t.vocabulary
    ensures Known(t, ids[..|ids| - 1]) && ids[|ids| - 1] in t.x
    ensures AvgHeadEpoch(a, t, ids, y, c) == AvgLearn(AvgHeadEpoch(a, t, ids[..|ids| - 1], y, c),
      t.x[ids[|ids| - 1]], y[ids[|ids| - 1]], c + |ids| - 1)
  {
  }

  /** An epoch moves the two averaged heads independently, each at the
      shared counter, and advances the counter once per record. */
  lemma {:induction false} AvgEpochSplits(st: AvgState, t: TrainingSet, ids: seq<string>)
    requires Trainable(t) && AvgOnVocabulary(st, t) && Known(t, ids)
    ensures AvgEpoch(st, t, ids) == AvgState(
      AvgHeadEpoch(st.a1, t, ids, t.y1, st.c), AvgHeadEpoch(st.a2, t, ids, t.y2, st.c), st.c + |ids|)
    decreases |ids|
  {
    if ids != [] {
      AvgEpochSplits(st, t, ids[..|ids| - 1]);
    }
  }

  /** The counter is 1 plus the number of records visited so far. */
  lemma {:induction false} AvgLoopCounter(t: TrainingSet, epochs: nat)
    requires Trainable(t)
    ensures AvgLoop(t, epochs).c == 1 + |Schedule(t.identifiers, epochs)|
  {
    if epochs > 0 {
      AvgLoopCounter(t, epochs - 1);
      AvgEpochSplits(AvgLoop(t, epochs - 1), t, t.identifiers);
    }
  }

  /** The counter ends at 1 plus the number of epochs times the number of
      identifiers: it goes up once per record, mistake or not. */
  lemma AvgFinalCounter(t: TrainingSet, epochs: nat)
    requires Trainable(t)
    ensures AvgLoop(t, epochs).c == 1 + epochs * |t.identifiers|
  {
    AvgLoopCounter(t, epochs);
    ScheduleLength(t.identifiers, epochs);
  }

  /** A head that has learnt from seen, with the counter at the next
      record, continues through a pass over ids exactly as the run over
      seen followed by the pass's records. */
  lemma AvgHeadEpochRunStep(t: TrainingSet, ids: seq<string>, y: map<string, int>, seen: seq<Example>,
                            before: seq<Example>, e: Example)
    requires Trainable(t) && t.x.Keys <= y.Keys && Known(t, ids) && ids != []
    requires e == Example(t.x[ids[|ids| - 1]], y[ids[|ids| - 1]])
    requires Fits(t.vocabulary, seen) && |before| == |seen| + |ids| - 1
    requires Fits(t.vocabulary, before + [e])
    requires AvgHeadEpoch(AvgRun(t.vocabulary, seen), t, ids[..|ids| - 1], y, 1 + |seen|) ==
      AvgRun(t.vocabulary, before)
    ensures AvgHeadEpoch(AvgRun(t.vocabulary, seen), t, ids, y, 1 + |seen|) == AvgRun(t.vocabulary, before + [e])
  {
    AvgRunSnoc(t.vocabulary, before, e);
    AvgHeadEpochLast(AvgRun(t.vocabulary, seen), t, ids, y, 1 + |seen|);
  }

  lemma {:induction false} AvgHeadEpochRun(t: TrainingSet, ids: seq<string>, y: map<string, int>, seen: seq<Example>)
    requires Trainable(t) && t.x.Keys <= y.Keys && Known(t, ids)
    requires Fits(t.vocabulary, seen) && Fits(t.vocabulary, seen + Stream(t, ids, y))
    ensures AvgHeadEpoch(AvgRun(t.vocabulary, seen), t, ids, y, 1 + |seen|) ==
      AvgRun(t.vocabulary, seen + Stream(t, ids, y))
    decreases |ids|
  {
    if ids != [] {
      var n := |ids| - 1;
      StreamSnoc(t, ids, y);
      var e := Example(t.x[ids[n]], y[ids[n]]);
      var before := seen + Stream(t, ids[..n], y);
      assert seen + Stream(t, ids, y) == before + [e];
      AvgRunSnoc(t.vocabulary, before, e);
      AvgHeadEpochRun(t, ids[..n], y, seen);
      AvgHeadEpochRunStep(t, ids, y, seen, before, e);
    } else {
      assert seen + Stream(t, ids, y) == seen;
    }
  }

  /** One more epoch carries a head that has learnt from the records of
      before, with the counter at the next record, to the head that has
      learnt from before followed by the epoch's records. */
  lemma AvgLoopHeadStep(t: TrainingSet, y: map<string, int>, epochs: nat, a: AvgHead, c: int)
    requires Trainable(t) && t.x.Keys <= y.Keys && epochs > 0
    requires a == AvgRun(t.vocabulary, Examples(t, epochs - 1, y))
    requires c == 1 + |Schedule(t.identifiers, epochs - 1)|
    ensures AvgHeadEpoch(a, t, t.identifiers, y, c) == AvgRun(t.vocabulary, Examples(t, epochs, y))
  {
    ExamplesStep(t, epochs, y);
    AvgHeadEpochRun(t, t.identifiers, y, Examples(t, epochs - 1, y));
  }

  /** The first averaged head after training is the averaged run over the
      scheduled records with the true/fake labels. */
  lemma {:induction false} AvgLoopFirstHead(t: TrainingSet, epochs: nat)
    requires Trainable(t)
    ensures AvgLoop(t, epochs).a1 == AvgRun(t.vocabulary, Examples(t, epochs, t.y1))
  {
    if epochs > 0 {
      var st := AvgLoop(t, epochs - 1);
      AvgLoopFirstHead(t, epochs - 1);
      AvgLoopCounter(t, epochs - 1);
      AvgEpochSplits(st, t, t.identifiers);
      AvgLoopHeadStep(t, t.y1, epochs, st.a1, st.c);
    }
  }

  /** The second averaged head after training is the averaged run over the
      scheduled records with the pos/neg labels. */
  lemma {:induction false} AvgLoopSecondHead(t: TrainingSet, epochs: nat)
    requires Trainable(t)
    ensures AvgLoop(t, epochs).a2 == AvgRun(t.vocabulary, Examples(t, epochs, t.y2))
  {
    if epochs > 0 {
      var st := AvgLoop(t, epochs - 1);
      AvgLoopSecondHead(t, epochs - 1);
      AvgLoopCounter(t, epochs - 1);
      AvgEpochSplits(st, t, t.identifiers);
      AvgLoopHeadStep(t, t.y2, epochs, st.a2, st.c);
    }
  }

  /** Before averaging, the weights and biases of the averaged trainer are
      those of the vanilla trainer run for the same number of epochs. */
  lemma AvgLoopFollowsVanilla(t: TrainingSet, epochs: nat)
    requires Trainable(t)
    ensures AvgLoop(t, epochs).a1.head == Train(t, epochs).h1
    ensures AvgLoop(t, epochs).a2.head == Train(t, epochs).h2
  {
    AvgLoopFirstHead(t, epochs);
    AvgLoopSecondHead(t, epochs);
    TrainFirstHead(t, epochs);
    TrainSecondHead(t, epochs);
    AvgRunFollows(t.vocabulary, Examples(t, epochs, t.y1));
    AvgRunFollows(t.vocabulary, Examples(t, epochs, t.y2));
  }

  /** trainAveragedPerceptron: the loop, then every vocabulary weight and
      each bias less its cache divided by the final counter. */
  function AveragedModel(t: TrainingSet, epochs: nat): (m: Model)
    requires Trainable(t)
    ensures m.vocabulary == t.vocabulary
    ensures m.w1.Keys == t.vocabulary && m.w2.Keys == t.vocabulary
    ensures Complete(m)
  {
    var st := AvgLoop(t, epochs);
    AvgLoopCounter(t, epochs);
    var first := Average(st.a1, st.c);
    var second := Average(st.a2, st.c);
    Model(t.vocabulary, first.0, first.1, second.0, second.1)
  }

  /** The averaged model's first head is the mean, over the zero head and
      the vanilla head after every scheduled record, of the true/fake
      weights and bias. */
  lemma AveragedModelFirstHead(t: TrainingSet, epochs: nat)
    requires Trainable(t)
    ensures forall d :: d in t.vocabulary ==>
      AveragedModel(t, epochs).w1[d] ==
      MeanWeight(Snapshots(t.vocabulary, Examples(t, epochs, t.y1)), d)
    ensures AveragedModel(t, epochs).b1 ==
      MeanBias(Snapshots(t.vocabulary, Examples(t, epochs, t.y1)))
  {
    var st := AvgLoop(t, epochs);
    AvgLoopFirstHead(t, epochs);
    AvgLoopCounter(t, epochs);
    var s := Examples(t, epochs, t.y1);
    assert st.a1 == AvgRun(t.vocabulary, s) && st.c == 1 + |s|;
    assert AveragedModel(t, epochs).w1 == Average(st.a1, st.c).0;
    assert AveragedModel(t, epochs).b1 == Average(st.a1, st.c).1;
    AverageIsMean(t.vocabulary, s);
  }


  /** The same for the second head and the pos/neg labels. */
  lemma AveragedModelSecondHead(t: TrainingSet, epochs: nat)
    requires Trainable(t)
    ensures forall d :: d in t.vocabulary ==>
      AveragedModel(t, epochs).w2[d] ==
      MeanWeight(Snapshots(t.vocabulary, Examples(t, epochs, t.y2)), d)
    ensures AveragedModel(t, epochs).b2 ==
      MeanBias(Snapshots(t.vocabulary, Examples(t, epochs, t.y2)))
  {
    var st := AvgLoop(t, epochs);
    AvgLoopSecondHead(t, epochs);
    AvgLoopCounter(t, epochs);
    var s := Examples(t, epochs, t.y2);
    assert st.a2 == AvgRun(t.vocabulary, s) && st.c == 1 + |s|;
    assert AveragedModel(t, epochs).w2 == Average(st.a2, st.c).0;
    assert AveragedModel(t, epochs).b2 == Average(st.a2, st.c).1;
    AverageIsMean(t.vocabulary, s);
  }

}
