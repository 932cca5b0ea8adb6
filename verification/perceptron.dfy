/** The vanilla perceptron of the trainer: two independent heads (true/fake
    and pos/neg), each a weight per vocabulary word and a bias, trained by
    mistake-driven updates in integer arithmetic. */
module Perceptron {
  import opened Sequences
  import opened Features
  import opened Corpus

  /** One head: a weight per vocabulary word and a bias. */
  datatype Head = Head(w: map<string, int>, b: int)

  /** Both heads; h1 learns the true/fake label, h2 the pos/neg label. */
  datatype Heads = Heads(h1: Head, h2: Head)

  /** The trained parameters as the model file holds them: the vocabulary
      and, per head, the weights and the bias. */
  datatype Model = Model(
    vocabulary: set<string>,
    w1: map<string, real>, b1: real,
    w2: map<string, real>, b2: real)

  /** The model holds a weight for every vocabulary word in both heads, as
      every model the trainer writes does; the classifier looks up w1[d] and
      w2[d] for each feature d of a test record that is in the vocabulary. */
  predicate Complete(m: Model) {
    m.vocabulary <= m.w1.Keys && m.vocabulary <= m.w2.Keys
  }

  /** Every weight of the vocabulary 0 and the bias 0. */
  function Zero(vocabulary: set<string>): (h: Head)
    ensures h.w.Keys == vocabulary && h.b == 0
    ensures forall d :: d in h.w ==> h.w[d] == 0
  {
    Head(map d | d in vocabulary :: 0, 0)
  }

  /** The feature vector is valid and each of its features has a weight. */
  predicate Covers(h: Head, x: FeatureVector) {
    Valid(x) && x.count.Keys <= h.w.Keys
  }

  /** The sum of w[d] * count[d] over keys. */
  function Dot(w: map<string, int>, count: map<string, int>, keys: seq<string>): int
    requires forall d :: d in keys ==> d in w && d in count
  {
    if keys == [] then 0 else w[keys[0]] * count[keys[0]] + Dot(w, count, keys[1..])
  }

  /** The sum of count[d] * count[d] over keys. */
  function SquareSum(count: map<string, int>, keys: seq<string>): int
    requires forall d :: d in keys ==> d in count
  {
    if keys == [] then 0 else count[keys[0]] * count[keys[0]] + SquareSum(count, keys[1..])
  }

  /** The sum of w[d] * count[d] + b over keys, term by term as the
      training loop writes it. */
  function ActivationOver(h: Head, count: map<string, int>, keys: seq<string>): int
    requires forall d :: d in keys ==> d in h.w && d in count
  {
    if keys == [] then 0
    else h.w[keys[0]] * count[keys[0]] + h.b + ActivationOver(h, count, keys[1..])
  }

  /** The activation of the training loop over the features of x. */
  function Activation(h: Head, x: FeatureVector): int
    requires Covers(h, x)
  {
    ActivationOver(h, x.count, x.keys)
  }

  lemma {:induction false} ActivationOverBias(h: Head, count: map<string, int>, keys: seq<string>)
    requires forall d :: d in keys ==> d in h.w && d in count
    ensures ActivationOver(h, count, keys) == Dot(h.w, count, keys) + |keys| * h.b
  {
    if keys != [] {
      ActivationOverBias(h, count, keys[1..]);
    }
  }

  /** The bias enters the activation once per distinct feature of x, not
      once per record. */
  lemma ActivationBias(h: Head, x: FeatureVector)
    requires Covers(h, x)
    ensures Activation(h, x) == Dot(h.w, x.count, x.keys) + |x.keys| * h.b
    ensures x.keys == [] ==> Activation(h, x) == 0
  {
    ActivationOverBias(h, x.count, x.keys);
  }

  /** A record is a mistake when its label and the activation do not agree
      strictly in sign; a zero activation is a mistake either way. */
  predicate Mistake(y: int, a: int) {
    y * a <= 0
  }

  /** w[d] += y * count[d] for each d of keys, in order. */
  function AddScaled(w: map<string, int>, count: map<string, int>, keys: seq<string>, y: int): (r: map<string, int>)
    requires forall d :: d in keys ==> d in w && d in count
    ensures r.Keys == w.Keys
  {
    if keys == [] then w
    else AddScaled(w[keys[0] := w[keys[0]] + y * count[keys[0]]], count, keys[1..], y)
  }

  /** With distinct keys each listed weight moves by y times its count and
      every other weight is left alone. */
  lemma {:induction false} AddScaledSpec(w: map<string, int>, count: map<string, int>, keys: seq<string>, y: int)
    requires Distinct(keys)
    requires forall d :: d in keys ==> d in w && d in count
    ensures forall d :: d in w ==>
      AddScaled(w, count, keys, y)[d] == if d in keys then w[d] + y * count[d] else w[d]
  {
    if keys != [] {
      var k := keys[0];
      var w' := w[k := w[k] + y * count[k]];
      assert Distinct(keys[1..]) by {
        forall i, j | 0 <= i < j < |keys[1..]| ensures keys[1..][i] != keys[1..][j] {
          assert keys[1..][i] == keys[i + 1] && keys[1..][j] == keys[j + 1];
        }
      }
      assert k !in keys[1..] by {
        forall i | 0 <= i < |keys[1..]| ensures keys[1..][i] != k {
          assert keys[1..][i] == keys[i + 1];
        }
      }
      AddScaledSpec(w', count, keys[1..], y);
      forall d | d in w
        ensures AddScaled(w, count, keys, y)[d] == if d in keys then w[d] + y * count[d] else w[d]
      {
        assert d in keys <==> d == k || d in keys[1..];
      }
    }
  }

  /** The update of one head on a mistake: w[d] += y * x[d] for each
      feature d of x, then b += y. */
  function Update(h: Head, x: FeatureVector, y: int): (r: Head)
    requires Covers(h, x)
    ensures r.w.Keys == h.w.Keys
  {
    Head(AddScaled(h.w, x.count, x.keys, y), h.b + y)
  }

  /** An update moves exactly the weights of the features of x, each by y
      times its count, and the bias by y. */
  lemma UpdateSpec(h: Head, x: FeatureVector, y: int)
    requires Covers(h, x)
    ensures Update(h, x, y).b == h.b + y
    ensures forall d :: d in h.w ==>
      Update(h, x, y).w[d] == if d in x.count then h.w[d] + y * x.count[d] else h.w[d]
  {
    AddScaledSpec(h.w, x.count, x.keys, y);
  }

  lemma {:induction false} DotShifted(w: map<string, int>, w': map<string, int>, count: map<string, int>,
                                      keys: seq<string>, y: int)
    requires forall d :: d in keys ==> d in w && d in w' && d in count
    requires forall d :: d in keys ==> w'[d] == w[d] + y * count[d]
    ensures Dot(w', count, keys) == Dot(w, count, keys) + y * SquareSum(count, keys)
  {
    if keys != [] {
      DotShifted(w, w', count, keys[1..], y);
      var k := keys[0];
      assert w'[k] * count[k] == w[k] * count[k] + y * (count[k] * count[k]);
    }
  }

  /** The arithmetic step of UpdateProgress. */
  lemma Margin(dot: int, dot': int, b: int, s: int, n: int, y: int)
    requires y == 1 || y == -1
    requires dot' == dot + y * s
    ensures y * (dot' + n * (b + y)) == y * (dot + n * b) + s + n
  {
    if y == 1 {
      assert n * (b + 1) == n * b + n;
    } else {
      assert n * (b - 1) == n * b - n;
    }
  }

  /** An update on a record with label 1 or -1 raises y times the record's
      activation by the sum of the squared counts plus the number of
      features: the head moves towards the label. */
  lemma UpdateProgress(h: Head, x: FeatureVector, y: int)
    requires Covers(h, x) && (y == 1 || y == -1)
    ensures y * Activation(Update(h, x, y), x) ==
      y * Activation(h, x) + SquareSum(x.count, x.keys) + |x.keys|
  {
    var h' := Update(h, x, y);
    UpdateSpec(h, x, y);
    ActivationBias(h, x);
    ActivationBias(h', x);
    DotShifted(h.w, h'.w, x.count, x.keys, y);
    Margin(Dot(h.w, x.count, x.keys), Dot(h'.w, x.count, x.keys), h.b, SquareSum(x.count, x.keys), |x.keys|, y);
  }

  /** One head's response to one record: update on a mistake, otherwise
      keep the head as it is. */
  function Learn(h: Head, x: FeatureVector, y: int): (r: Head)
    requires Covers(h, x)
    ensures r.w.Keys == h.w.Keys
  {
    if Mistake(y, Activation(h, x)) then Update(h, x, y) else h
  }

  /** A mistake, ties included, moves every weight of x by y times its count
      and the bias by y, and no other weight; a correct answer changes
      nothing. */
  lemma LearnSpec(h: Head, x: FeatureVector, y: int)
    requires Covers(h, x)
    ensures y * Activation(h, x) <= 0 ==> Learn(h, x, y).b == h.b + y
    ensures y * Activation(h, x) <= 0 ==> forall d :: d in h.w ==>
      Learn(h, x, y).w[d] == if d in x.count then h.w[d] + y * x.count[d] else h.w[d]
    ensures y * Activation(h, x) > 0 ==> Learn(h, x, y) == h
  {
    UpdateSpec(h, x, y);
  }

  /** A labelled record seen by a single head. */
  datatype Example = Example(x: FeatureVector, y: int)

  /** Every example is valid and its features lie in keys. Written as a
      recursion on the last example, the same shape as Run, rather than as a
      quantifier over indices: each induction step over a run then unfolds
      one step of Fits and no quantifier has to be instantiated. */
  predicate Fits(keys: set<string>, s: seq<Example>) {
    if s == [] then true
    else
      var n := |s| - 1;
      Fits(keys, s[..n]) && Valid(s[n].x) && s[n].x.count.Keys <= keys
  }

  lemma {:induction false} FitsPrefix(keys: set<string>, s: seq<Example>, n: nat)
    requires Fits(keys, s) && n <= |s|
    ensures Fits(keys, s[..n])
  {
    if n < |s| {
      var m := |s| - 1;
      FitsPrefix(keys, s[..m], n);
      assert s[..m][..n] == s[..n];
    } else {
      assert s[..n] == s;
    }
  }

  /** A concatenation fits exactly when both parts do. */
  lemma {:induction false} FitsAppend(keys: set<string>, s: seq<Example>, t: seq<Example>)
    ensures Fits(keys, s + t) <==> Fits(keys, s) && Fits(keys, t)
  {
    if t == [] {
      assert s + t == s;
    } else {
      var m := |t| - 1;
      FitsAppend(keys, s, t[..m]);
      assert (s + t)[..|s + t| - 1] == s + t[..m];
      assert (s + t)[|s + t| - 1] == t[m];
    }
  }

  /** A single head learning from the examples of s in order. */
  function Run(h: Head, s: seq<Example>): (r: Head)
    requires Fits(h.w.Keys, s)
    ensures r.w.Keys == h.w.Keys
  {
    if s == [] then h
    else
      var n := |s| - 1;
      FitsPrefix(h.w.Keys, s, n);
      var h' := Run(h, s[..n]);
      Learn(h', s[n].x, s[n].y)
  }

  /** Learning from s and then from t is learning from s + t. */
  lemma {:induction false} RunAppend(h: Head, s: seq<Example>, t: seq<Example>)
    requires Fits(h.w.Keys, s + t)
    ensures Fits(h.w.Keys, s) && Fits(Run(h, s).w.Keys, t)
    ensures Run(h, s + t) == Run(Run(h, s), t)
  {
    FitsAppend(h.w.Keys, s, t);
    if t != [] {
      var n := |t| - 1;
      assert (s + t)[..|s + t| - 1] == s + t[..n];
      assert (s + t)[|s + t| - 1] == t[n];
      FitsAppend(h.w.Keys, s, t[..n]);
      RunAppend(h, s, t[..n]);
    } else {
      assert s + t == s;
    }
  }

  /** A head that makes no mistake on any example of s is what learning
      from s returns. */
  lemma {:induction false} RunWithoutMistakes(h: Head, s: seq<Example>)
    requires Fits(h.w.Keys, s)
    requires forall i :: 0 <= i < |s| ==> Covers(h, s[i].x) && !Mistake(s[i].y, Activation(h, s[i].x))
    ensures Run(h, s) == h
  {
    if s != [] {
      var n := |s| - 1;
      FitsPrefix(h.w.Keys, s, n);
      RunWithoutMistakes(h, s[..n]);
    }
  }

  /** The record with identifier id may be learnt by both heads. */
  predicate Ready(p: Heads, t: TrainingSet, id: string) {
    id in t.x && id in t.y1 && id in t.y2 && Covers(p.h1, t.x[id]) && Covers(p.h2, t.x[id])
  }

  /** The body of the inner training loop for one identifier: each head
      learns the record with its own label. */
  function Step(p: Heads, t: TrainingSet, id: string): (r: Heads)
    requires Ready(p, t, id)
    ensures r.h1.w.Keys == p.h1.w.Keys && r.h2.w.Keys == p.h2.w.Keys
  {
    Heads(Learn(p.h1, t.x[id], t.y1[id]), Learn(p.h2, t.x[id], t.y2[id]))
  }

  /** Both heads' weights are keyed by exactly the vocabulary. */
  predicate OnVocabulary(p: Heads, t: TrainingSet) {
    p.h1.w.Keys == t.vocabulary && p.h2.w.Keys == t.vocabulary
  }

  /** Every identifier of ids has a record. Recursive on the last
      identifier for the same reason as Fits; KnownAll derives it from the
      quantified form. */
  predicate Known(t: TrainingSet, ids: seq<string>) {
    if ids == [] then true
    else
      var n := |ids| - 1;
      Known(t, ids[..n]) && ids[n] in t.x
  }

  lemma {:induction false} KnownAll(t: TrainingSet, ids: seq<string>)
    requires forall id :: id in ids ==> id in t.x
    ensures Known(t, ids)
  {
    if ids != [] {
      var n := |ids| - 1;
      assert forall id :: id in ids[..n] ==> id in ids;
      KnownAll(t, ids[..n]);
    }
  }

  /** A concatenation of known identifiers is known. */
  lemma {:induction false} KnownAppend(t: TrainingSet, a: seq<string>, b: seq<string>)
    requires Known(t, a) && Known(t, b)
    ensures Known(t, a + b)
  {
    if b == [] {
      assert a + b == a;
    } else {
      var m := |b| - 1;
      KnownAppend(t, a, b[..m]);
      assert (a + b)[..|a + b| - 1] == a + b[..m];
      assert (a + b)[|a + b| - 1] == b[m];
    }
  }

  /** One pass of the inner training loop over ids, in order. */
  function Epoch(p: Heads, t: TrainingSet, ids: seq<string>): (r: Heads)
    requires Trainable(t) && OnVocabulary(p, t) && Known(t, ids)
    ensures OnVocabulary(r, t)
    decreases |ids|
  {
    if ids == [] then p
    else
      var n := |ids| - 1;
      var q := Epoch(p, t, ids[..n]);
      Step(q, t, ids[n])
  }

  /** What the training loops rely on: every identifier has a record, both
      labels exist for every record, and every record is a valid vector over
      the vocabulary. */
  predicate Trainable(t: TrainingSet) {
    && Known(t, t.identifiers)
    && t.y1.Keys == t.x.Keys && t.y2.Keys == t.x.Keys
    && forall id :: id in t.x ==> Valid(t.x[id]) && t.x[id].count.Keys <= t.vocabulary
  }

  /** Parsed training data is trainable. */
  lemma WellFormedTrainable(t: TrainingSet)
    requires WellFormed(t)
    ensures Trainable(t)
  {
    KnownAll(t, t.identifiers);
  }

  /** trainVanillaPerceptron for a number of epochs: both heads start at
      zero on the vocabulary and each epoch visits the identifiers in
      order, repeats included. */
  function Train(t: TrainingSet, epochs: nat): (r: Heads)
    requires Trainable(t)
    ensures OnVocabulary(r, t)
  {
    if epochs == 0 then Heads(Zero(t.vocabulary), Zero(t.vocabulary))
    else
      Epoch(Train(t, epochs - 1), t, t.identifiers)
  }

  /** Once an epoch leaves the heads unchanged, further epochs do too. */
  lemma {:induction false} TrainConverged(t: TrainingSet, epochs: nat, more: nat)
    requires Trainable(t)
    requires Epoch(Train(t, epochs), t, t.identifiers) == Train(t, epochs)
    ensures Train(t, epochs + more) == Train(t, epochs)
  {
    if more > 0 {
      TrainConverged(t, epochs, more - 1);
    }
  }

  /** The examples one head sees for ids, with labels from y. */
  function Stream(t: TrainingSet, ids: seq<string>, y: map<string, int>): (s: seq<Example>)
    requires Known(t, ids) && t.x.Keys <= y.Keys
    ensures |s| == |ids|
  {
    if ids == [] then []
    else
      var n := |ids| - 1;
      KnownPrefix(t, ids, n);
      Stream(t, ids[..n], y) + [Example(t.x[ids[n]], y[ids[n]])]
  }

  lemma {:induction false} KnownPrefix(t: TrainingSet, ids: seq<string>, n: nat)
    requires Known(t, ids) && n <= |ids|
    ensures Known(t, ids[..n])
  {
    if n < |ids| {
      var m := |ids| - 1;
      KnownPrefix(t, ids[..m], n);
      assert ids[..m][..n] == ids[..n];
    } else {
      assert ids[..n] == ids;
    }
  }

  /** The identifiers visited by the given number of epochs, in order. */
  function Schedule(ids: seq<string>, epochs: nat): seq<string>
  {
    if epochs == 0 then [] else Schedule(ids, epochs - 1) + ids
  }

  /** The schedule holds each epoch's identifiers once per epoch. */
  lemma {:induction false} ScheduleLength(ids: seq<string>, epochs: nat)
    ensures |Schedule(ids, epochs)| == epochs * |ids|
  {
    if epochs > 0 {
      ScheduleLength(ids, epochs - 1);
      assert (epochs - 1) * |ids| + |ids| == epochs * |ids|;
    }
  }

  lemma {:induction false} StreamAppend(t: TrainingSet, a: seq<string>, b: seq<string>, y: map<string, int>)
    requires Known(t, a) && Known(t, b) && t.x.Keys <= y.Keys
    ensures Known(t, a + b)
    ensures Stream(t, a + b, y) == Stream(t, a, y) + Stream(t, b, y)
  {
    KnownAppend(t, a, b);
    if b == [] {
      assert a + b == a;
    } else {
      var n := |b| - 1;
      KnownPrefix(t, b, n);
      StreamAppend(t, a, b[..n], y);
      assert (a + b)[..|a + b| - 1] == a + b[..n];
      assert (a + b)[|a + b| - 1] == b[n];
    }
  }

  lemma {:induction false} StreamFits(t: TrainingSet, ids: seq<string>, y: map<string, int>)
    requires Trainable(t) && Known(t, ids) && t.x.Keys <= y.Keys
    ensures Fits(t.vocabulary, Stream(t, ids, y))
  {
    if ids != [] {
      var n := |ids| - 1;
      KnownPrefix(t, ids, n);
      StreamFits(t, ids[..n], y);
      var s := Stream(t, ids, y);
      assert s[..|s| - 1] == Stream(t, ids[..n], y);
    }
  }

  lemma {:induction false} ScheduleKnown(t: TrainingSet, epochs: nat)
    requires Trainable(t)
    ensures Known(t, Schedule(t.identifiers, epochs))
  {
    if epochs > 0 {
      ScheduleKnown(t, epochs - 1);
      KnownAppend(t, Schedule(t.identifiers, epochs - 1), t.identifiers);
    }
  }

  lemma StreamSnoc(t: TrainingSet, ids: seq<string>, y: map<string, int>)
    requires Known(t, ids) && t.x.Keys <= y.Keys && ids != []
    ensures Known(t, ids[..|ids| - 1])
    ensures Stream(t, ids, y) ==
      Stream(t, ids[..|ids| - 1], y) + [Example(t.x[ids[|ids| - 1]], y[ids[|ids| - 1]])]
  {
    KnownPrefix(t, ids, |ids| - 1);
  }

  /** The examples one head sees over the given number of epochs: the
      records of the identifiers in training order, epoch after epoch, with
      labels from y. */
  function Examples(t: TrainingSet, epochs: nat, y: map<string, int>): (s: seq<Example>)
    requires Trainable(t) && t.x.Keys <= y.Keys
    ensures Fits(t.vocabulary, s)
  {
    ScheduleKnown(t, epochs);
    StreamFits(t, Schedule(t.identifiers, epochs), y);
    Stream(t, Schedule(t.identifiers, epochs), y)
  }

  /** One more epoch appends the records of the identifiers, in order, to
      the examples a head sees. */
  lemma ExamplesStep(t: TrainingSet, epochs: nat, y: map<string, int>)
    requires Trainable(t) && t.x.Keys <= y.Keys && epochs > 0
    ensures Examples(t, epochs, y) == Examples(t, epochs - 1, y) + Stream(t, t.identifiers, y)
    ensures |Examples(t, epochs - 1, y)| == |Schedule(t.identifiers, epochs - 1)|
  {
    ScheduleKnown(t, epochs - 1);
    ScheduleKnown(t, epochs);
    StreamAppend(t, Schedule(t.identifiers, epochs - 1), t.identifiers, y);
  }

  /** An epoch moves the first head exactly as that head alone learning the
      epoch's records with the true/fake labels. */
  lemma {:induction false} EpochFirstHead(p: Heads, t: TrainingSet, ids: seq<string>)
    requires Trainable(t) && OnVocabulary(p, t) && Known(t, ids)
    ensures Fits(t.vocabulary, Stream(t, ids, t.y1))
    ensures Epoch(p, t, ids).h1 == Run(p.h1, Stream(t, ids, t.y1))
    decreases |ids|
  {
    StreamFits(t, ids, t.y1);
    if ids != [] {
      var n := |ids| - 1;
      EpochFirstHead(p, t, ids[..n]);
      StreamSnoc(t, ids, t.y1);
    }
  }

  /** An epoch moves the second head exactly as that head alone learning
      the epoch's records with the pos/neg labels. */
  lemma {:induction false} EpochSecondHead(p: Heads, t: TrainingSet, ids: seq<string>)
    requires Trainable(t) && OnVocabulary(p, t) && Known(t, ids)
    ensures Fits(t.vocabulary, Stream(t, ids, t.y2))
    ensures Epoch(p, t, ids).h2 == Run(p.h2, Stream(t, ids, t.y2))
    decreases |ids|
  {
    StreamFits(t, ids, t.y2);
    if ids != [] {
      var n := |ids| - 1;
      EpochSecondHead(p, t, ids[..n]);
      StreamSnoc(t, ids, t.y2);
    }
  }

  /** The first head of the trained pair is that head alone learning, from
      zero, the scheduled records with the true/fake labels. */
  lemma {:induction false} TrainFirstHead(t: TrainingSet, epochs: nat)
    requires Trainable(t)
    ensures Train(t, epochs).h1 == Run(Zero(t.vocabulary), Examples(t, epochs, t.y1))
  {
    if epochs > 0 {
      var p := Train(t, epochs - 1);
      TrainFirstHead(t, epochs - 1);
      assert Train(t, epochs) == Epoch(p, t, t.identifiers);
      EpochFirstHead(p, t, t.identifiers);
      ExamplesStep(t, epochs, t.y1);
      RunAppend(Zero(t.vocabulary), Examples(t, epochs - 1, t.y1), Stream(t, t.identifiers, t.y1));
    }
  }

  /** The second head of the trained pair is that head alone learning, from
      zero, the scheduled records with the pos/neg labels. */
  lemma {:induction false} TrainSecondHead(t: TrainingSet, epochs: nat)
    requires Trainable(t)
    ensures Train(t, epochs).h2 == Run(Zero(t.vocabulary), Examples(t, epochs, t.y2))
  {
    if epochs > 0 {
      var p := Train(t, epochs - 1);
      TrainSecondHead(t, epochs - 1);
      assert Train(t, epochs) == Epoch(p, t, t.identifiers);
      EpochSecondHead(p, t, t.identifiers);
      ExamplesStep(t, epochs, t.y2);
      RunAppend(Zero(t.vocabulary), Examples(t, epochs - 1, t.y2), Stream(t, t.identifiers, t.y2));
    }
  }

  /** An integer head as the model file's numbers. */
  function Reals(w: map<string, int>): (r: map<string, real>)
    ensures r.Keys == w.Keys
    ensures forall d :: d in r ==> r[d] == w[d] as real
  {
    map d | d in w :: w[d] as real
  }

  /** The vanilla model written after training. */
  function VanillaModel(t: TrainingSet, epochs: nat): (m: Model)
    requires Trainable(t)
    ensures m.vocabulary == t.vocabulary
    ensures m.w1.Keys == t.vocabulary && m.w2.Keys == t.vocabulary
    ensures Complete(m)
  {
    var p := Train(t, epochs);
    Model(t.vocabulary, Reals(p.h1.w), p.h1.b as real, Reals(p.h2.w), p.h2.b as real)
  }
}
