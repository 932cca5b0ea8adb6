/** The classifier: the activation of each test record under a model read
    from the model file, the two labels it decides, and the output line
    written for each identifier. Features the model's vocabulary does not
    know are skipped, bias included. */
module Classifier {
  import opened Text
  import opened Features
  import opened Corpus
  import opened Perceptron

  /** The activation loop of classify for one head: w[d] * count[d] + b
      for each feature d of keys, in order, that is in the vocabulary. The
      keys of a record all have a count, so the lookup never misses. */
  function Score(vocabulary: set<string>, w: map<string, real>, b: real,
                 count: map<string, int>, keys: seq<string>): real
    requires vocabulary <= w.Keys
  {
    if keys == [] then 0.0
    else
      (if keys[0] in vocabulary then w[keys[0]] * Get(count, keys[0]) as real + b else 0.0)
      + Score(vocabulary, w, b, count, keys[1..])
  }

  /** Reference definition: the features of keys the vocabulary knows, in
      order. */
  function InVocabulary(vocabulary: set<string>, keys: seq<string>): (r: seq<string>)
    ensures forall d :: d in r ==> d in keys && d in vocabulary
  {
    if keys == [] then []
    else
      (if keys[0] in vocabulary then [keys[0]] else []) + InVocabulary(vocabulary, keys[1..])
  }

  /** The features kept are exactly those of keys the vocabulary knows. */
  lemma {:induction false} InVocabularyMembers(vocabulary: set<string>, keys: seq<string>)
    ensures forall d :: d in InVocabulary(vocabulary, keys) <==> d in keys && d in vocabulary
  {
    if keys != [] {
      InVocabularyMembers(vocabulary, keys[1..]);
      assert keys == [keys[0]] + keys[1..];
    }
  }

  /** The sum of w[d] * count[d] over keys. */
  function WeightedSum(w: map<string, real>, count: map<string, int>, keys: seq<string>): real
    requires forall d :: d in keys ==> d in w
  {
    if keys == [] then 0.0
    else w[keys[0]] * Get(count, keys[0]) as real + WeightedSum(w, count, keys[1..])
  }

  /** b added n times. */
  function Times(n: nat, b: real): real {
    if n == 0 then 0.0 else Times(n - 1, b) + b
  }

  /** Adding b n times is multiplying it by n. */
  lemma {:induction false} TimesIsProduct(n: nat, b: real)
    ensures Times(n, b) == n as real * b
  {
    if n > 0 {
      TimesIsProduct(n - 1, b);
      assert (n - 1) as real * b + b == n as real * b;
    }
  }

  /** Dropping the features the vocabulary does not know leaves the
      activation unchanged. */
  lemma {:induction false} ScoreIgnoresUnknown(vocabulary: set<string>, w: map<string, real>, b: real,
                                               count: map<string, int>, keys: seq<string>)
    requires vocabulary <= w.Keys
    ensures Score(vocabulary, w, b, count, keys) ==
      Score(vocabulary, w, b, count, InVocabulary(vocabulary, keys))
  {
    if keys != [] {
      var k, rest := keys[0], InVocabulary(vocabulary, keys[1..]);
      ScoreIgnoresUnknown(vocabulary, w, b, count, keys[1..]);
      assert keys == [k] + keys[1..];
      if k in vocabulary {
        assert InVocabulary(vocabulary, keys) == [k] + rest;
        ScoreConsKnown(vocabulary, w, b, count, k, keys[1..], rest);
      } else {
        assert InVocabulary(vocabulary, keys) == rest;
        ScoreConsUnknown(vocabulary, w, b, count, k, keys[1..]);
      }
    }
  }

  /** A known feature in front adds the same amount to equal activations. */
  lemma ScoreConsKnown(vocabulary: set<string>, w: map<string, real>, b: real,
                       count: map<string, int>, k: string, s: seq<string>, t: seq<string>)
    requires vocabulary <= w.Keys && k in vocabulary
    requires Score(vocabulary, w, b, count, s) == Score(vocabulary, w, b, count, t)
    ensures Score(vocabulary, w, b, count, [k] + s) == Score(vocabulary, w, b, count, [k] + t)
  {
    assert ([k] + s)[0] == k && ([k] + s)[1..] == s;
    assert ([k] + t)[0] == k && ([k] + t)[1..] == t;
  }

  /** An unknown feature in front adds nothing. */
  lemma ScoreConsUnknown(vocabulary: set<string>, w: map<string, real>, b: real,
                         count: map<string, int>, k: string, s: seq<string>)
    requires vocabulary <= w.Keys && k !in vocabulary
    ensures Score(vocabulary, w, b, count, [k] + s) == Score(vocabulary, w, b, count, s)
  {
    assert ([k] + s)[0] == k && ([k] + s)[1..] == s;
  }

  /** Over known features only, the activation is the weighted sum plus the
      bias once per feature. */
  lemma {:induction false} ScoreAllKnown(vocabulary: set<string>, w: map<string, real>, b: real,
                                         count: map<string, int>, keys: seq<string>)
    requires vocabulary <= w.Keys
    requires forall d :: d in keys ==> d in vocabulary
    ensures Score(vocabulary, w, b, count, keys) == WeightedSum(w, count, keys) + Times(|keys|, b)
  {
    if keys != [] {
      ScoreAllKnown(vocabulary, w, b, count, keys[1..]);
      assert keys[0] in keys;
      assert Times(|keys|, b) == Times(|keys[1..]|, b) + b;
      Regroup(w[keys[0]] * Get(count, keys[0]) as real, b, Score(vocabulary, w, b, count, keys[1..]),
              WeightedSum(w, count, keys[1..]), Times(|keys[1..]|, b));
    }
  }

  /** Regroups one term of ScoreAllKnown. */
  lemma Regroup(term: real, b: real, tail: real, sum: real, biases: real)
    requires tail == sum + biases
    ensures term + b + tail == (term + sum) + (biases + b)
  {
  }

  /** The classifier's activation is the weighted sum over the known
      features plus the bias once per known feature: unknown features
      contribute nothing at all. */
  lemma ScoreKnownOnly(vocabulary: set<string>, w: map<string, real>, b: real,
                       count: map<string, int>, keys: seq<string>)
    requires vocabulary <= w.Keys
    ensures Score(vocabulary, w, b, count, keys) ==
      WeightedSum(w, count, InVocabulary(vocabulary, keys)) + Times(|InVocabulary(vocabulary, keys)|, b)
  {
    ScoreIgnoresUnknown(vocabulary, w, b, count, keys);
    ScoreAllKnown(vocabulary, w, b, count, InVocabulary(vocabulary, keys));
  }

  /** A record with no feature in the vocabulary has activation zero. */
  lemma {:induction false} ScoreUnknown(vocabulary: set<string>, w: map<string, real>, b: real,
                     count: map<string, int>, keys: seq<string>)
    requires vocabulary <= w.Keys
    requires forall d :: d in keys ==> d !in vocabulary
    ensures Score(vocabulary, w, b, count, keys) == 0.0
  {
    ScoreKnownOnly(vocabulary, w, b, count, keys);
  }

  /** With every feature known, the activation is the weighted sum plus
      the number of features times the bias. */
  lemma ScoreAllKnownProduct(vocabulary: set<string>, w: map<string, real>, b: real,
                             count: map<string, int>, keys: seq<string>)
    requires vocabulary <= w.Keys
    requires forall d :: d in keys ==> d in vocabulary
    ensures Score(vocabulary, w, b, count, keys) == WeightedSum(w, count, keys) + |keys| as real * b
  {
    ScoreAllKnown(vocabulary, w, b, count, keys);
    TimesIsProduct(|keys|, b);
  }

  /** The first head's activation for the features of x. */
  function FirstScore(m: Model, x: FeatureVector): real
    requires Complete(m) && Valid(x)
  {
    Score(m.vocabulary, m.w1, m.b1, x.count, x.keys)
  }

  /** The second head's activation for the features of x. */
  function SecondScore(m: Model, x: FeatureVector): real
    requires Complete(m) && Valid(x)
  {
    Score(m.vocabulary, m.w2, m.b2, x.count, x.keys)
  }

  /** The true/fake decision: Fake for a negative activation, True
      otherwise, zero included. */
  function TruthLabel(a: real): (l: string)
    ensures l == "Fake" <==> a < 0.0
    ensures l == "True" <==> a >= 0.0
  {
    if a < 0.0 then "Fake" else "True"
  }

  /** The pos/neg decision: Neg for a negative activation, Pos otherwise,
      zero included. */
  function SentimentLabel(a: real): (l: string)
    ensures l == "Neg" <==> a < 0.0
    ensures l == "Pos" <==> a >= 0.0
  {
    if a < 0.0 then "Neg" else "Pos"
  }

  /** A record none of whose features the model knows is labelled True and
      Pos. */
  lemma UnknownRecord(m: Model, x: FeatureVector)
    requires Complete(m) && Valid(x)
    requires forall d :: d in x.keys ==> d !in m.vocabulary
    ensures TruthLabel(FirstScore(m, x)) == "True"
    ensures SentimentLabel(SecondScore(m, x)) == "Pos"
  {
    ScoreUnknown(m.vocabulary, m.w1, m.b1, x.count, x.keys);
    ScoreUnknown(m.vocabulary, m.w2, m.b2, x.count, x.keys);
  }

  /** Casts a product to real for ScoreOverAgrees. */
  lemma RealProduct(a: int, b: int)
    ensures (a * b) as real == a as real * b as real
  {
  }

  lemma {:induction false} ScoreOverAgrees(h: Head, count: map<string, int>, keys: seq<string>)
    requires forall d :: d in keys ==> d in h.w && d in count
    ensures Score(h.w.Keys, Reals(h.w), h.b as real, count, keys) == ActivationOver(h, count, keys) as real
  {
    if keys != [] {
      ScoreOverAgrees(h, count, keys[1..]);
      RealProduct(h.w[keys[0]], count[keys[0]]);
    }
  }

  /** With an integer head written out as reals, the classifier computes
      exactly the trainer's activation for a record over the vocabulary. */
  lemma ScoreAgreesWithTraining(h: Head, x: FeatureVector)
    requires Covers(h, x)
    ensures Score(h.w.Keys, Reals(h.w), h.b as real, x.count, x.keys) == Activation(h, x) as real
  {
    ScoreOverAgrees(h, x.count, x.keys);
  }

  /** The vanilla model scores a record over the training vocabulary with
      the activations of the trained heads. */
  lemma VanillaScores(t: TrainingSet, epochs: nat, x: FeatureVector)
    requires Trainable(t) && Valid(x) && x.count.Keys <= t.vocabulary
    ensures Complete(VanillaModel(t, epochs))
    ensures FirstScore(VanillaModel(t, epochs), x) == Activation(Train(t, epochs).h1, x) as real
    ensures SecondScore(VanillaModel(t, epochs), x) == Activation(Train(t, epochs).h2, x) as real
  {
    var p := Train(t, epochs);
    ScoreAgreesWithTraining(p.h1, x);
    ScoreAgreesWithTraining(p.h2, x);
  }

  /** A head that makes no mistake on a training record gives it, through
      the classifier, the true/fake label the training file gave it. */
  lemma TruthLabelMatchesTraining(h: Head, x: FeatureVector, field: string)
    requires Covers(h, x) && !Mistake(Label(field, "True"), Activation(h, x))
    ensures TruthLabel(Score(h.w.Keys, Reals(h.w), h.b as real, x.count, x.keys)) == "True" <==> field == "True"
  {
    ScoreAgreesWithTraining(h, x);
  }

  /** The same for the pos/neg label. */
  lemma SentimentLabelMatchesTraining(h: Head, x: FeatureVector, field: string)
    requires Covers(h, x) && !Mistake(Label(field, "Pos"), Activation(h, x))
    ensures SentimentLabel(Score(h.w.Keys, Reals(h.w), h.b as real, x.count, x.keys)) == "Pos" <==> field == "Pos"
  {
    ScoreAgreesWithTraining(h, x);
  }

  /** The labels classify stores, by identifier. */
  datatype Predictions = Predictions(y1: map<string, string>, y2: map<string, string>)

  /** classify: both labels for every identifier with a feature vector. */
  function Classify(t: TestSet, m: Model): (p: Predictions)
    requires Complete(m) && forall id :: id in t.x ==> Valid(t.x[id])
    ensures p.y1.Keys == t.x.Keys && p.y2.Keys == t.x.Keys
    ensures forall id :: id in t.x ==> (p.y1[id] == "Fake" <==> FirstScore(m, t.x[id]) < 0.0)
    ensures forall id :: id in t.x ==> (p.y1[id] == "Fake" || p.y1[id] == "True")
    ensures forall id :: id in t.x ==> (p.y2[id] == "Neg" <==> SecondScore(m, t.x[id]) < 0.0)
    ensures forall id :: id in t.x ==> (p.y2[id] == "Neg" || p.y2[id] == "Pos")
  {
    Predictions(map id | id in t.x :: TruthLabel(FirstScore(m, t.x[id])),
                map id | id in t.x :: SentimentLabel(SecondScore(m, t.x[id])))
  }

  /** One line of the output file: identifier, first label, second label. */
  function OutputLine(id: string, first: string, second: string): (line: string)
    ensures line == Join([id, first, second])
  {
    assert Join([second]) == second + "\n";
    assert Join([first, second]) == first + " " + second + "\n";
    id + " " + first + " " + second + "\n"
  }

  /** An output line splits back into its three fields. */
  lemma OutputLineReadsBack(id: string, first: string, second: string)
    requires Word(id) && Word(first) && Word(second)
    ensures Split(OutputLine(id, first, second)) == [id, first, second]
  {
    SplitJoined([id, first, second]);
  }

  /** writeResultsToFile: one line per identifier, in the order the test
      data first listed them. */
  function Output(order: seq<string>, p: Predictions): (lines: seq<string>)
    requires forall id :: id in order ==> id in p.y1 && id in p.y2
    ensures |lines| == |order|
    ensures forall i :: 0 <= i < |order| ==>
      lines[i] == OutputLine(order[i], p.y1[order[i]], p.y2[order[i]])
  {
    if order == [] then []
    else [OutputLine(order[0], p.y1[order[0]], p.y2[order[0]])] + Output(order[1..], p)
  }

  /** Every identifier of test data read from text lines is a word. */
  lemma TestIdentifiersAreWords(lines: seq<string>)
    requires AllHave(Rows(lines), 1)
    ensures forall id :: id in ParseTest(Rows(lines)).value.order ==> Word(id)
  {
    var rows := Rows(lines);
    ParseTestOrder(rows);
    forall id | id in ParseTest(rows).value.order
      ensures Word(id)
    {
      var ids := Identifiers(rows);
      var k :| 0 <= k < |ids| && ids[k] == id;
      assert rows[k] == Split(lines[k]);
    }
  }

  /** When identifiers and labels are words, every output line splits back
      into its identifier and the two labels. */
  lemma OutputSplits(order: seq<string>, p: Predictions)
    requires forall id :: id in order ==> id in p.y1 && id in p.y2
    requires forall id :: id in order ==> Word(id) && Word(p.y1[id]) && Word(p.y2[id])
    ensures forall i :: 0 <= i < |order| ==>
      Split(Output(order, p)[i]) == [order[i], p.y1[order[i]], p.y2[order[i]]]
  {
    forall i | 0 <= i < |order|
      ensures Split(Output(order, p)[i]) == [order[i], p.y1[order[i]], p.y2[order[i]]]
    {
      var id := order[i];
      assert id in order;
      OutputLineReadsBack(id, p.y1[id], p.y2[id]);
    }
  }

  /** The four labels contain no white space, so each is one field of an
      output line. */
  lemma LabelsAreWords()
    ensures Word("Fake") && Word("True") && Word("Neg") && Word("Pos")
  {
    assert forall k :: 0 <= k < 4 ==> !IsSpace("Fake"[k]) && !IsSpace("True"[k]);
    assert forall k :: 0 <= k < 3 ==> !IsSpace("Neg"[k]) && !IsSpace("Pos"[k]);
  }

  /** The lines writeResultsToFile writes for the test data under a model. */
  function Results(t: TestSet, m: Model): (lines: seq<string>)
    requires TestWellFormed(t) && Complete(m)
    ensures |lines| == |t.order|
  {
    var p := Classify(t, m);
    assert forall id :: id in t.order ==> id in t.x;
    Output(t.order, p)
  }

  /** Classifying test data read from text lines writes one line per
      distinct identifier, in first-appearance order, and each line splits
      back into the identifier and its two labels. */
  lemma OutputReadsBack(lines: seq<string>, m: Model, t: TestSet)
    requires AllHave(Rows(lines), 1) && t == ParseTest(Rows(lines)).value && Complete(m)
    ensures TestWellFormed(t)
    ensures forall i :: 0 <= i < |t.order| ==>
      t.order[i] in t.x && Split(Results(t, m)[i]) == [t.order[i], Classify(t, m).y1[t.order[i]], Classify(t, m).y2[t.order[i]]]
  {
    ParseTestWellFormed(Rows(lines));
    TestIdentifiersAreWords(lines);
    var p := Classify(t, m);
    LabelsAreWords();
    forall id | id in t.order
      ensures id in p.y1 && id in p.y2 && Word(id) && Word(p.y1[id]) && Word(p.y2[id])
    {
      assert id in t.x;
      assert p.y1[id] == "Fake" || p.y1[id] == "True";
      assert p.y2[id] == "Neg" || p.y2[id] == "Pos";
    }
    OutputSplits(t.order, p);
    forall i | 0 <= i < |t.order|
      ensures t.order[i] in t.x
    {
      assert t.order[i] in t.order;
    }
  }
}
