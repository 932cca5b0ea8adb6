/** Reading the input lines: parseTrainingData for the trainer and
    parseTestData for the classifier. A line is first split on whitespace;
    the parsers then read its fields by position. */
module Corpus {
  import opened Text
  import opened Features
  import opened Sequences

  /** A line with too few fields for the position the parser reads (Python
      raises IndexError and the run aborts). */
  datatype ParseError = MissingField(line: nat, field: nat)

  datatype Result<T> = Ok(value: T) | Err(error: ParseError)

  /** The trainer's data after parsing: the vocabulary, one identifier per
      line in line order, and per identifier its feature vector and its two
      labels (1 or -1). */
  datatype TrainingSet = TrainingSet(
    vocabulary: set<string>,
    identifiers: seq<string>,
    x: map<string, FeatureVector>,
    y1: map<string, int>,
    y2: map<string, int>)

  const NoTrainingData: TrainingSet := TrainingSet({}, [], map[], map[], map[])

  /** What training relies on: every visited identifier has a feature vector
      and both labels, every label is 1 or -1, and every feature is in the
      vocabulary. */
  ghost predicate WellFormed(t: TrainingSet) {
    && (forall id :: id in t.x <==> id in t.identifiers)
    && t.y1.Keys == t.x.Keys && t.y2.Keys == t.x.Keys
    && (forall id :: id in t.x ==> Valid(t.x[id]) && t.x[id].count.Keys <= t.vocabulary)
    && (forall id :: id in t.y1 ==> t.y1[id] == 1 || t.y1[id] == -1)
    && (forall id :: id in t.y2 ==> t.y2[id] == 1 || t.y2[id] == -1)
  }

  /** The fields after the first three: Python's tokens[3:], empty when the
      line has three fields or fewer. */
  function Sentence(tokens: seq<string>): (words: seq<string>)
    ensures |tokens| > 3 ==> words == tokens[3..]
    ensures |tokens| <= 3 ==> words == []
  {
    if |tokens| <= 3 then [] else tokens[3..]
  }

  /** A label field read as 1 exactly when it equals the positive label, -1
      for anything else. */
  function Label(field: string, positive: string): (y: int)
    ensures y == 1 <==> field == positive
    ensures y == 1 || y == -1
  {
    if field == positive then 1 else -1
  }

  /** The loop body of parseTrainingData for one split line: the line's
      identifier gets the classifier's feature vector of its sentence, and
      the vocabulary grows by exactly that vector's words. */
  function AddTrainingLine(t: TrainingSet, tokens: seq<string>): (r: TrainingSet)
    requires |tokens| >= 3
    ensures tokens[0] in r.x && r.x[tokens[0]] == Extract(Sentence(tokens))
    ensures r.vocabulary == t.vocabulary + r.x[tokens[0]].count.Keys
  {
    var id := tokens[0];
    var (x, vocabulary) := ExtractTraining(t.vocabulary, Sentence(tokens));
    TrainingSet(vocabulary, t.identifiers + [id], t.x[id := x],
                t.y1[id := Label(tokens[1], "True")], t.y2[id := Label(tokens[2], "Pos")])
  }

  /** One line keeps the data well formed; its identifier is appended, and
      it overwrites whatever an earlier line with that identifier stored. */
  lemma AddTrainingLineSpec(t: TrainingSet, tokens: seq<string>)
    requires WellFormed(t) && |tokens| >= 3
    ensures WellFormed(AddTrainingLine(t, tokens))
    ensures AddTrainingLine(t, tokens).identifiers == t.identifiers + [tokens[0]]
  {
    AddTrainingLineRecords(t, tokens);
    AddTrainingLineIdentifiers(t, tokens);
  }

  lemma AddTrainingLineRecords(t: TrainingSet, tokens: seq<string>)
    requires WellFormed(t) && |tokens| >= 3
    ensures forall k :: k in AddTrainingLine(t, tokens).x ==>
      Valid(AddTrainingLine(t, tokens).x[k]) &&
      AddTrainingLine(t, tokens).x[k].count.Keys <= AddTrainingLine(t, tokens).vocabulary
  {
    var id := tokens[0];
    var t' := AddTrainingLine(t, tokens);
    var x := Extract(Sentence(tokens));
    assert t'.x == t.x[id := x];
    assert t'.vocabulary == t.vocabulary + x.count.Keys;
    forall k | k in t'.x ensures Valid(t'.x[k]) && t'.x[k].count.Keys <= t'.vocabulary {
      if k != id {
        assert t'.x[k] == t.x[k];
      }
    }
  }

  lemma AddTrainingLineIdentifiers(t: TrainingSet, tokens: seq<string>)
    requires WellFormed(t) && |tokens| >= 3
    ensures AddTrainingLine(t, tokens).identifiers == t.identifiers + [tokens[0]]
    ensures forall k :: k in AddTrainingLine(t, tokens).x <==> k in AddTrainingLine(t, tokens).identifiers
  {
    var id := tokens[0];
    var t' := AddTrainingLine(t, tokens);
    forall k ensures k in t'.x <==> k in t'.identifiers {
      assert k in t'.identifiers <==> k in t.identifiers || k == id;
    }
  }

  /** Every row has at least n fields. */
  predicate AllHave(rows: seq<seq<string>>, n: nat) { forall i :: 0 <= i < |rows| ==> |rows[i]| >= n }

  /** The error for the first row with fewer than n fields. */
  predicate FirstShort(rows: seq<seq<string>>, n: nat, e: ParseError) {
    && e.line < |rows|
    && |rows[e.line]| < n
    && e.field == |rows[e.line]|
    && AllHave(rows[..e.line], n)
  }

  lemma AllHaveLast(rows: seq<seq<string>>, n: nat)
    requires rows != []
    ensures AllHave(rows, n) <==> AllHave(rows[..|rows| - 1], n) && |rows[|rows| - 1]| >= n
  {
    if AllHave(rows[..|rows| - 1], n) && |rows[|rows| - 1]| >= n {
      forall i | 0 <= i < |rows| ensures |rows[i]| >= n {
        if i < |rows| - 1 { assert rows[i] == rows[..|rows| - 1][i]; }
      }
    }
  }

  /** parseTrainingData over split lines: it fails exactly when some line
      has fewer than three fields. */
  function ParseTraining(rows: seq<seq<string>>): (r: Result<TrainingSet>)
    ensures r.Ok? <==> AllHave(rows, 3)
  {
    if rows == [] then Ok(NoTrainingData)
    else
      var n := |rows| - 1;
      AllHaveLast(rows, 3);
      match ParseTraining(rows[..n])
      case Err(e) => Err(e)
      case Ok(t) =>
        if |rows[n]| < 3 then Err(MissingField(n, |rows[n]|))
        else Ok(AddTrainingLine(t, rows[n]))
  }

  /** The error names the first line with fewer than three fields. */
  lemma {:induction false} ParseTrainingError(rows: seq<seq<string>>)
    ensures ParseTraining(rows).Err? ==> FirstShort(rows, 3, ParseTraining(rows).error)
  {
    if rows != [] {
      var n := |rows| - 1;
      ParseTrainingError(rows[..n]);
      var front := rows[..n];
      if ParseTraining(front).Err? {
        var e := ParseTraining(front).error;
        assert front[..e.line] == rows[..e.line];
      } else {
        assert rows[..n] == front;
      }
    }
  }

  /** A successful parse is well formed and lists every line's identifier,
      in line order, repeats included. */
  lemma {:induction false} ParseTrainingWellFormed(rows: seq<seq<string>>)
    requires AllHave(rows, 3)
    ensures WellFormed(ParseTraining(rows).value)
    ensures |ParseTraining(rows).value.identifiers| == |rows|
    ensures forall i :: 0 <= i < |rows| ==> ParseTraining(rows).value.identifiers[i] == rows[i][0]
  {
    ParseTrainingValid(rows);
    ParseTrainingIdentifiers(rows);
  }

  lemma {:induction false} ParseTrainingValid(rows: seq<seq<string>>)
    requires AllHave(rows, 3)
    ensures WellFormed(ParseTraining(rows).value)
  {
    if rows != [] {
      var n := |rows| - 1;
      AllHaveLast(rows, 3);
      var t := ParseTraining(rows[..n]).value;
      assert ParseTraining(rows).value == AddTrainingLine(t, rows[n]);
      ParseTrainingValid(rows[..n]);
      AddTrainingLineSpec(t, rows[n]);
    }
  }

  /** The identifier part of AddTrainingLineSpec without its requires, for
      the induction of ParseTrainingIdentifiers, which then need not unfold
      AddTrainingLine. */
  lemma AddTrainingLineAppends(t: TrainingSet, tokens: seq<string>)
    requires |tokens| >= 3
    ensures AddTrainingLine(t, tokens).identifiers == t.identifiers + [tokens[0]]
  {
  }

  lemma {:induction false} ParseTrainingIdentifiers(rows: seq<seq<string>>)
    requires AllHave(rows, 3)
    ensures |ParseTraining(rows).value.identifiers| == |rows|
    ensures forall i :: 0 <= i < |rows| ==> ParseTraining(rows).value.identifiers[i] == rows[i][0]
  {
    if rows != [] {
      var n := |rows| - 1;
      AllHaveLast(rows, 3);
      var t := ParseTraining(rows[..n]).value;
      assert ParseTraining(rows).value == AddTrainingLine(t, rows[n]);
      ParseTrainingIdentifiers(rows[..n]);
      var ids := ParseTraining(rows).value.identifiers;
      AddTrainingLineAppends(t, rows[n]);
      forall i | 0 <= i < |rows| ensures ids[i] == rows[i][0] {
        if i < n {
          assert ids[i] == t.identifiers[i];
          assert rows[i] == rows[..n][i];
        } else {
          assert ids[i] == rows[n][0];
        }
      }
    }
  }

  /** Row j is the last row carrying its identifier. */
  predicate LastWithId(rows: seq<seq<string>>, j: nat)
    requires AllHave(rows, 3) && j < |rows|
  {
    forall k :: j < k < |rows| ==> rows[k][0] != rows[j][0]
  }

  /** An identifier's feature vector and labels come from the last line
      carrying it: a later line overwrites an earlier one. */
  lemma {:induction false} ParseTrainingLastWins(rows: seq<seq<string>>, j: nat)
    requires AllHave(rows, 3) && j < |rows| && LastWithId(rows, j)
    ensures rows[j][0] in ParseTraining(rows).value.x
    ensures rows[j][0] in ParseTraining(rows).value.y1 && rows[j][0] in ParseTraining(rows).value.y2
    ensures ParseTraining(rows).value.x[rows[j][0]] == Extract(Sentence(rows[j]))
    ensures ParseTraining(rows).value.y1[rows[j][0]] == Label(rows[j][1], "True")
    ensures ParseTraining(rows).value.y2[rows[j][0]] == Label(rows[j][2], "Pos")
  {
    var n := |rows| - 1;
    AllHaveLast(rows, 3);
    var t := ParseTraining(rows[..n]).value;
    assert ParseTraining(rows).value == AddTrainingLine(t, rows[n]);
    var x := ExtractTraining(t.vocabulary, Sentence(rows[n])).0;
    assert x == Extract(Sentence(rows[n]));
    if j < n {
      LastWithIdPrefix(rows, j);
      ParseTrainingLastWins(rows[..n], j);
    }
  }

  lemma LastWithIdPrefix(rows: seq<seq<string>>, j: nat)
    requires AllHave(rows, 3) && j < |rows| - 1 && LastWithId(rows, j)
    ensures rows[..|rows| - 1][j] == rows[j]
    ensures AllHave(rows[..|rows| - 1], 3) && LastWithId(rows[..|rows| - 1], j)
  {
    var n := |rows| - 1;
    AllHaveLast(rows, 3);
    forall k | j < k < n ensures rows[..n][k][0] != rows[..n][j][0] {
      assert rows[..n][k] == rows[k];
    }
  }

  /** The words of a training line's sentence that survive filtering. */
  function SentenceWords(tokens: seq<string>): seq<string> {
    Surviving(Sentence(tokens))
  }

  /** Word w survives filtering in the sentence of some row. */
  ghost predicate InSomeSentence(rows: seq<seq<string>>, w: string) {
    InSome(rows, SentenceWords, w)
  }

  /** The vocabulary holds exactly the words that survive filtering in some
      line's sentence. */
  lemma {:induction false} ParseTrainingVocabulary(rows: seq<seq<string>>)
    requires AllHave(rows, 3)
    ensures forall w :: w in ParseTraining(rows).value.vocabulary <==> InSomeSentence(rows, w)
  {
    if rows != [] {
      var n := |rows| - 1;
      AllHaveLast(rows, 3);
      var t := ParseTraining(rows[..n]).value;
      assert ParseTraining(rows).value == AddTrainingLine(t, rows[n]);
      ParseTrainingVocabulary(rows[..n]);
      var v := ParseTraining(rows).value.vocabulary;
      var r := ExtractTraining(t.vocabulary, Sentence(rows[n]));
      assert v == r.1;
      forall w ensures w in v <==> InSomeSentence(rows, w) {
        InSomeLast(rows, SentenceWords, w);
        var words := SentenceWords(rows[n]);
        assert w in r.1 <==> w in t.vocabulary || w in multiset(words);
        assert w in multiset(words) <==> w in words;
      }
    }
  }

  /** The classifier's data after parsing: the identifiers in the order
      they were first seen (the order of Python's dict X) and per
      identifier its feature vector. */
  datatype TestSet = TestSet(order: seq<string>, x: map<string, FeatureVector>)

  const NoTestData: TestSet := TestSet([], map[])

  /** Each identifier is listed once, exactly the identifiers with a feature
      vector are listed, and every vector is valid. */
  ghost predicate TestWellFormed(t: TestSet) {
    && Distinct(t.order)
    && (forall id :: id in t.x <==> id in t.order)
    && (forall id :: id in t.x ==> Valid(t.x[id]))
  }

  /** The loop body of parseTestData: X[identifier] = x keeps the position
      of an identifier already present and replaces its features. */
  function AddTestLine(t: TestSet, tokens: seq<string>): (r: TestSet)
    requires |tokens| >= 1
    ensures |t.order| <= |r.order| && r.order[..|t.order|] == t.order
    ensures r.x.Keys == t.x.Keys + {tokens[0]}
  {
    var id := tokens[0];
    TestSet(if id in t.x then t.order else t.order + [id], t.x[id := Extract(Sentence(tokens))])
  }

  /** parseTestData over split lines: only an empty line fails (it has no
      identifier); a line with one or two fields has an empty sentence. */
  function ParseTest(rows: seq<seq<string>>): (r: Result<TestSet>)
    ensures r.Ok? <==> AllHave(rows, 1)
  {
    if rows == [] then Ok(NoTestData)
    else
      var n := |rows| - 1;
      AllHaveLast(rows, 1);
      match ParseTest(rows[..n])
      case Err(e) => Err(e)
      case Ok(t) =>
        if rows[n] == [] then Err(MissingField(n, 0))
        else Ok(AddTestLine(t, rows[n]))
  }

  /** The error names the first empty line. */
  lemma {:induction false} ParseTestError(rows: seq<seq<string>>)
    ensures ParseTest(rows).Err? ==> FirstShort(rows, 1, ParseTest(rows).error)
  {
    if rows != [] {
      var n := |rows| - 1;
      ParseTestError(rows[..n]);
      var front := rows[..n];
      if ParseTest(front).Err? {
        var e := ParseTest(front).error;
        assert front[..e.line] == rows[..e.line];
      } else {
        assert rows[..n] == front;
      }
    }
  }

  /** The first field of every row. */
  function Identifiers(rows: seq<seq<string>>): (ids: seq<string>)
    requires AllHave(rows, 1)
    ensures |ids| == |rows|
    ensures forall i :: 0 <= i < |rows| ==> ids[i] == rows[i][0]
  {
    if rows == [] then []
    else
      AllHaveLast(rows, 1);
      Identifiers(rows[..|rows| - 1]) + [rows[|rows| - 1][0]]
  }

  /** One line keeps the data well formed; a new identifier is appended to
      the order, a known one leaves the order as it was. */
  lemma AddTestLineSpec(t: TestSet, tokens: seq<string>)
    requires TestWellFormed(t) && |tokens| >= 1
    ensures TestWellFormed(AddTestLine(t, tokens))
    ensures AddTestLine(t, tokens).order ==
      if tokens[0] in t.order then t.order else t.order + [tokens[0]]
  {
    var id := tokens[0];
    var t' := AddTestLine(t, tokens);
    if id !in t.x {
      forall i, j | 0 <= i < j < |t'.order| ensures t'.order[i] != t'.order[j] {
        assert t'.order[i] == t.order[i];
      }
    }
    forall k | k in t'.x ensures Valid(t'.x[k]) {
      if k != id { assert t'.x[k] == t.x[k]; }
    }
  }

  /** A successful parse lists each identifier once and holds a valid
      vector for exactly the listed identifiers, which are exactly the
      identifiers of the input. */
  lemma {:induction false} ParseTestWellFormed(rows: seq<seq<string>>)
    requires AllHave(rows, 1)
    ensures TestWellFormed(ParseTest(rows).value)
    ensures forall id :: id in ParseTest(rows).value.order <==> id in Identifiers(rows)
  {
    if rows != [] {
      var n := |rows| - 1;
      AllHaveLast(rows, 1);
      var t := ParseTest(rows[..n]).value;
      assert ParseTest(rows).value == AddTestLine(t, rows[n]);
      ParseTestWellFormed(rows[..n]);
      AddTestLineSpec(t, rows[n]);
    }
  }

  /** The identifiers are listed in the order of their first line. */
  lemma {:induction false} ParseTestOrder(rows: seq<seq<string>>)
    requires AllHave(rows, 1)
    ensures forall id :: id in ParseTest(rows).value.order ==> id in Identifiers(rows)
    ensures forall i, j :: 0 <= i < j < |ParseTest(rows).value.order| ==>
      FirstIndex(Identifiers(rows), ParseTest(rows).value.order[i]) <
      FirstIndex(Identifiers(rows), ParseTest(rows).value.order[j])
  {
    if rows != [] {
      var n := |rows| - 1;
      AllHaveLast(rows, 1);
      var t := ParseTest(rows[..n]).value;
      var order := ParseTest(rows).value.order;
      assert ParseTest(rows).value == AddTestLine(t, rows[n]);
      ParseTestWellFormed(rows[..n]);
      ParseTestOrder(rows[..n]);
      var ids := Identifiers(rows[..n]);
      var id := rows[n][0];
      assert Identifiers(rows) == ids + [id];
      assert order == if id in t.order then t.order else t.order + [id];
      OrderExtend(ids, id, t.order, order);
    }
  }

  /** Appending one identifier to the input keeps the positions of the
      identifiers already seen, and a new one goes last. */
  lemma OrderExtend(ids: seq<string>, id: string, order: seq<string>, order': seq<string>)
    requires forall k :: k in order <==> k in ids
    requires forall i, j :: 0 <= i < j < |order| ==> FirstIndex(ids, order[i]) < FirstIndex(ids, order[j])
    requires order' == if id in order then order else order + [id]
    ensures forall k :: k in order' ==> k in ids + [id]
    ensures forall i, j :: 0 <= i < j < |order'| ==>
      FirstIndex(ids + [id], order'[i]) < FirstIndex(ids + [id], order'[j])
  {
    forall k | k in order ensures FirstIndex(ids + [id], k) == FirstIndex(ids, k) {
      FirstIndexExtend(ids, [id], k);
    }
    if id !in order {
      assert FirstIndex(ids + [id], id) == |ids|;
      forall i, j | 0 <= i < j < |order'|
        ensures FirstIndex(ids + [id], order'[i]) < FirstIndex(ids + [id], order'[j])
      {
        assert order'[i] == order[i];
        if j < |order| { assert order'[j] == order[j]; }
      }
    }
  }

  /** An identifier's features come from the last line carrying it. */
  lemma {:induction false} ParseTestLastWins(rows: seq<seq<string>>, j: nat)
    requires AllHave(rows, 1) && j < |rows|
    requires forall k :: j < k < |rows| ==> rows[k][0] != rows[j][0]
    ensures rows[j][0] in ParseTest(rows).value.x
    ensures ParseTest(rows).value.x[rows[j][0]] == Extract(Sentence(rows[j]))
  {
    var n := |rows| - 1;
    AllHaveLast(rows, 1);
    var t := ParseTest(rows[..n]).value;
    assert ParseTest(rows).value == AddTestLine(t, rows[n]);
    if j < n {
      assert rows[..n][j] == rows[j];
      forall k | j < k < n ensures rows[..n][k][0] != rows[..n][j][0] {
        assert rows[..n][k] == rows[k];
      }
      ParseTestLastWins(rows[..n], j);
    }
  }

  /** The lines, each split on whitespace, as the loops of parseTrainingData
      and parseTestData do before reading any field. */
  function Rows(lines: seq<string>): (rows: seq<seq<string>>)
    ensures |rows| == |lines|
    ensures forall i :: 0 <= i < |lines| ==> rows[i] == Split(lines[i])
  {
    if lines == [] then [] else [Split(lines[0])] + Rows(lines[1..])
  }

  /** Every line splits into at least one field exactly when no line is
      blank. With the contract of ParseTest (it succeeds exactly when every
      row has a field), the classifier's parser rejects a file exactly when
      one of its lines is blank. */
  lemma NoBlankRows(lines: seq<string>)
    ensures AllHave(Rows(lines), 1) <==> forall i :: 0 <= i < |lines| ==> !Blank(lines[i])
  {
    var rows := Rows(lines);
    forall i | 0 <= i < |lines| ensures |rows[i]| >= 1 <==> !Blank(lines[i]) {
      SplitBlank(lines[i]);
    }
  }
}
