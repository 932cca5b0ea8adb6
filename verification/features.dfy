/** Bag-of-words extraction (sentenceToFeatureDict). The classifier's version
    only counts; the trainer's version also adds every counted word to the
    vocabulary. */
module Features {
  import opened Text
  import opened Sequences

  /** A feature dictionary: its keys in insertion order (the order Python
      iterates a dict in) and the count of each key. */
  datatype FeatureVector = FeatureVector(keys: seq<string>, count: map<string, int>)

  /** The dictionary invariant: each key listed once, the listed keys are
      exactly the mapped ones, and every count is at least one. */
  predicate Valid(x: FeatureVector) {
    && Distinct(x.keys)
    && (forall i :: 0 <= i < |x.keys| ==> x.keys[i] in x.count)
    && (forall k :: k in x.count ==> k in x.keys && x.count[k] >= 1)
  }

  const Empty: FeatureVector := FeatureVector([], map[])

  function Get(m: map<string, int>, k: string): int { if k in m then m[k] else 0 }

  /** Reference definition: the words that survive normalisation and the
      filter, in token order. */
  function Surviving(sentence: seq<string>): seq<string>
  {
    FlatMap(Contribution, sentence)
  }

  /** Every surviving word is kept and clean. */
  lemma {:induction false} SurvivingWords(sentence: seq<string>)
    ensures forall k :: k in multiset(Surviving(sentence)) ==> Kept(k) && Clean(k)
  {
    if sentence != [] {
      SurvivingWords(sentence[1..]);
      assert Surviving(sentence) == Contribution(sentence[0]) + Surviving(sentence[1..]);
    }
  }

  /** What one token contributes: its normal form if that is kept, else
      nothing. */
  function Contribution(token: string): (words: seq<string>)
    ensures |words| <= 1
  {
    var word := Normalize(token);
    if Kept(word) then [word] else []
  }

  /** Sum of the counts of the listed keys. */
  function SumCounts(keys: seq<string>, count: map<string, int>): int
    requires forall i :: 0 <= i < |keys| ==> keys[i] in count
  {
    if keys == [] then 0
    else SumCounts(keys[..|keys| - 1], count) + count[keys[|keys| - 1]]
  }

  /** The sum of all counts of a feature vector. */
  function Total(x: FeatureVector): int
    requires Valid(x)
  {
    SumCounts(x.keys, x.count)
  }

  /** One occurrence of an already normalised and kept word. */
  function AddWord(x: FeatureVector, word: string): FeatureVector
  {
    if word in x.count then FeatureVector(x.keys, x.count[word := x.count[word] + 1])
    else FeatureVector(x.keys + [word], x.count[word := 1])
  }

  /** The loop body of sentenceToFeatureDict for one token. Like a dict,
      the keys already present keep their positions. */
  function AddToken(x: FeatureVector, token: string): (r: FeatureVector)
    ensures |x.keys| <= |r.keys| && r.keys[..|x.keys|] == x.keys
  {
    var word := Normalize(token);
    if Kept(word) then AddWord(x, word) else x
  }

  lemma {:induction false} SumCountsFrame(keys: seq<string>, count: map<string, int>, w: string, v: int)
    requires forall i :: 0 <= i < |keys| ==> keys[i] in count
    requires forall i :: 0 <= i < |keys| ==> keys[i] != w
    ensures SumCounts(keys, count[w := v]) == SumCounts(keys, count)
  {
    if keys != [] {
      SumCountsFrame(keys[..|keys| - 1], count, w, v);
    }
  }

  lemma {:induction false} SumCountsIncrement(keys: seq<string>, count: map<string, int>, w: string)
    requires forall i :: 0 <= i < |keys| ==> keys[i] in count
    requires Distinct(keys) && w in keys && w in count
    ensures SumCounts(keys, count[w := count[w] + 1]) == SumCounts(keys, count) + 1
  {
    var last := keys[|keys| - 1];
    var front := keys[..|keys| - 1];
    if last == w {
      SumCountsFrame(front, count, w, count[w] + 1);
    } else {
      assert w in front by {
        var i :| 0 <= i < |keys| && keys[i] == w;
        assert front[i] == w;
      }
      SumCountsIncrement(front, count, w);
    }
  }

  /** Adding one word sets that word's count to one more than before,
      absent counting as zero, and touches no other entry. */
  lemma AddWordCount(x: FeatureVector, word: string)
    ensures AddWord(x, word).count == x.count[word := Get(x.count, word) + 1]
  {
  }

  /** Adding one word bumps that word's count by one and leaves every other
      count as it was. */
  lemma AddWordSpec(x: FeatureVector, word: string)
    ensures forall k :: Get(AddWord(x, word).count, k) == Get(x.count, k) + (if k == word then 1 else 0)
  {
    AddWordCount(x, word);
  }

  /** Adding one word keeps the invariant and adds one to the total. */
  lemma AddWordTotal(x: FeatureVector, word: string)
    requires Valid(x)
    ensures Valid(AddWord(x, word))
    ensures Total(AddWord(x, word)) == Total(x) + 1
  {
    if word in x.count {
      AddExistingWord(x, word);
    } else {
      AddNewWord(x, word);
    }
  }

  lemma AddExistingWord(x: FeatureVector, word: string)
    requires Valid(x) && word in x.count
    ensures Valid(AddWord(x, word))
    ensures Total(AddWord(x, word)) == Total(x) + 1
  {
    assert word in x.keys;
    SumCountsIncrement(x.keys, x.count, word);
  }

  lemma AddNewWord(x: FeatureVector, word: string)
    requires Valid(x) && word !in x.count
    ensures Valid(AddWord(x, word))
    ensures Total(AddWord(x, word)) == Total(x) + 1
  {
    AddNewWordValid(x, word);
    var r := AddWord(x, word);
    assert forall i :: 0 <= i < |x.keys| ==> x.keys[i] != word;
    SumCountsFrame(x.keys, x.count, word, 1);
    assert r.keys[..|r.keys| - 1] == x.keys;
  }

  lemma AddNewWordValid(x: FeatureVector, word: string)
    requires Valid(x) && word !in x.count
    ensures AddWord(x, word).keys == x.keys + [word]
    ensures Valid(AddWord(x, word))
  {
    var r := AddWord(x, word);
    assert forall i :: 0 <= i < |x.keys| ==> r.keys[i] == x.keys[i];
  }

  /** The extraction loop from a partial dictionary x over the remaining
      tokens. */
  function ExtractFrom(x: FeatureVector, sentence: seq<string>): (r: FeatureVector)
    requires Valid(x)
    ensures Valid(r)
    decreases |sentence|
  {
    if sentence == [] then x
    else
      AddTokenSpec(x, sentence[0]);
      ExtractFrom(AddToken(x, sentence[0]), sentence[1..])
  }

  /** One token adds its contribution to the counts and to the total. */
  lemma AddTokenSpec(x: FeatureVector, token: string)
    requires Valid(x)
    ensures Valid(AddToken(x, token))
    ensures forall k :: Get(AddToken(x, token).count, k) == Get(x.count, k) + multiset(Contribution(token))[k]
    ensures Total(AddToken(x, token)) == Total(x) + |Contribution(token)|
  {
    var word := Normalize(token);
    if Kept(word) {
      AddWordSpec(x, word);
      AddWordTotal(x, word);
      assert Contribution(token) == [word];
      assert AddToken(x, token) == AddWord(x, word);
      forall k ensures Get(AddToken(x, token).count, k) == Get(x.count, k) + multiset(Contribution(token))[k] {
        assert multiset(Contribution(token))[k] == if k == word then 1 else 0;
      }
    } else {
      assert Contribution(token) == [];
      assert AddToken(x, token) == x;
    }
  }

  /** Each key's count grows by the number of its surviving occurrences in
      the remaining tokens, and the total by the number of surviving tokens. */
  lemma {:induction false} ExtractFromCounts(x: FeatureVector, sentence: seq<string>)
    requires Valid(x)
    decreases |sentence|
    ensures forall k :: Get(ExtractFrom(x, sentence).count, k) == Get(x.count, k) + multiset(Surviving(sentence))[k]
    ensures Total(ExtractFrom(x, sentence)) == Total(x) + |Surviving(sentence)|
  {
    if sentence != [] {
      var x' := AddToken(x, sentence[0]);
      AddTokenSpec(x, sentence[0]);
      ExtractFromCounts(x', sentence[1..]);
      var pre := Contribution(sentence[0]);
      assert multiset(Surviving(sentence)) == multiset(pre) + multiset(Surviving(sentence[1..]));
    }
  }

  /** sentenceToFeatureDict: every key is a kept, clean word; a key's count is
      the number of tokens that normalise to it, so the keys are exactly the
      surviving words; and the counts add up to the number of surviving
      tokens. */
  function Extract(sentence: seq<string>): (x: FeatureVector)
    ensures Valid(x)
    ensures forall k :: k in x.count <==> k in multiset(Surviving(sentence))
    ensures forall k :: k in x.count ==> x.count[k] == multiset(Surviving(sentence))[k]
    ensures forall k :: k in x.count ==> Kept(k) && Clean(k)
    ensures Total(x) == |Surviving(sentence)|
  {
    var x := ExtractFrom(Empty, sentence);
    ExtractFromCounts(Empty, sentence);
    assert forall k :: k in x.count <==> k in multiset(Surviving(sentence)) by {
      forall k ensures k in x.count <==> k in multiset(Surviving(sentence)) {
        assert Get(x.count, k) == multiset(Surviving(sentence))[k];
      }
    }
    SurvivingWords(sentence);
    x
  }

  /** Reordering the tokens yields the same counts (only the key order, which
      is insertion order, can differ). */
  lemma ExtractPermutation(s: seq<string>, t: seq<string>)
    requires multiset(s) == multiset(t)
    ensures Extract(s).count == Extract(t).count
  {
    FlatMapPermutation(Contribution, s, t);
  }

  lemma {:induction false} ExtractFromSurviving(x: FeatureVector, sentence: seq<string>)
    requires Valid(x)
    ensures ExtractFrom(x, Surviving(sentence)) == ExtractFrom(x, sentence)
    decreases |sentence|
  {
    if sentence != [] {
      var rest := Surviving(sentence[1..]);
      var x' := AddToken(x, sentence[0]);
      AddTokenSpec(x, sentence[0]);
      ExtractFromSurviving(x', sentence[1..]);
      if Contribution(sentence[0]) == [] {
        assert x' == x;
        assert Surviving(sentence) == rest;
      } else {
        var word := Normalize(sentence[0]);
        assert Surviving(sentence) == [word] + rest;
        AddTokenOfWord(x, sentence[0]);
        assert ([word] + rest)[1..] == rest;
      }
    }
  }

  /** A surviving word, fed back as a token, is counted just as the token it
      came from. */
  lemma AddTokenOfWord(x: FeatureVector, token: string)
    requires Kept(Normalize(token))
    ensures AddToken(x, Normalize(token)) == AddToken(x, token)
  {
    NormalizeIdempotent(token);
  }

  /** Extracting from the surviving words themselves gives back the same
      feature vector, key order included: the extracted words are already in
      normal form. */
  lemma ExtractIdempotent(sentence: seq<string>)
    ensures Extract(Surviving(sentence)) == Extract(sentence)
  {
    ExtractFromSurviving(Empty, sentence);
  }

  /** The trainer's extraction loop: as ExtractFrom, and every counted word is
      also added to the vocabulary. */
  function ExtractTrainingFrom(x: FeatureVector, vocabulary: set<string>, sentence: seq<string>)
    : (r: (FeatureVector, set<string>))
    requires Valid(x)
    ensures r.0 == ExtractFrom(x, sentence)
    ensures forall k :: k in r.1 <==> k in vocabulary || k in Surviving(sentence)
    decreases |sentence|
  {
    if sentence == [] then (x, vocabulary)
    else
      var word := Normalize(sentence[0]);
      AddTokenSpec(x, sentence[0]);
      assert Surviving(sentence) == Contribution(sentence[0]) + Surviving(sentence[1..]);
      if Kept(word) then
        assert AddWord(x, word) == AddToken(x, sentence[0]);
        assert Contribution(sentence[0]) == [word];
        ExtractTrainingFrom(AddWord(x, word), vocabulary + {word}, sentence[1..])
      else
        assert Contribution(sentence[0]) == [];
        ExtractTrainingFrom(x, vocabulary, sentence[1..])
  }

  /** The trainer's sentenceToFeatureDict: the same vector the classifier
      extracts, and the vocabulary grows by exactly its keys. */
  function ExtractTraining(vocabulary: set<string>, sentence: seq<string>): (r: (FeatureVector, set<string>))
    ensures r.0 == Extract(sentence)
    ensures r.1 == vocabulary + r.0.count.Keys
  {
    var r := ExtractTrainingFrom(Empty, vocabulary, sentence);
    var x := Extract(sentence);
    assert r.0 == x;
    forall k ensures k in r.1 <==> k in vocabulary || k in x.count {
      assert k in x.count <==> k in multiset(Surviving(sentence));
      assert k in Surviving(sentence) <==> k in multiset(Surviving(sentence));
    }
    r
  }
}
