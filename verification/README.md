# Perceptron: a Dafny model

This project models the core of a two-headed text perceptron. A trainer
(`perceplearn.py`) reads lines of the form `identifier label1 label2 word...`.
It turns each sentence into a bag-of-words count map and trains two
independent ±1 heads: true/fake and pos/neg. It trains them first with the
vanilla perceptron and then with the averaged perceptron. A classifier
(`percepclassify.py`) reads lines of the form `identifier ? ? word...`,
extracts the same features and scores them against a model. It writes
`identifier label1 label2` for every distinct identifier.

The modules follow the program:

- `Text` (text.dfy) is the per-token rewriting of `sentenceToFeatureDict`:
  - deleting the fixed punctuation set, then `lower()`, then `strip()`;
  - the filter: empty, all digits, stopword;
  - the whitespace split of a line and the joined output line.
- `Features` (features.dfy) builds the feature map. A `FeatureVector` is its
  keys in dict insertion order plus a count map. The file also has the
  training variant, which adds every surviving word to the vocabulary.
- `Corpus` (corpus.dfy) holds `parseTrainingData` and `parseTestData` over
  split lines, with their `IndexError` cases as a `Result`.
- `Perceptron` (perceptron.dfy) is vanilla training in integers. It covers
  the per-feature-bias activation, the update on `y*a <= 0`, the per-record
  step on both heads, epochs and training. It shows that each head is a run
  of its own over the stream of records, repeated once per epoch.
- `Averaged` (averaged.dfy) is averaged training. It covers the cached sums
  `u` and `beta`, the record counter `c`, and the final `w - u/c`,
  `b - beta/c`. It proves the lazy-averaging identity in integers: `c*w - u`
  is the sum of the weight over every state the head passed through, so the
  result is the mean of those states.
- `Classifier` (classifier.dfy) covers:
  - `classify`: the activation over in-vocabulary features only, and the
    sign decision with ties going to True/Pos;
  - the output lines of `writeResultsToFile`.
- `Sequences` (sequences.dfy) holds generic helpers: distinctness,
  flat-map, first index.

Model parameters read back from the model file are exact `real`s.
Everything during training is an unbounded integer; the Python values are
arbitrary-precision integers too.

Two behaviours of the code that the model keeps:

- The classifier accepts lines with one or two fields. `tokens[3:]` of a
  shorter list is empty, so only an empty line (no `tokens[0]`) fails
  (`Corpus.ParseTest`).
- A record with no known feature, including an empty record, has
  activation 0, because the classifier adds the bias once per known feature.
  It is labelled True/Pos (`Classifier.UnknownRecord`).

## Model

| member | source | states |
|---|---|---|
| Text.PunctuationRangesInLiteral | perceplearn.py:24 | every character of the ASCII punctuation ranges (apostrophe excluded) is in the punctuation literal |
| Text.LiteralInPunctuationRanges | perceplearn.py:24 | every character of the literal, backslash included, is in those ranges: the two descriptions of the deleted set agree |
| Text.RemovePunctuation | perceplearn.py:62-65 | `translate` with every punctuation character mapped to deletion; RemovePunctuationSpec and RemovePunctuationConcat state its value |
| Text.RemovePunctuationSpec | perceplearn.py:62-65 | deleting punctuation leaves no punctuation; each other character keeps its multiplicity and each punctuation character drops to zero |
| Text.RemovePunctuationConcat | perceplearn.py:62-65 | deletion works character by character and keeps the order of the kept characters: one punctuation character maps to nothing, any other to itself, and a concatenation maps to the concatenation of the results |
| Text.Lowercase | perceplearn.py:65 | ASCII `lower()`; LowercaseSpec states its value |
| Text.LowercaseSpec | perceplearn.py:65 | lowercasing keeps the length, maps each character in place, and leaves a punctuation-free word clean (no punctuation, no upper case) |
| Text.Strip | perceplearn.py:65 | `strip()`: left strip, then right strip; StripSpec and StripSlice state its value |
| Text.StripLeft | perceplearn.py:65 | the leading-whitespace half of `strip()`; StripLeftSpec states its value |
| Text.StripRight | perceplearn.py:65 | the trailing-whitespace half of `strip()`; StripRightSpec states its value |
| Text.StripSpec | perceplearn.py:65 | the stripped word has no whitespace at either end; stripping keeps a clean word clean; a word without whitespace is unchanged |
| Text.StripSlice | perceplearn.py:65 | the stripped word is a contiguous slice of the word, and everything cut off on either side is whitespace |
| Text.StripLeftSpec | perceplearn.py:65 | left strip keeps a suffix of the word, cuts only whitespace, and stops at a non-space |
| Text.StripRightSpec | perceplearn.py:65 | right strip keeps a prefix of the word, cuts only whitespace, and stops at a non-space |
| Text.Normalize | perceplearn.py:65 | a normalised token is clean and has no whitespace at either end |
| Text.NormalizeIdempotent | perceplearn.py:65 | normalising twice is normalising once |
| Text.NormalizeIgnoresCase | perceplearn.py:65 | tokens equal up to ASCII case normalise to the same word |
| Text.RemovePunctuationCommutesWithLowercase | perceplearn.py:65 | deleting punctuation and lowercasing can be done in either order |
| Text.ListedSpec | perceplearn.py:66 | the scan of the stopword list finds a word exactly when the word is in the list |
| Text.Split | perceplearn.py:47 | every field of a split line is non-empty and free of whitespace |
| Text.SplitWord | perceplearn.py:47 | a non-empty word without whitespace splits into itself alone |
| Text.SplitAtSpace | perceplearn.py:47 | a whitespace character separates fields: the parts before and after it split independently, so the fields are the line's maximal non-whitespace runs, in order |
| Text.SplitBlank | perceplearn.py:47 | a line splits into no fields exactly when it is blank (whitespace only, or empty) |
| Text.SplitJoined | percepclassify.py:97 | words joined by single spaces with a final newline split back into the same words |
| Text.AllDigits | perceplearn.py:66 | `isdigit()` on ASCII: non-empty and every character a digit |
| Text.IsStopword | perceplearn.py:66 | `word in self.stopwords`, as a scan of the list; ListedSpec shows it is list membership |
| Text.Kept | perceplearn.py:66-67 | the filter on a normalised word: counted unless empty, all digits, or a stopword; the same test as percepclassify.py:69-70, and SurvivingWords states it of every survivor |
| Features.SurvivingWords | perceplearn.py:64-67 | every word that survives is non-empty, not all digits, not a stopword, and has no punctuation or upper case |
| Features.AddWord | perceplearn.py:68-71 | one occurrence of a kept word: a known word's count rises, a new word is appended with count 1; AddWordCount, AddWordSpec and AddNewWordValid state its value |
| Features.AddWordSpec | perceplearn.py:68-71 | counting a word adds one to its count and leaves every other count alone |
| Features.AddWordTotal | perceplearn.py:68-71 | counting a word keeps the map well formed (distinct keys, every count at least 1) and adds one to the total |
| Features.AddNewWordValid | perceplearn.py:70-71 | a word not yet counted is appended at the end of the keys, and the map stays well formed |
| Features.AddToken | perceplearn.py:64-71 | one token never moves a key already present: the key order only grows at the end, as a dict's insertion order does |
| Features.AddTokenSpec | perceplearn.py:64-71 | one token adds its surviving word (if any) to the counts and to the total |
| Features.ExtractFrom | perceplearn.py:64-71 | the loop over the remaining tokens keeps the feature vector valid: each key listed once, the listed keys exactly the counted ones, each count at least one |
| Features.ExtractFromCounts | perceplearn.py:64-71 | extraction adds to each count the multiplicity of that word among the surviving words, and to the total their number |
| Features.Extract | percepclassify.py:62-75 | the map is well formed; its keys are exactly the surviving words; each count is that word's multiplicity; every key passes the filter; counts sum to the number of survivors |
| Features.ExtractPermutation | perceplearn.py:64-71 | reordering the tokens of a sentence yields the same count map |
| Features.ExtractFromSurviving | perceplearn.py:64-71 | extraction over the surviving words equals extraction over the raw tokens |
| Features.ExtractIdempotent | perceplearn.py:64-71 | extracting from the already-normalised survivors gives the same feature vector |
| Features.ExtractTrainingFrom | perceplearn.py:64-72 | the training variant counts like the classifier's; a word is in the new vocabulary iff it was in the old one or survives in the sentence |
| Features.ExtractTraining | perceplearn.py:59-73 | the training variant's features equal the classifier's; the vocabulary grows by exactly the keys of the map |
| Corpus.Sentence | perceplearn.py:52 | the sentence is every field after the third, and empty when a line has three fields or fewer |
| Corpus.Label | perceplearn.py:50-51 | a label is 1 exactly when the field is the positive word ("True" / "Pos"), otherwise -1 |
| Corpus.AddTrainingLine | perceplearn.py:47-56 | the line's identifier holds the classifier's feature vector of its sentence, and the vocabulary grows by exactly that vector's words |
| Corpus.AddTrainingLineSpec | perceplearn.py:47-56 | one line keeps the training data well formed and appends its identifier |
| Corpus.ParseTraining | perceplearn.py:45-56 | parsing the training lines succeeds iff every line has at least three fields |
| Corpus.ParseTrainingError | perceplearn.py:46-51 | on failure the error names the first line with fewer than three fields and the position read |
| Corpus.ParseTrainingWellFormed | perceplearn.py:45-56 | parsed training data is well formed (records and both ±1 labels for exactly the identifiers, features inside the vocabulary); identifiers are the first fields in line order, repeats included |
| Corpus.ParseTrainingLastWins | perceplearn.py:54-56 | a repeated identifier holds the features and labels of its last line |
| Corpus.ParseTrainingVocabulary | perceplearn.py:64-72 | the vocabulary is exactly the words that survive filtering in some line's sentence |
| Corpus.Rows | perceplearn.py:46-47 | one row per input line, in order, each the whitespace split of its line, as both parsers read them (percepclassify.py:54-55) |
| Corpus.NoBlankRows | percepclassify.py:54-56 | every line has a first field exactly when no line is blank; with ParseTest, the classifier rejects a file exactly when one of its lines is blank |
| Corpus.ParseTest | percepclassify.py:53-59 | parsing the test lines succeeds iff no line is empty |
| Corpus.ParseTestError | percepclassify.py:54-56 | on failure the error names the first empty line |
| Corpus.AddTestLine | percepclassify.py:55-59 | the order only grows at the end, and the identifiers with a record are the earlier ones plus this line's |
| Corpus.AddTestLineSpec | percepclassify.py:56-59 | one line keeps the test data well formed; a new identifier is appended to the order and a known one keeps its place |
| Corpus.ParseTestWellFormed | percepclassify.py:53-59 | parsed test data lists each identifier once, exactly the identifiers of the lines, each with a well-formed map |
| Corpus.ParseTestOrder | percepclassify.py:59 | identifiers are listed in the order of their first line |
| Corpus.ParseTestLastWins | percepclassify.py:59 | a repeated identifier holds the features of its last line |
| Perceptron.Zero | perceplearn.py:78-82 | training starts with a zero weight for exactly the vocabulary and a zero bias |
| Perceptron.Activation | perceplearn.py:90-91 | the activation a1/a2 as the source sums it, term w[d]*x[d]+b per feature of x; its value is stated by ActivationBias |
| Perceptron.ActivationBias | perceplearn.py:90-91 | the activation is the dot product plus the bias once per distinct feature; an empty record has activation 0 |
| Perceptron.AddScaled | perceplearn.py:94-95 | the loop w[d] += y*x[d] over the record's features keeps the set of weighted features; AddScaledSpec states every value |
| Perceptron.AddScaledSpec | perceplearn.py:94-95 | w[d] += y*x[d] changes exactly the weights of the record's features, each by y times its count |
| Perceptron.Update | perceplearn.py:94-96 | an update keeps the set of weighted features; UpdateSpec states how each weight and the bias move |
| Perceptron.UpdateSpec | perceplearn.py:93-96 | an update adds y to the bias and y*x[d] to each feature weight of x, leaving other weights alone |
| Perceptron.Learn | perceplearn.py:90-100 | one head's response to one record keeps the set of weighted features; LearnSpec states when it updates |
| Perceptron.Mistake | perceplearn.py:93 | the update test y*a <= 0, a zero activation counting as a mistake for either label |
| Perceptron.LearnSpec | perceplearn.py:90-100 | when y*a <= 0 (ties included) the head is updated as above; otherwise it is unchanged |
| Perceptron.UpdateProgress | perceplearn.py:93-96 | after an update the margin y*a on the same record grows by the sum of squared counts plus the number of features |
| Perceptron.Step | perceplearn.py:85-100 | one record keeps both heads' weights keyed by the same words |
| Perceptron.RunAppend | perceplearn.py:84-85 | running a head over two record streams in a row is running it over their concatenation |
| Perceptron.RunWithoutMistakes | perceplearn.py:93-100 | a head that answers every record correctly is left unchanged by them |
| Perceptron.WellFormedTrainable | perceplearn.py:85-88 | parsed training data has a record and both labels for every identifier visited |
| Perceptron.Epoch | perceplearn.py:85-100 | an epoch keeps both heads keyed by the vocabulary |
| Perceptron.Train | perceplearn.py:76-100 | training keeps both heads keyed by exactly the vocabulary |
| Perceptron.TrainConverged | perceplearn.py:84-100 | once an epoch changes nothing, any number of further epochs changes nothing |
| Perceptron.ScheduleLength | perceplearn.py:84-85 | the records visited number epochs times the identifiers |
| Perceptron.EpochFirstHead | perceplearn.py:85-100 | within an epoch the true/fake head evolves from its own state and labels alone |
| Perceptron.EpochSecondHead | perceplearn.py:85-100 | within an epoch the pos/neg head evolves from its own state and labels alone |
| Perceptron.TrainFirstHead | perceplearn.py:76-100 | the trained true/fake head is the zero head run over the records of every epoch in order with the true/fake labels |
| Perceptron.TrainSecondHead | perceplearn.py:76-100 | the same for the pos/neg head with its own labels |
| Perceptron.VanillaModel | perceplearn.py:152-154 | the vanilla model holds the training vocabulary and a weight for exactly it in both heads, so it is `Complete` for the classifier |
| Averaged.AvgZero | perceplearn.py:105-115 | weights, caches and biases start at zero on the vocabulary, independent of any earlier run |
| Averaged.AvgLearn | perceplearn.py:128-139 | the averaged step keeps weights and caches on the same keys; AvgLearnWeight, AvgLearnBias and AvgLearnFollows state how they move |
| Averaged.AvgLearnWeight | perceplearn.py:129-131 | u[d] changes by exactly c times the change of w[d] |
| Averaged.AvgLearnBias | perceplearn.py:132-133 | beta changes by exactly c times the change of b |
| Averaged.AvgLearnFollows | perceplearn.py:125-139 | the averaged step's head is the vanilla step's head |
| Averaged.AvgRunFollows | perceplearn.py:119-141 | over any record stream the averaged head's weights and bias are the vanilla ones |
| Averaged.SnapshotsAt | perceplearn.py:119-141 | the i-th state of a head is the run over the first i records |
| Averaged.AvgRunWeight | perceplearn.py:128-141 | with c one past the records seen, c*w[d] - u[d] is the sum of w[d] over the initial state and every post-record state |
| Averaged.AvgRunBias | perceplearn.py:128-141 | likewise c*b - beta is the sum of the bias over every state |
| Averaged.MeanFromCache | perceplearn.py:145-148 | w - u/c equals that sum divided by c |
| Averaged.Average | perceplearn.py:143-148 | the averaging step gives a weight for exactly the weighted features; AverageIsMean states its value |
| Averaged.AverageIsMean | perceplearn.py:143-148 | the averaged weights and bias are the means over all states of the head |
| Averaged.AvgStep | perceplearn.py:120-141 | one record keeps both averaged heads aligned with the vocabulary |
| Averaged.AvgEpoch | perceplearn.py:120-141 | one pass over the identifiers keeps both averaged heads' weights and caches keyed by exactly the vocabulary |
| Averaged.AvgEpochSplits | perceplearn.py:120-141 | an epoch runs each averaged head on its own labels, with the counter advancing once per record whether or not a head updates |
| Averaged.AvgLoop | perceplearn.py:116-141 | the averaged training loop keeps both heads' weights and caches keyed by exactly the vocabulary |
| Averaged.AvgLoopCounter | perceplearn.py:116-141 | after training the counter is one past the number of records visited |
| Averaged.AvgFinalCounter | perceplearn.py:116-141 | the counter ends at 1 + epochs * number of identifiers |
| Averaged.AvgLoopFirstHead | perceplearn.py:119-141 | the averaged true/fake head is the averaged run over every epoch's records with its labels |
| Averaged.AvgLoopSecondHead | perceplearn.py:119-141 | the same for the pos/neg head |
| Averaged.AvgLoopFollowsVanilla | perceplearn.py:103-141 | the running heads of averaged training are exactly the vanilla-trained heads |
| Averaged.AveragedModel | perceplearn.py:143-148 | the averaged model holds the training vocabulary and a weight for exactly it in both heads, so it is `Complete` for the classifier |
| Averaged.AveragedModelFirstHead | perceplearn.py:103-148 | each averaged true/fake weight and the bias are the means of that parameter over all states of the head during training |
| Averaged.AveragedModelSecondHead | perceplearn.py:103-148 | the same for the pos/neg head |
| Classifier.Score | percepclassify.py:83-88 | the activation loop of classify: w[d]*x[d]+b for each feature d of the record that is in the vocabulary; ScoreAllKnown and ScoreIgnoresUnknown state its value |
| Classifier.InVocabularyMembers | percepclassify.py:85-86 | the features kept are exactly those of the record that the vocabulary knows |
| Classifier.ScoreIgnoresUnknown | percepclassify.py:85-88 | dropping out-of-vocabulary features leaves the activation unchanged |
| Classifier.ScoreAllKnownProduct | percepclassify.py:85-88 | over known features the activation is the weighted sum plus the number of features times the bias |
| Classifier.ScoreAllKnown | percepclassify.py:85-88 | over known features the activation is the weighted sum plus the bias once per feature |
| Classifier.ScoreKnownOnly | percepclassify.py:83-88 | the activation is the weighted sum over known features plus the bias once per known feature; unknown features add nothing, not even bias |
| Classifier.ScoreUnknown | percepclassify.py:83-88 | a record with no known feature has activation 0 |
| Classifier.FirstScore | percepclassify.py:83-88 | the true/fake head's activation a1 for a record; ScoreKnownOnly and VanillaScores state its value |
| Classifier.SecondScore | percepclassify.py:83-88 | the pos/neg head's activation a2 for a record; ScoreKnownOnly and VanillaScores state its value |
| Classifier.TruthLabel | percepclassify.py:90 | "Fake" exactly when the activation is negative, "True" exactly when it is zero or positive |
| Classifier.SentimentLabel | percepclassify.py:91 | "Neg" exactly when the activation is negative, "Pos" exactly when it is zero or positive |
| Classifier.UnknownRecord | percepclassify.py:83-91 | a record with no known feature (an empty one included) is classified True and Pos |
| Classifier.ScoreAgreesWithTraining | percepclassify.py:85-88 | over features all in the vocabulary the classifier's activation equals the trainer's |
| Classifier.VanillaScores | percepclassify.py:83-88 | under the vanilla model, a record over the training vocabulary gets the trained heads' activations |
| Classifier.TruthLabelMatchesTraining | percepclassify.py:90 | a head that makes no mistake on a training record gives it the true/fake label of its training line |
| Classifier.SentimentLabelMatchesTraining | percepclassify.py:91 | the same for the pos/neg label |
| Classifier.Classify | percepclassify.py:78-91 | every identifier gets exactly one label per head; Fake iff the first activation is negative, Neg iff the second is; no other label values |
| Classifier.OutputLine | percepclassify.py:97 | an output line is the identifier and the two labels separated by single spaces, ending in a newline |
| Classifier.OutputLineReadsBack | percepclassify.py:97 | an output line splits back into its identifier and two labels |
| Classifier.Output | percepclassify.py:94-97 | one output line per identifier, in the order given |
| Classifier.TestIdentifiersAreWords | percepclassify.py:55-56 | every identifier read from a test line is non-empty and free of whitespace |
| Classifier.Results | percepclassify.py:94-97 | the output has one line per distinct test identifier |
| Classifier.OutputReadsBack | percepclassify.py:94-97 | for test data read from lines, line i of the output splits into the i-th identifier (first-appearance order) and its two labels |

## Left out

- File and JSON I/O are left out: `readModelFromFile`, `writeModelToFile`, `writeResultsToFile`'s file handling and the two `main` functions. The model bundle is the `Model` datatype. Input arrives as a sequence of lines and output leaves as a sequence of lines.
- Floating point: the final division by `float(c)` and the weights loaded from JSON are exact `real`s, so IEEE rounding is not modelled. The averaging identity is proved in integers.
- Unicode: `split`, `strip`, `lower` and `isdigit` are modelled on ASCII only. Whitespace is space, 0x09-0x0D and 0x1C-0x1F.
- `word is ""` is modelled as equality with the empty string; the identity test relies on CPython interning.
- Hash order: the vocabulary is a set. The model file stores it as a list, and the classifier's `d in vocabulary` on that list is set membership. Training visits identifiers in line order. Output follows the dict's insertion order, modelled as `TestSet.order`.
- The fixed 30 epochs (`maxIterations`, perceplearn.py:21) are a parameter `epochs` of training.
- Perceptron.Train: requires `Trainable`: every visited identifier has a record and both labels, and every feature has a weight. The source would raise `KeyError` otherwise. `Perceptron.WellFormedTrainable` shows that parsed data always satisfies it.
- Classifier.Classify: requires `Complete`, a weight for every vocabulary word in both heads. The source looks up `w1[d]` and `w2[d]` only for a test feature `d` in the vocabulary, so a model without such a weight raises `KeyError` only when that feature occurs in the test data; the model does not cover that case. Every model the trainer writes is `Complete` (`Perceptron.VanillaModel`, `Averaged.AveragedModel`).
- Classifier.Score: the count lookup is total (`Get`). Every key of a record has a count, so it never misses.
- Classifier.ScoreAgreesWithTraining: relates the classifier only to integer weights read back exactly. The averaged model's real weights are related to training by `Averaged.AveragedModelFirstHead` / `AveragedModelSecondHead` instead.
