/** Token normalisation shared by the trainer and the classifier: the loop body
    of sentenceToFeatureDict and the whitespace split of an input line.
    Characters are treated as ASCII: case mapping, digit and whitespace tests
    follow Python's str methods on the ASCII range only. */
module Text {

  /** The characters deleted from every token. The apostrophe is not among
      them, so contractions reach the stopword test intact; the backslash is. */
  const Punctuation: string := "!\"#$%&()*+,-./:;<=>?@[\\]^_`{|}~"

  /** The English stopword list, in list order (the scan order of Listed). */
  const Stopwords: seq<string> := [
    "a", "about", "above", "after", "again", "against", "all", "am", "an", "and", "any", "are",
    "aren't", "as", "at", "be", "because", "been", "before", "being", "below", "between", "both",
    "but", "by", "can't", "cannot", "could", "couldn't", "did", "didn't", "do", "does", "doesn't",
    "doing", "don't", "down", "during", "each", "few", "for", "from", "further", "had", "hadn't",
    "has", "hasn't", "have", "haven't", "having", "he", "he'd", "he'll", "he's", "her", "here",
    "here's", "hers", "herself", "him", "himself", "his", "how", "how's", "i", "i'd", "i'll",
    "i'm", "i've", "if", "in", "into", "is", "isn't", "it", "it's", "its", "itself", "let's", "me",
    "more", "most", "mustn't", "my", "myself", "no", "nor", "not", "of", "off", "on", "once",
    "only", "or", "other", "ought", "our", "ours", "ourselves", "out", "over", "own", "same",
    "shan't", "she", "she'd", "she'll", "she's", "should", "shouldn't", "so", "some", "such",
    "than", "that", "that's", "the", "their", "theirs", "them", "themselves", "then", "there",
    "there's", "these", "they", "they'd", "they'll", "they're", "they've", "this", "those",
    "through", "to", "too", "under", "until", "up", "very", "was", "wasn't", "we", "we'd", "we'll",
    "we're", "we've", "were", "weren't", "what", "what's", "when", "when's", "where", "where's",
    "which", "while", "who", "who's", "whom", "why", "why's", "with", "won't", "would", "wouldn't",
    "you", "you'd", "you'll", "you're", "you've", "your", "yours", "yourself", "yourselves"
  ]

  /** Membership in Punctuation, written as the ASCII ranges it covers:
      0x21-0x2F without the apostrophe, 0x3A-0x40, 0x5B-0x60 and 0x7B-0x7E. */
  predicate IsPunctuation(c: char) {
    || (33 <= c as int <= 47 && c != '\'')
    || 58 <= c as int <= 64
    || 91 <= c as int <= 96
    || 123 <= c as int <= 126
  }

  /** Every character of the ranges occurs in the literal ... */
  lemma PunctuationRangesInLiteral(c: char)
    requires IsPunctuation(c)
    ensures c in Punctuation
  {
    var i := c as int - 33;
    if c as int >= 123 { i := c as int - 123 + 27; }
    else if c as int >= 91 { i := c as int - 91 + 21; }
    else if c as int >= 58 { i := c as int - 58 + 14; }
    else if c as int >= 40 { i := c as int - 34; }
    assert Punctuation[i] == c;
  }

  /** ... and every character of the literal lies in the ranges. */
  lemma LiteralInPunctuationRanges(c: char)
    requires c in Punctuation
    ensures IsPunctuation(c)
  {
    var i :| 0 <= i < |Punctuation| && Punctuation[i] == c;
    assert Punctuation[i] in {'!', '"', '#', '$', '%', '&', '(', ')', '*', '+', ',', '-', '.', '/', ':', ';', '<', '=', '>', '?', '@', '[', '\\', ']', '^', '_', '`', '{', '|', '}', '~'};
  }

  predicate IsUpper(c: char) { 'A' <= c <= 'Z' }
  predicate IsDigit(c: char) { '0' <= c <= '9' }

  /** ASCII whitespace as str.isspace and str.split see it: space, tab, line
      feed, vertical tab, form feed, carriage return and the four separators
      0x1C-0x1F. */
  predicate IsSpace(c: char) { c == ' ' || 9 <= c as int <= 13 || 28 <= c as int <= 31 }

  function ToLower(c: char): (r: char)
    ensures !IsUpper(r)
    ensures IsPunctuation(r) <==> IsPunctuation(c)
    ensures IsUpper(c) ==> 'a' <= r <= 'z' && r as int == c as int + 32
    ensures !IsUpper(c) ==> r == c
  {
    if IsUpper(c) then (c as int + 32) as char else c
  }

  /** str.translate with every punctuation character mapped to deletion. */
  function RemovePunctuation(w: string): string
  {
    if w == [] then []
    else
      var rest := RemovePunctuation(w[1..]);
      if IsPunctuation(w[0]) then rest else [w[0]] + rest
  }

  /** Deletion keeps every other character, as many times as it occurs, and
      no punctuation. */
  lemma {:induction false} RemovePunctuationSpec(w: string)
    ensures |RemovePunctuation(w)| <= |w|
    ensures forall i :: 0 <= i < |RemovePunctuation(w)| ==> !IsPunctuation(RemovePunctuation(w)[i])
    ensures forall c :: multiset(RemovePunctuation(w))[c] == if IsPunctuation(c) then 0 else multiset(w)[c]
  {
    if w != [] {
      RemovePunctuationSpec(w[1..]);
      assert w == [w[0]] + w[1..];
    }
  }

  /** Deletion works character by character and keeps the order of what it
      keeps: a punctuation character vanishes, any other stays, and the
      result for a concatenation is the concatenation of the results. */
  lemma {:induction false} RemovePunctuationConcat(a: string, b: string)
    ensures RemovePunctuation(a + b) == RemovePunctuation(a) + RemovePunctuation(b)
    ensures |a| == 1 ==> RemovePunctuation(a) == if IsPunctuation(a[0]) then [] else a
  {
    if a != [] {
      assert (a + b)[0] == a[0];
      assert (a + b)[1..] == a[1..] + b;
      RemovePunctuationConcat(a[1..], b);
    } else {
      assert a + b == b;
    }
  }

  /** str.lower on ASCII. */
  function Lowercase(w: string): string
  {
    if w == [] then [] else [ToLower(w[0])] + Lowercase(w[1..])
  }

  /** Lowercasing maps each character in place and leaves no upper-case
      letter; it never creates punctuation. */
  lemma {:induction false} LowercaseSpec(w: string)
    ensures |Lowercase(w)| == |w|
    ensures forall i :: 0 <= i < |w| ==> Lowercase(w)[i] == ToLower(w[i])
    ensures (forall i :: 0 <= i < |w| ==> !IsPunctuation(w[i])) ==> Clean(Lowercase(w))
  {
    if w != [] {
      LowercaseSpec(w[1..]);
    }
  }

  /** str.strip with no argument: the longest slice of w without leading or
      trailing whitespace. */
  function StripLeft(w: string): string
  {
    if w != [] && IsSpace(w[0]) then StripLeft(w[1..]) else w
  }

  function StripRight(w: string): string
  {
    if w != [] && IsSpace(w[|w| - 1]) then StripRight(w[..|w| - 1]) else w
  }

  function Strip(w: string): string
  {
    StripRight(StripLeft(w))
  }

  /** Left stripping removes a prefix of whitespace and stops at the first
      other character. */
  lemma {:induction false} StripLeftSpec(w: string)
    ensures |StripLeft(w)| <= |w| && StripLeft(w) == w[|w| - |StripLeft(w)|..]
    ensures StripLeft(w) == [] || !IsSpace(StripLeft(w)[0])
    ensures forall k :: 0 <= k < |w| - |StripLeft(w)| ==> IsSpace(w[k])
  {
    StripLeftSuffix(w);
    StripLeftStops(w);
    StripLeftSkipsSpace(w);
  }

  lemma {:induction false} StripLeftSuffix(w: string)
    ensures |StripLeft(w)| <= |w| && StripLeft(w) == w[|w| - |StripLeft(w)|..]
  {
    if w != [] && IsSpace(w[0]) {
      var r := StripLeft(w[1..]);
      StripLeftSuffix(w[1..]);
      assert w[1..][|w| - 1 - |r|..] == w[|w| - |r|..];
    }
  }

  lemma {:induction false} StripLeftStops(w: string)
    ensures StripLeft(w) == [] || !IsSpace(StripLeft(w)[0])
  {
    if w != [] && IsSpace(w[0]) {
      StripLeftStops(w[1..]);
    }
  }

  lemma {:induction false} StripLeftSkipsSpace(w: string)
    ensures |StripLeft(w)| <= |w|
    ensures forall k :: 0 <= k < |w| - |StripLeft(w)| ==> IsSpace(w[k])
  {
    if w != [] && IsSpace(w[0]) {
      var r := StripLeft(w[1..]);
      StripLeftSkipsSpace(w[1..]);
      forall k | 0 <= k < |w| - |r| ensures IsSpace(w[k]) {
        if k > 0 { assert w[k] == w[1..][k - 1]; }
      }
    }
  }

  /** Right stripping removes a suffix of whitespace and stops at the last
      other character. */
  lemma {:induction false} StripRightSpec(w: string)
    ensures |StripRight(w)| <= |w| && StripRight(w) == w[..|StripRight(w)|]
    ensures StripRight(w) == [] || !IsSpace(StripRight(w)[|StripRight(w)| - 1])
    ensures forall k :: |StripRight(w)| <= k < |w| ==> IsSpace(w[k])
  {
    if w != [] && IsSpace(w[|w| - 1]) {
      var r := StripRight(w[..|w| - 1]);
      StripRightSpec(w[..|w| - 1]);
      assert w[..|w| - 1][..|r|] == w[..|r|];
      forall k | |r| <= k < |w| ensures IsSpace(w[k]) {
        if k < |w| - 1 { assert w[k] == w[..|w| - 1][k]; }
      }
    }
  }

  /** The stripped word has no whitespace at either end, stays clean, and
      leaves a word without whitespace as it is. */
  lemma StripSpec(w: string)
    ensures Strip(w) == [] || (!IsSpace(Strip(w)[0]) && !IsSpace(Strip(w)[|Strip(w)| - 1]))
    ensures Clean(w) ==> Clean(Strip(w))
    ensures (forall k :: 0 <= k < |w| ==> !IsSpace(w[k])) ==> Strip(w) == w
  {
    StripLeftSpec(w);
    StripRightSpec(StripLeft(w));
  }

  /** The stripped word is the slice w[i..j] of w, and what was cut off on
      either side was whitespace only. */
  lemma StripSlice(w: string)
    ensures |StripLeft(w)| <= |w|
    ensures var i := |w| - |StripLeft(w)|;
      && i + |Strip(w)| <= |w|
      && Strip(w) == w[i..i + |Strip(w)|]
      && (forall k :: 0 <= k < i ==> IsSpace(w[k]))
      && (forall k :: i + |Strip(w)| <= k < |w| ==> IsSpace(w[k]))
  {
    var l := StripLeft(w);
    var i := |w| - |l|;
    StripLeftSpec(w);
    StripRightSpec(l);
    var n := |Strip(w)|;
    assert w[i..i + n] == l[..n];
    forall k | i + n <= k < |w| ensures IsSpace(w[k]) {
      assert w[k] == l[k - i];
    }
  }

  /** The token as sentenceToFeatureDict rewrites it: punctuation deleted,
      then lowercased, then stripped. */
  function Normalize(token: string): (r: string)
    ensures Clean(r)
    ensures r == [] || (!IsSpace(r[0]) && !IsSpace(r[|r| - 1]))
  {
    var removed := RemovePunctuation(token);
    NoPunctuationLeft(token);
    LowercaseClean(removed);
    StripClean(Lowercase(removed));
    Strip(Lowercase(removed))
  }

  lemma NoPunctuationLeft(w: string)
    ensures forall i :: 0 <= i < |RemovePunctuation(w)| ==> !IsPunctuation(RemovePunctuation(w)[i])
  {
    RemovePunctuationSpec(w);
  }

  lemma LowercaseClean(w: string)
    requires forall i :: 0 <= i < |w| ==> !IsPunctuation(w[i])
    ensures Clean(Lowercase(w))
  {
    LowercaseSpec(w);
  }

  lemma StripClean(w: string)
    requires Clean(w)
    ensures Clean(Strip(w))
    ensures Strip(w) == [] || (!IsSpace(Strip(w)[0]) && !IsSpace(Strip(w)[|Strip(w)| - 1]))
  {
    StripSpec(w);
  }

  /** Free of punctuation and of upper-case letters. */
  predicate Clean(w: string) { forall i :: 0 <= i < |w| ==> !IsPunctuation(w[i]) && !IsUpper(w[i]) }

  predicate AllDigits(w: string) { |w| > 0 && forall i :: 0 <= i < |w| ==> IsDigit(w[i]) }

  predicate IsStopword(w: string) { Listed(w, Stopwords) }

  /** A scan of a word list for w: the stopword test written as a recursive
      scan, which the verifier unfolds only as far as a proof asks, instead
      of `in` over the long literal list; ListedSpec shows the two agree. */
  predicate Listed(w: string, list: seq<string>)
  {
    list != [] && (list[0] == w || Listed(w, list[1..]))
  }

  /** The scan finds w exactly when w is in the list. */
  lemma {:induction false} ListedSpec(w: string, list: seq<string>)
    ensures Listed(w, list) <==> w in list
  {
    if list != [] {
      ListedSpec(w, list[1..]);
      assert list == [list[0]] + list[1..];
    }
  }

  /** The filter of sentenceToFeatureDict: a normalised word is counted unless
      it is empty, all digits, or a stopword. */
  predicate Kept(w: string) { w != [] && !AllDigits(w) && !IsStopword(w) }

  lemma {:induction false} RemovePunctuationOfClean(w: string)
    requires forall i :: 0 <= i < |w| ==> !IsPunctuation(w[i])
    ensures RemovePunctuation(w) == w
  {
    if w != [] {
      RemovePunctuationOfClean(w[1..]);
      assert w == [w[0]] + w[1..];
    }
  }

  lemma {:induction false} LowercaseOfLower(w: string)
    requires forall i :: 0 <= i < |w| ==> !IsUpper(w[i])
    ensures Lowercase(w) == w
  {
    if w != [] {
      LowercaseOfLower(w[1..]);
      assert w == [w[0]] + w[1..];
    }
  }

  /** Normalising a normalised word changes nothing: the keys of a feature
      vector, fed back in as tokens, survive unchanged. */
  lemma NormalizeIdempotent(token: string)
    ensures Normalize(Normalize(token)) == Normalize(token)
  {
    var r := Normalize(token);
    RemovePunctuationOfClean(r);
    LowercaseOfLower(r);
    StripSpec(r);
  }

  lemma {:induction false} RemovePunctuationCommutesWithLowercase(w: string)
    ensures RemovePunctuation(Lowercase(w)) == Lowercase(RemovePunctuation(w))
  {
    if w != [] {
      RemovePunctuationCommutesWithLowercase(w[1..]);
      assert Lowercase(w) == [ToLower(w[0])] + Lowercase(w[1..]);
      assert w == [w[0]] + w[1..];
      var rest := RemovePunctuation(w[1..]);
      if !IsPunctuation(w[0]) {
        assert Lowercase([w[0]] + rest) == [ToLower(w[0])] + Lowercase(rest);
      }
    }
  }

  /** Extraction ignores case: two tokens that agree once lowercased normalise
      to the same word, so "The", "THE" and "the" are all the stopword "the". */
  lemma NormalizeIgnoresCase(a: string, b: string)
    requires Lowercase(a) == Lowercase(b)
    ensures Normalize(a) == Normalize(b)
  {
    RemovePunctuationCommutesWithLowercase(a);
    RemovePunctuationCommutesWithLowercase(b);
    var la := RemovePunctuation(a);
    var lb := RemovePunctuation(b);
    LowercaseSpec(la);
    LowercaseSpec(lb);
    LowercaseOfLower(Lowercase(la));
    LowercaseOfLower(Lowercase(lb));
  }

  /** Length of the leading run of non-space characters. */
  function WordLength(s: string): (n: nat)
    ensures n <= |s|
    ensures forall k :: 0 <= k < n ==> !IsSpace(s[k])
    ensures n < |s| ==> IsSpace(s[n])
  {
    if s == [] || IsSpace(s[0]) then 0 else 1 + WordLength(s[1..])
  }

  /** str.split with no argument: the maximal runs of non-whitespace. */
  function Split(s: string): (fields: seq<string>)
    ensures forall i :: 0 <= i < |fields| ==> Word(fields[i])
    decreases |s|
  {
    if s == [] then []
    else if IsSpace(s[0]) then Split(s[1..])
    else
      var n := WordLength(s);
      [s[..n]] + Split(s[n..])
  }

  /** A word splits into itself alone. */
  lemma SplitWord(w: string)
    requires Word(w)
    ensures Split(w) == [w]
  {
    WordLengthWhole(w);
    assert w[..|w|] == w;
  }

  lemma {:induction false} WordLengthWhole(w: string)
    requires forall k :: 0 <= k < |w| ==> !IsSpace(w[k])
    ensures WordLength(w) == |w|
  {
    if w != [] {
      assert forall k :: 0 <= k < |w[1..]| ==> w[1..][k] == w[k + 1];
      WordLengthWhole(w[1..]);
    }
  }

  /** A whitespace character separates fields: what lies before it and what
      lies after it split independently, so the fields of a line are its
      maximal runs of non-whitespace, in order. */
  lemma {:induction false} SplitAtSpace(s: string, c: char, t: string)
    requires IsSpace(c)
    ensures Split(s + [c] + t) == Split(s) + Split(t)
    decreases |s|
  {
    var line := s + [c] + t;
    if s == [] {
      assert line == [c] + t;
      assert line[1..] == t;
    } else if IsSpace(s[0]) {
      assert line[0] == s[0];
      assert line[1..] == s[1..] + [c] + t;
      SplitAtSpace(s[1..], c, t);
    } else {
      var n := WordLength(s);
      WordLengthBeforeSpace(s, c, t);
      assert line[0] == s[0];
      assert line[..n] == s[..n];
      assert line[n..] == s[n..] + [c] + t;
      SplitAtSpace(s[n..], c, t);
    }
  }

  lemma {:induction false} WordLengthBeforeSpace(s: string, c: char, t: string)
    requires IsSpace(c)
    ensures WordLength(s + [c] + t) == WordLength(s)
  {
    var line := s + [c] + t;
    if s == [] {
      assert line[0] == c;
    } else {
      assert line[0] == s[0];
      if !IsSpace(s[0]) {
        assert line[1..] == s[1..] + [c] + t;
        WordLengthBeforeSpace(s[1..], c, t);
      }
    }
  }

  /** A line of whitespace only, the empty line included. */
  predicate Blank(s: string) { forall k :: 0 <= k < |s| ==> IsSpace(s[k]) }

  /** A line splits into no fields exactly when it is blank. */
  lemma {:induction false} SplitBlank(s: string)
    ensures Split(s) == [] <==> Blank(s)
    decreases |s|
  {
    if s != [] {
      if IsSpace(s[0]) {
        SplitBlank(s[1..]);
        assert Blank(s) <==> Blank(s[1..]) by {
          if Blank(s[1..]) {
            forall k | 0 <= k < |s| ensures IsSpace(s[k]) {
              if k > 0 { assert s[k] == s[1..][k - 1]; }
            }
          }
          if Blank(s) {
            forall k | 0 <= k < |s[1..]| ensures IsSpace(s[1..][k]) {
              assert s[1..][k] == s[k + 1];
            }
          }
        }
      } else {
        assert !IsSpace(s[0]);
      }
    }
  }

  /** A field of a split line: non-empty and free of whitespace. */
  predicate Word(w: string) { w != [] && forall k :: 0 <= k < |w| ==> !IsSpace(w[k]) }

  /** Joining words with single spaces and a final newline splits back into
      the same words. */
  lemma {:induction false} SplitJoined(words: seq<string>)
    requires forall i :: 0 <= i < |words| ==> Word(words[i])
    ensures Split(Join(words)) == words
  {
    if words != [] {
      var w := words[0];
      var rest := Separator(words[1..]);
      var s := w + rest;
      assert s[..|w|] == w;
      WordLengthOfWord(w, rest);
      assert s[|w|..] == rest;
      SplitJoined(words[1..]);
      assert Split(rest) == Split(rest[1..]);
      if words[1..] == [] {
        assert rest[1..] == [];
      } else {
        assert rest[1..] == Join(words[1..]);
      }
    }
  }

  /** Each word followed by a space, except the last, which is followed by a
      newline: the shape of an output line. */
  function Join(words: seq<string>): (s: string)
    ensures words != [] ==> |s| > |words[0]| && s[..|words[0]|] == words[0]
    decreases |words|, 0
  {
    if words == [] then [] else words[0] + Separator(words[1..])
  }

  /** What follows the first word: a newline after the last word, otherwise a
      space and the rest of the line. */
  function Separator(words: seq<string>): (s: string)
    ensures s != [] && IsSpace(s[0])
    decreases |words|, 1
  {
    if words == [] then "\n" else " " + Join(words)
  }

  lemma {:induction false} WordLengthOfWord(w: string, rest: string)
    requires Word(w)
    requires rest != [] && IsSpace(rest[0])
    ensures WordLength(w + rest) == |w|
  {
    assert (w + rest)[0] == w[0] && !IsSpace(w[0]);
    assert (w + rest)[1..] == w[1..] + rest;
    if |w| > 1 {
      assert Word(w[1..]) by {
        forall k | 0 <= k < |w[1..]| ensures !IsSpace(w[1..][k]) {
          assert w[1..][k] == w[k + 1];
        }
      }
      WordLengthOfWord(w[1..], rest);
    } else {
      assert w[1..] + rest == rest;
    }
  }
}
