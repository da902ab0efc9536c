/**
  `DataPreprocessor.clean_text`: for a string, lower-case it, delete URL runs,
  delete @mention and #hashtag runs, keep only ASCII letters and whitespace,
  collapse the whitespace, and (when a stop-word list is loaded) drop the stop
  words. Anything that is not a string cleans to "".
 */
module DataPreprocessing {
  import opened Wrappers
  import opened PyStrings
  import opened PyValues
  import opened TextNormalizer

  // ---------------------------------------------------------------------------
  // URL deletion: re.sub(r'http\S+|www\S+|https\S+', '', text)

  /** Length of the match of `lit\S+` at the start of `t`, 0 when there is none.
      `lit` holds no whitespace, so the greedy `\S+` runs on to the end of the
      non-whitespace run that starts at `t[0]`. */
  function LiteralRunMatch(t: string, lit: string): (n: nat)
    ensures n <= |t|
    ensures n > 0 <==> lit <= t && |lit| < RunLen(t)
    ensures n > 0 ==> n == RunLen(t)
  {
    if lit <= t && |lit| < RunLen(t) then RunLen(t) else 0
  }

  /** Length of the match of the URL pattern at the start of `t`, trying the
      three alternatives in order; 0 when none matches. */
  function UrlMatch(t: string): (n: nat)
    ensures n <= |t|
    ensures n > 0 ==> n == RunLen(t)
    ensures n > 0 <==> ("http" <= t && RunLen(t) > 4) || ("www" <= t && RunLen(t) > 3)
  {
    var h := LiteralRunMatch(t, "http");
    if h > 0 then h
    else
      var w := LiteralRunMatch(t, "www");
      if w > 0 then w else LiteralRunMatch(t, "https")
  }

  /** Scanning left to right, delete every URL match. Characters are only
      deleted, never added or reordered. */
  function StripUrls(t: string): (r: string)
    ensures IsSubsequence(r, t)
    decreases |t|
  {
    if t == [] then []
    else
      var n := UrlMatch(t);
      if n > 0 then
        SubsequenceOfSuffix(StripUrls(t[n..]), t, n);
        StripUrls(t[n..])
      else
        var rest := StripUrls(t[1..]);
        assert ([t[0]] + rest)[1..] == rest;
        [t[0]] + rest
  }

  /** No position of `t` starts a URL match. */
  predicate UrlFree(t: string) {
    forall i :: 0 <= i < |t| ==> UrlMatch(t[i..]) == 0
  }

  /** The leading non-whitespace run of the stripped text is a prefix of the
      leading non-whitespace run of the text. */
  lemma {:induction false} StripUrlsRunPrefix(t: string)
    ensures var r := StripUrls(t);
      RunLen(r) <= RunLen(t) && r[..RunLen(r)] == t[..RunLen(r)]
    decreases |t|
  {
    if t != [] {
      var n := UrlMatch(t);
      if n > 0 {
        StripUrlsFromSpace(t[n..]);
      } else if !IsSpace(t[0]) {
        StripUrlsRunPrefix(t[1..]);
        assert t == [t[0]] + t[1..];
        RunPrefixCons(t[0], StripUrls(t[1..]), t[1..]);
      }
    }
  }

  /** Putting the same non-whitespace character in front of both texts keeps
      the first run of one a prefix of the first run of the other. */
  lemma RunPrefixCons(c: char, r: string, t: string)
    requires !IsSpace(c)
    requires RunLen(r) <= RunLen(t) && r[..RunLen(r)] == t[..RunLen(r)]
    ensures RunLen([c] + r) <= RunLen([c] + t) && ([c] + r)[..RunLen([c] + r)] == ([c] + t)[..RunLen([c] + r)]
  {
    var cr, ct := [c] + r, [c] + t;
    assert cr[1..] == r && ct[1..] == t;
    assert cr[..RunLen(cr)] == [c] + r[..RunLen(r)];
    assert ct[..RunLen(cr)] == [c] + t[..RunLen(r)];
  }

  /** Text that is empty or starts with whitespace keeps that whitespace first. */
  lemma StripUrlsFromSpace(u: string)
    requires u == [] || IsSpace(u[0])
    ensures StripUrls(u) == [] || IsSpace(StripUrls(u)[0])
  {
  }

  /** A match of `lit\S+` in the stripped text's first run is one in the text's. */
  lemma RunMatchCarriesOver(r: string, t: string, lit: string)
    requires RunLen(r) <= RunLen(t) && r[..RunLen(r)] == t[..RunLen(r)]
    requires LiteralRunMatch(r, lit) > 0
    ensures LiteralRunMatch(t, lit) > 0
  {
    assert lit == r[..|lit|] == t[..|lit|];
  }

  /** After the substitution no URL match is left anywhere in the text. */
  lemma {:induction false} StripUrlsLeavesNoUrl(t: string)
    ensures UrlFree(StripUrls(t))
    decreases |t|
  {
    if t != [] {
      var n := UrlMatch(t);
      if n > 0 {
        StripUrlsLeavesNoUrl(t[n..]);
      } else {
        StripUrlsLeavesNoUrl(t[1..]);
        var r' := StripUrls(t[1..]);
        var r := [t[0]] + r';
        forall i | 0 <= i < |r| ensures UrlMatch(r[i..]) == 0 {
          if i == 0 {
            StripUrlsRunPrefix(t);
            if LiteralRunMatch(r, "http") > 0 {
              RunMatchCarriesOver(r, t, "http");
            } else if LiteralRunMatch(r, "www") > 0 {
              RunMatchCarriesOver(r, t, "www");
            } else if LiteralRunMatch(r, "https") > 0 {
              RunMatchCarriesOver(r, t, "https");
            }
          } else {
            assert r[i..] == r'[i - 1..];
          }
        }
      }
    }
  }

  /** Text without URL matches passes through the substitution unchanged. */
  lemma {:induction false} StripUrlsOfUrlFree(t: string)
    requires UrlFree(t)
    ensures StripUrls(t) == t
    decreases |t|
  {
    if t != [] {
      assert t[0..] == t;
      assert UrlFree(t[1..]) by {
        forall i | 0 <= i < |t[1..]| ensures UrlMatch(t[1..][i..]) == 0 {
          assert t[1..][i..] == t[i + 1..];
        }
      }
      StripUrlsOfUrlFree(t[1..]);
      assert t == [t[0]] + t[1..];
    }
  }

  // ---------------------------------------------------------------------------
  // Mention and hashtag deletion: re.sub(r'@\w+|#\w+', '', text)

  /** Length of the longest prefix of `s` made of word characters. */
  function WordRunLen(s: string): (n: nat)
    ensures n <= |s|
    ensures forall i :: 0 <= i < n ==> IsWordChar(s[i])
    ensures n < |s| ==> !IsWordChar(s[n])
  {
    if s == [] || !IsWordChar(s[0]) then 0 else 1 + WordRunLen(s[1..])
  }

  /** Length of the match of `@\w+|#\w+` at the start of `t`, 0 when there is none:
      the marker and every word character after it. */
  function TagMatch(t: string): (n: nat)
    ensures n <= |t|
    ensures n > 0 <==> |t| >= 2 && (t[0] == '@' || t[0] == '#') && IsWordChar(t[1])
    ensures n > 0 ==> n >= 2 && (n == |t| || !IsWordChar(t[n]))
    ensures n > 0 ==> forall i :: 1 <= i < n ==> IsWordChar(t[i])
  {
    if |t| >= 2 && (t[0] == '@' || t[0] == '#') && IsWordChar(t[1]) then
      assert t[1..][WordRunLen(t[1..])..] == t[1 + WordRunLen(t[1..])..];
      assert forall i :: 1 <= i < 1 + WordRunLen(t[1..]) ==> t[i] == t[1..][i - 1];
      1 + WordRunLen(t[1..])
    else 0
  }

  /** Scanning left to right, delete every mention and hashtag match.
      Characters are only deleted, never added or reordered. */
  function StripTags(t: string): (r: string)
    ensures IsSubsequence(r, t)
    decreases |t|
  {
    if t == [] then []
    else
      var n := TagMatch(t);
      if n > 0 then
        SubsequenceOfSuffix(StripTags(t[n..]), t, n);
        StripTags(t[n..])
      else
        var rest := StripTags(t[1..]);
        assert ([t[0]] + rest)[1..] == rest;
        [t[0]] + rest
  }

  /** No position of `t` starts a mention or hashtag match. */
  predicate TagFree(t: string) {
    forall i :: 0 <= i < |t| ==> TagMatch(t[i..]) == 0
  }

  /** Text that is empty or starts with a non-word character still does after the substitution. */
  lemma {:induction false} StripTagsHead(t: string)
    requires t == [] || !IsWordChar(t[0])
    ensures StripTags(t) == [] || !IsWordChar(StripTags(t)[0])
    decreases |t|
  {
    if t != [] {
      var n := TagMatch(t);
      if n > 0 {
        StripTagsHead(t[n..]);
      }
    }
  }

  /** After the substitution no mention or hashtag match is left. */
  lemma {:induction false} StripTagsLeavesNoTag(t: string)
    ensures TagFree(StripTags(t))
    decreases |t|
  {
    if t != [] {
      var n := TagMatch(t);
      if n > 0 {
        StripTagsLeavesNoTag(t[n..]);
      } else {
        StripTagsLeavesNoTag(t[1..]);
        var r' := StripTags(t[1..]);
        var r := [t[0]] + r';
        forall i | 0 <= i < |r| ensures TagMatch(r[i..]) == 0 {
          if i == 0 {
            if t[0] == '@' || t[0] == '#' {
              StripTagsHead(t[1..]);
            }
            assert r[0..] == r;
          } else {
            assert r[i..] == r'[i - 1..];
          }
        }
      }
    }
  }

  /** Text without mention or hashtag matches passes through unchanged. */
  lemma {:induction false} StripTagsOfTagFree(t: string)
    requires TagFree(t)
    ensures StripTags(t) == t
    decreases |t|
  {
    if t != [] {
      assert t[0..] == t;
      assert TagFree(t[1..]) by {
        forall i | 0 <= i < |t[1..]| ensures TagMatch(t[1..][i..]) == 0 {
          assert t[1..][i..] == t[i + 1..];
        }
      }
      StripTagsOfTagFree(t[1..]);
      assert t == [t[0]] + t[1..];
    }
  }

  // ---------------------------------------------------------------------------
  // Stop-word filtering: ' '.join([w for w in words if w not in stop_words])

  /** `b` holds the elements of `a` in the same relative order. */
  predicate IsSubsequence<T(==)>(a: seq<T>, b: seq<T>)
    decreases |b|
  {
    if a == [] then true
    else if b == [] then false
    else if a[0] == b[0] then IsSubsequence(a[1..], b[1..])
    else IsSubsequence(a, b[1..])
  }

  /** The words of `ws` that are not stop words: none of the result is a stop
      word, every other word keeps each of its occurrences, and the survivors
      keep their order. */
  function RemoveStopWords(ws: seq<string>, stopWords: set<string>): (r: seq<string>)
    ensures forall k :: 0 <= k < |r| ==> r[k] !in stopWords
    ensures forall w :: multiset(r)[w] == if w in stopWords then 0 else multiset(ws)[w]
    ensures forall k :: 0 <= k < |r| ==> r[k] in ws
    ensures IsSubsequence(r, ws)
  {
    if ws == [] then []
    else
      var rest := RemoveStopWords(ws[1..], stopWords);
      assert ws == [ws[0]] + ws[1..];
      if ws[0] in stopWords then
        SubsequenceOfTail(rest, ws);
        rest
      else
        assert ([ws[0]] + rest)[1..] == rest;
        [ws[0]] + rest
  }

  lemma {:induction false} SubsequenceOfTail<T>(a: seq<T>, b: seq<T>)
    requires b != [] && IsSubsequence(a, b[1..])
    ensures IsSubsequence(a, b)
    decreases |a| + |b|
  {
    if a != [] && a[0] == b[0] {
      SubsequenceDropHead(a, b[1..]);
    }
  }

  lemma {:induction false} SubsequenceOfSuffix<T>(a: seq<T>, b: seq<T>, n: nat)
    requires n <= |b| && IsSubsequence(a, b[n..])
    ensures IsSubsequence(a, b)
    decreases n
  {
    if n > 0 {
      assert b[1..][n - 1..] == b[n..];
      SubsequenceOfSuffix(a, b[1..], n - 1);
      SubsequenceOfTail(a, b);
    }
  }

  lemma {:induction false} SubsequenceDropHead<T>(a: seq<T>, b: seq<T>)
    requires a != [] && IsSubsequence(a, b)
    ensures IsSubsequence(a[1..], b)
    decreases |a| + |b|
  {
    if b != [] {
      if a[0] == b[0] {
        SubsequenceOfTail(a[1..], b);
      } else {
        SubsequenceDropHead(a, b[1..]);
        SubsequenceOfTail(a[1..], b);
      }
    }
  }

  // ---------------------------------------------------------------------------
  // Tokenising: nltk.word_tokenize on text of lower-case words and single spaces

  /** The Treebank tokenizer's split of one lower-case word. On text made only
      of letters and single spaces, the only rules that apply are the ones that
      split the merged forms "cannot", "gimme", "gonna", "gotta", "lemme" and
      "wanna" into two tokens; every other word is one token. */
  function TokenizeWord(w: string): (ts: seq<string>)
    ensures 1 <= |ts| <= 2
    ensures |ts| == 2 <==> w in {"cannot", "gimme", "gonna", "gotta", "lemme", "wanna"}
    ensures |ts| == 1 ==> ts[0] == w
  {
    if w == "cannot" then ["can", "not"]
    else if w == "gimme" then ["gim", "me"]
    else if w == "gonna" then ["gon", "na"]
    else if w == "gotta" then ["got", "ta"]
    else if w == "lemme" then ["lem", "me"]
    else if w == "wanna" then ["wan", "na"]
    else [w]
  }

  /** The two tokens of a split word spell the word. */
  lemma TokenizeWordSpells(w: string)
    ensures Concat(TokenizeWord(w)) == w
  {
    var ts := TokenizeWord(w);
    if |ts| == 2 {
      assert ts[1..] == [ts[1]];
      assert Concat([ts[1]]) == ts[1] + Concat([]);
      assert ts[0] + ts[1] == w;
    } else {
      assert Concat([w]) == w + Concat([]);
    }
  }

  lemma TokenizeWordLower(w: string)
    requires LowerWord(w)
    ensures forall k :: 0 <= k < |TokenizeWord(w)| ==> LowerWord(TokenizeWord(w)[k])
  {
  }

  /** `word_tokenize(text)`, given the words of `text`: each word gives one
      token or two. */
  function Tokenize(ws: seq<string>): (ts: seq<string>)
    ensures |ws| <= |ts| <= 2 * |ws|
  {
    if ws == [] then [] else TokenizeWord(ws[0]) + Tokenize(ws[1..])
  }

  lemma {:induction false} ConcatAppend(a: seq<string>, b: seq<string>)
    ensures Concat(a + b) == Concat(a) + Concat(b)
  {
    if a == [] {
      assert a + b == b;
    } else {
      assert (a + b)[1..] == a[1..] + b;
      ConcatAppend(a[1..], b);
    }
  }

  /** Tokenising only splits words: the tokens spell the same letters. */
  lemma {:induction false} TokenizeSpells(ws: seq<string>)
    ensures Concat(Tokenize(ws)) == Concat(ws)
  {
    if ws != [] {
      TokenizeSpells(ws[1..]);
      ConcatAppend(TokenizeWord(ws[0]), Tokenize(ws[1..]));
      TokenizeWordSpells(ws[0]);
    }
  }

  /** Tokens of lower-case words are lower-case words. */
  lemma {:induction false} TokenizeLower(ws: seq<string>)
    requires forall k :: 0 <= k < |ws| ==> LowerWord(ws[k])
    ensures forall k :: 0 <= k < |Tokenize(ws)| ==> LowerWord(Tokenize(ws)[k])
  {
    if ws != [] {
      TokenizeLower(ws[1..]);
      TokenizeWordLower(ws[0]);
      var a, b := TokenizeWord(ws[0]), Tokenize(ws[1..]);
      forall k | 0 <= k < |a + b| ensures LowerWord((a + b)[k]) {
        if k < |a| {
          assert (a + b)[k] == a[k];
        } else {
          assert (a + b)[k] == b[k - |a|];
        }
      }
    }
  }

  // ---------------------------------------------------------------------------
  // The preprocessor

  lemma {:induction false} StripUrlsNoUpper(t: string)
    requires NoUpper(t)
    ensures NoUpper(StripUrls(t))
    decreases |t|
  {
    if t != [] {
      var n := UrlMatch(t);
      if n > 0 {
        StripUrlsNoUpper(t[n..]);
      } else {
        StripUrlsNoUpper(t[1..]);
      }
    }
  }

  lemma {:induction false} StripTagsNoUpper(t: string)
    requires NoUpper(t)
    ensures NoUpper(StripTags(t))
    decreases |t|
  {
    if t != [] {
      var n := TagMatch(t);
      if n > 0 {
        StripTagsNoUpper(t[n..]);
      } else {
        StripTagsNoUpper(t[1..]);
      }
    }
  }

  /** The text after the three substitutions: lower-cased, then URL runs,
      mention and hashtag runs, and every character other than a letter or
      whitespace deleted. */
  function Substituted(s: string): (r: string)
    ensures forall i :: 0 <= i < |r| ==> IsLowerLetter(r[i]) || IsSpace(r[i])
  {
    StripUrlsNoUpper(Lower(s));
    StripTagsNoUpper(StripUrls(Lower(s)));
    KeepNoUpper(StripTags(StripUrls(Lower(s))));
    KeepLettersAndSpace(StripTags(StripUrls(Lower(s))))
  }

  /** The text after the whitespace has been collapsed. */
  function Collapsed(s: string): (r: string)
    ensures Normalized(r)
    ensures Split(r) == Split(Substituted(s))
  {
    SplitLowerWords(Substituted(s));
    JoinNormalized(Split(Substituted(s)));
    SplitJoin(Split(Substituted(s)));
    Join(Split(Substituted(s)), " ")
  }

  /** The stop-word pass over collapsed text: tokenise its words, drop the
      stop words and join the rest with single spaces. */
  function DropStopWords(c: string, stopWords: set<string>): (r: string)
    requires Normalized(c)
    ensures Normalized(r)
    ensures Split(r) == RemoveStopWords(Tokenize(Split(c)), stopWords)
  {
    SplitLowerWords(c);
    TokenizeLower(Split(c));
    var kept := RemoveStopWords(Tokenize(Split(c)), stopWords);
    JoinNormalized(kept);
    SplitJoin(kept);
    Join(kept, " ")
  }

  /** A `DataPreprocessor`; the only part of its state `clean_text` uses is the
      stop-word set. */
  datatype DataPreprocessor = DataPreprocessor(stopWords: set<string>) {

    /** `clean_text(text)` */
    function CleanText(text: Value): (r: string)
      ensures !text.Str? ==> r == ""
      ensures Normalized(r)
      ensures forall k :: 0 <= k < |Split(r)| ==> Split(r)[k] !in stopWords
    {
      match text
      case Str(s) =>
        var c := Collapsed(s);
        if stopWords != {} then DropStopWords(c, stopWords) else c
      case _ => ""
    }
  }

  /** `DataPreprocessor()`: the stop words are NLTK's English list when it can
      be loaded, and the empty set when loading raises. */
  function NewDataPreprocessor(englishStopWords: Option<set<string>>): (p: DataPreprocessor)
    ensures englishStopWords.Some? ==> p.stopWords == englishStopWords.value
    ensures englishStopWords.None? ==> p.stopWords == {}
  {
    match englishStopWords
    case Some(ws) => DataPreprocessor(ws)
    case None => DataPreprocessor({})
  }

  /** With a stop-word set, the cleaned words are exactly the tokens of the
      collapsed text that are not stop words, in their original order. */
  lemma CleanTextWords(p: DataPreprocessor, s: string)
    requires p.stopWords != {}
    ensures Split(p.CleanText(Str(s))) == RemoveStopWords(Tokenize(Split(Substituted(s))), p.stopWords)
  {
  }

  /** Without stop words, the cleaned text is the substituted text with its
      whitespace collapsed: same words, same order. */
  lemma CleanTextWithoutStopWords(p: DataPreprocessor, s: string)
    requires p.stopWords == {}
    ensures Split(p.CleanText(Str(s))) == Split(Substituted(s))
    ensures NonSpace(p.CleanText(Str(s))) == NonSpace(Substituted(s))
  {
    NonSpaceJoin(Split(Substituted(s)));
    SplitKeepsNonSpace(Substituted(s));
  }

  /** Without stop words, and on text with no URL, mention or hashtag match,
      the cleaner agrees with the detector's `preprocess_text`. */
  lemma CleanTextMatchesPreprocess(p: DataPreprocessor, s: string)
    requires p.stopWords == {}
    requires UrlFree(Lower(s)) && TagFree(Lower(s))
    ensures p.CleanText(Str(s)) == PreprocessText(s)
  {
    StripUrlsOfUrlFree(Lower(s));
    StripTagsOfTagFree(Lower(s));
  }

  /** No URL match survives the URL pass, and no mention or hashtag match
      survives the pass after it. */
  lemma CleanTextStripsUrlsAndTags(s: string)
    ensures UrlFree(StripUrls(Lower(s)))
    ensures TagFree(StripTags(StripUrls(Lower(s))))
  {
    StripUrlsLeavesNoUrl(Lower(s));
    StripTagsLeavesNoTag(StripUrls(Lower(s)));
  }
}
