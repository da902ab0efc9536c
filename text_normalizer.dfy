/**
  `HateSpeechDetector.preprocess_text`: lower-case the text, delete every
  character that is neither an ASCII letter nor whitespace, then collapse each
  whitespace run to one space and trim both ends.
 */
module TextNormalizer {
  import opened PyStrings

  /** Text in which every character is a lower-case ASCII letter or a space. */
  predicate LettersAndSpaces(t: string) {
    forall i :: 0 <= i < |t| ==> IsLowerLetter(t[i]) || t[i] == ' '
  }

  /** What the normaliser produces: lower-case letters and single interior spaces. */
  predicate Normalized(t: string) {
    LettersAndSpaces(t) && SingleSpaced(t)
  }

  /** The substitution `re.sub(r'[^a-zA-Z\s]', '', text)`. */
  function KeepLettersAndSpace(s: string): (r: string)
    ensures forall i :: 0 <= i < |r| ==> IsAsciiLetter(r[i]) || IsSpace(r[i])
    ensures |r| <= |s|
  {
    if s == [] then []
    else (if IsAsciiLetter(s[0]) || IsSpace(s[0]) then [s[0]] else []) + KeepLettersAndSpace(s[1..])
  }

  /** Text without upper-case ASCII letters, as `str.lower()` leaves it. */
  predicate NoUpper(s: string) {
    forall i :: 0 <= i < |s| ==> !('A' <= s[i] <= 'Z')
  }

  lemma {:induction false} KeepNoUpper(s: string)
    requires NoUpper(s)
    ensures NoUpper(KeepLettersAndSpace(s))
  {
    if s != [] {
      KeepNoUpper(s[1..]);
    }
  }

  /** The ASCII letters of `s`, in order. */
  function LettersOf(s: string): string {
    if s == [] then []
    else (if IsAsciiLetter(s[0]) then [s[0]] else []) + LettersOf(s[1..])
  }

  /** A word of normalised text: a non-empty run of lower-case letters. */
  predicate LowerWord(w: string) {
    |w| > 0 && forall i :: 0 <= i < |w| ==> IsLowerLetter(w[i])
  }

  /** The words of text made of lower-case letters and whitespace are lower-case words. */
  lemma SplitLowerWords(s: string)
    requires forall i :: 0 <= i < |s| ==> IsLowerLetter(s[i]) || IsSpace(s[i])
    ensures forall k :: 0 <= k < |Split(s)| ==> LowerWord(Split(s)[k])
  {
    var ws := Split(s);
    forall k, i | 0 <= k < |ws| && 0 <= i < |ws[k]| ensures IsLowerLetter(ws[k][i]) {
      var j :| 0 <= j < |s| && s[j] == ws[k][i];
    }
  }

  /** Lower-case words joined by single spaces are normalised text. */
  lemma JoinNormalized(ws: seq<string>)
    requires forall k :: 0 <= k < |ws| ==> LowerWord(ws[k])
    ensures Normalized(Join(ws, " "))
  {
    JoinIsSingleSpaced(ws);
    var r := Join(ws, " ");
    forall i | 0 <= i < |r| ensures IsLowerLetter(r[i]) || r[i] == ' ' {
      JoinChars(ws, " ", r[i]);
      if r[i] !in " " {
        var k :| 0 <= k < |ws| && r[i] in ws[k];
        var m :| 0 <= m < |ws[k]| && ws[k][m] == r[i];
      }
    }
  }

  /** `preprocess_text`, with the shape of its output. */
  function PreprocessText(text: string): (r: string)
    ensures Normalized(r)
  {
    var kept := KeepLettersAndSpace(Lower(text));
    KeepNoUpper(Lower(text));
    SplitLowerWords(kept);
    JoinNormalized(Split(kept));
    Join(Split(kept), " ")
  }

  /** The output never starts or ends with a space and never holds two spaces in a row. */
  lemma PreprocessSpacing(text: string)
    ensures var r := PreprocessText(text);
      && (r != [] ==> r[0] != ' ' && r[|r| - 1] != ' ')
      && forall i :: 0 <= i < |r| - 1 ==> !(r[i] == ' ' && r[i + 1] == ' ')
  {
    var r := PreprocessText(text);
    forall i | 0 <= i < |r| - 1 ensures !(r[i] == ' ' && r[i + 1] == ' ') {
      var j := i + 1;
      assert !IsSpace(r[i]) || !IsSpace(r[j]);
    }
  }

  lemma {:induction false} KeepAppend(a: string, b: string)
    ensures KeepLettersAndSpace(a + b) == KeepLettersAndSpace(a) + KeepLettersAndSpace(b)
  {
    if a == [] {
      assert a + b == b;
    } else {
      assert (a + b)[1..] == a[1..] + b;
      KeepAppend(a[1..], b);
    }
  }

  lemma {:induction false} KeepOfNormalized(t: string)
    requires LettersAndSpaces(t)
    ensures KeepLettersAndSpace(t) == t
  {
    if t != [] {
      KeepOfNormalized(t[1..]);
      assert t == [t[0]] + t[1..];
    }
  }

  lemma LowerOfNormalized(t: string)
    requires LettersAndSpaces(t)
    ensures Lower(t) == t
  {
  }

  lemma {:induction false} NonSpaceOfKept(s: string)
    ensures NonSpace(KeepLettersAndSpace(s)) == LettersOf(s)
  {
    if s != [] {
      NonSpaceOfKept(s[1..]);
      var head := if IsAsciiLetter(s[0]) || IsSpace(s[0]) then [s[0]] else [];
      NonSpaceAppend(head, KeepLettersAndSpace(s[1..]));
    }
  }

  /** Normalised text is a fixed point of the normaliser. */
  lemma PreprocessFixesNormalized(t: string)
    requires Normalized(t)
    ensures PreprocessText(t) == t
  {
    LowerOfNormalized(t);
    KeepOfNormalized(t);
    JoinSplit(t);
  }

  /** Normalising normalised text changes nothing. */
  lemma PreprocessIdempotent(text: string)
    ensures PreprocessText(PreprocessText(text)) == PreprocessText(text)
  {
    PreprocessFixesNormalized(PreprocessText(text));
  }

  /** The output holds exactly the letters of the input, lower-cased and in
      their original order; only the spacing between them differs. */
  lemma PreprocessKeepsLetters(text: string)
    ensures NonSpace(PreprocessText(text)) == LettersOf(Lower(text))
  {
    var kept := KeepLettersAndSpace(Lower(text));
    NonSpaceJoin(Split(kept));
    SplitKeepsNonSpace(kept);
    NonSpaceOfKept(Lower(text));
  }

  /** The output's words are exactly the whitespace-separated words of the
      letters-and-whitespace text, in order. */
  lemma PreprocessKeepsWords(text: string)
    ensures Split(PreprocessText(text)) == Split(KeepLettersAndSpace(Lower(text)))
  {
    SplitJoin(Split(KeepLettersAndSpace(Lower(text))));
  }

  /** Case does not matter: texts that agree after lower-casing agree after normalising. */
  lemma PreprocessIgnoresCase(s: string, t: string)
    requires |s| == |t| && forall i :: 0 <= i < |s| ==> LowerChar(s[i]) == LowerChar(t[i])
    ensures PreprocessText(s) == PreprocessText(t)
  {
    assert Lower(s) == Lower(t);
  }

  lemma LowerAppend(a: string, b: string)
    ensures Lower(a + b) == Lower(a) + Lower(b)
  {
    var l := Lower(a) + Lower(b);
    assert |Lower(a + b)| == |l|;
    forall i | 0 <= i < |l| ensures Lower(a + b)[i] == l[i] {
      if i < |a| {
        assert (a + b)[i] == a[i];
      } else {
        assert (a + b)[i] == b[i - |a|];
      }
    }
  }

  lemma KeptIgnoresOtherChar(a: string, c: char, b: string)
    requires !IsAsciiLetter(c) && !IsSpace(c)
    ensures KeepLettersAndSpace(Lower(a + [c] + b)) == KeepLettersAndSpace(Lower(a + b))
  {
    var la, lb := Lower(a), Lower(b);
    assert Lower(a + [c] + b) == la + [c] + lb by {
      LowerAppend(a + [c], b);
      LowerAppend(a, [c]);
    }
    assert Lower(a + b) == la + lb by {
      LowerAppend(a, b);
    }
    assert KeepLettersAndSpace(la + [c] + lb) == KeepLettersAndSpace(la) + KeepLettersAndSpace(lb) by {
      KeepAppend(la + [c], lb);
      KeepAppend(la, [c]);
      assert KeepLettersAndSpace([c]) == [];
    }
    KeepAppend(la, lb);
  }

  /** Digits and punctuation do not matter: deleting one such character
      anywhere in the text leaves the result unchanged. */
  lemma PreprocessIgnoresOtherChars(a: string, c: char, b: string)
    requires !IsAsciiLetter(c) && !IsSpace(c)
    ensures PreprocessText(a + [c] + b) == PreprocessText(a + b)
  {
    KeptIgnoresOtherChar(a, c, b);
  }

  lemma ExampleLower()
    ensures Lower("HELLO, World!!") == "hello" + [','] + " world" + "!!"
  {
  }

  lemma {:induction false} KeepNone(d: string)
    requires forall i :: 0 <= i < |d| ==> !IsAsciiLetter(d[i]) && !IsSpace(d[i])
    ensures KeepLettersAndSpace(d) == []
  {
    if d != [] {
      KeepNone(d[1..]);
    }
  }

  /** Letters and spaces survive the substitution, the other characters between them do not. */
  lemma KeepOfMixed(a: string, c: char, b: string, d: string)
    requires LettersAndSpaces(a) && LettersAndSpaces(b) && !IsAsciiLetter(c) && !IsSpace(c)
    requires forall i :: 0 <= i < |d| ==> !IsAsciiLetter(d[i]) && !IsSpace(d[i])
    ensures KeepLettersAndSpace(a + [c] + b + d) == a + b
  {
    var x := a + [c];
    assert KeepLettersAndSpace(x) == a by {
      KeepAppend(a, [c]);
      KeepOfNormalized(a);
      assert KeepLettersAndSpace([c]) == [];
    }
    assert KeepLettersAndSpace(x + b) == a + b by {
      KeepAppend(x, b);
      KeepOfNormalized(b);
    }
    KeepAppend(x + b, d);
    KeepNone(d);
  }

  lemma ExampleKept()
    ensures KeepLettersAndSpace("hello" + [','] + " world" + "!!") == "hello world"
  {
    KeepOfMixed("hello", ',', " world", "!!");
    assert "hello" + " world" == "hello world";
  }

  lemma ExampleNormalized()
    ensures Normalized("hello world")
  {
  }

  /** "HELLO, World!!" and "hello world" both normalise to "hello world". */
  lemma PreprocessExample()
    ensures PreprocessText("HELLO, World!!") == "hello world"
    ensures PreprocessText("hello world") == "hello world"
  {
    ExampleLower();
    ExampleKept();
    ExampleNormalized();
    JoinSplit("hello world");
    PreprocessFixesNormalized("hello world");
  }
}
