/**
  The Python string built-ins the text cleaners are made of: character classes,
  `str.lower()`, `str.split()` with no separator and `sep.join(words)`.
  Strings are sequences of Unicode scalar values, as Python's `str` is.
 */
module PyStrings {

  /** `str.isspace()` on one character. This is also the set that `str.split()`
      splits on and that the regular-expression class `\s` matches: the ASCII
      controls 9-13, the separators 28-31, space, NEL, no-break space and the
      Unicode space separators and line/paragraph separators. */
  predicate IsSpace(c: char) {
    var n := c as int;
    (9 <= n <= 13) || (28 <= n <= 32) || n == 0x85 || n == 0xA0 || n == 0x1680
    || (0x2000 <= n <= 0x200A) || n == 0x2028 || n == 0x2029 || n == 0x202F
    || n == 0x205F || n == 0x3000
  }

  /** The regular-expression class `[a-zA-Z]`. */
  predicate IsAsciiLetter(c: char) {
    ('a' <= c <= 'z') || ('A' <= c <= 'Z')
  }

  predicate IsLowerLetter(c: char) {
    'a' <= c <= 'z'
  }

  /** The regular-expression class `\w`, restricted to ASCII: letters, digits, underscore. */
  predicate IsWordChar(c: char) {
    IsAsciiLetter(c) || ('0' <= c <= '9') || c == '_'
  }

  /** `str.lower()` on one character, for the ASCII alphabet. */
  function LowerChar(c: char): (r: char)
    ensures IsAsciiLetter(c) <==> IsLowerLetter(r)
    ensures IsAsciiLetter(c) ==> IsAsciiLetter(r)
    ensures !IsAsciiLetter(c) ==> r == c
    ensures IsLowerLetter(c) ==> r == c
  {
    if 'A' <= c <= 'Z' then (c as int + 32) as char else c
  }

  /** `str.lower()`: every upper-case ASCII letter replaced by its lower-case form. */
  function Lower(s: string): (r: string)
    ensures |r| == |s|
    ensures forall i :: 0 <= i < |s| ==> r[i] == LowerChar(s[i])
  {
    seq(|s|, i requires 0 <= i < |s| => LowerChar(s[i]))
  }

  /** A word as `str.split()` yields it: non-empty, no whitespace in it. */
  predicate IsWord(w: string) {
    |w| > 0 && forall i :: 0 <= i < |w| ==> !IsSpace(w[i])
  }

  /** Length of the longest prefix of `s` that holds no whitespace. */
  function RunLen(s: string): (n: nat)
    ensures n <= |s|
    ensures forall i :: 0 <= i < n ==> !IsSpace(s[i])
    ensures n < |s| ==> IsSpace(s[n])
  {
    if s == [] || IsSpace(s[0]) then 0 else 1 + RunLen(s[1..])
  }

  /** `s.split()`: the maximal runs of non-whitespace characters of `s`, in order.
      Every piece is a word made of characters of `s`. */
  function Split(s: string): (ws: seq<string>)
    ensures forall k :: 0 <= k < |ws| ==> IsWord(ws[k])
    ensures forall k, i :: 0 <= k < |ws| && 0 <= i < |ws[k]| ==> ws[k][i] in s
    decreases |s|
  {
    if s == [] then []
    else if IsSpace(s[0]) then
      var rest := Split(s[1..]);
      assert forall k, i :: 0 <= k < |rest| && 0 <= i < |rest[k]| ==> rest[k][i] in s by {
        forall k, i | 0 <= k < |rest| && 0 <= i < |rest[k]| ensures rest[k][i] in s {
          InSuffix(s, 1, rest[k][i]);
        }
      }
      rest
    else
      var n := RunLen(s);
      var rest := Split(s[n..]);
      var ws := [s[..n]] + rest;
      assert forall k, i :: 0 <= k < |ws| && 0 <= i < |ws[k]| ==> ws[k][i] in s by {
        forall k, i | 0 <= k < |ws| && 0 <= i < |ws[k]| ensures ws[k][i] in s {
          if k == 0 {
            assert ws[k][i] == s[i];
          } else {
            assert ws[k][i] == rest[k - 1][i];
            InSuffix(s, n, rest[k - 1][i]);
          }
        }
      }
      ws
  }

  lemma InSuffix(s: string, n: nat, c: char)
    requires n <= |s| && c in s[n..]
    ensures c in s
  {
    var i :| 0 <= i < |s[n..]| && s[n..][i] == c;
    assert s[n + i] == c;
  }

  /** `sep.join(ws)`. */
  function Join(ws: seq<string>, sep: string): (r: string)
    ensures |ws| == 1 ==> r == ws[0]
    ensures ws == [] ==> r == []
  {
    if ws == [] then []
    else if |ws| == 1 then ws[0]
    else ws[0] + sep + Join(ws[1..], sep)
  }

  /** Text whose only whitespace is single spaces between non-whitespace
      characters: no whitespace at either end, never two in a row. */
  predicate SingleSpaced(t: string) {
    && (forall i :: 0 <= i < |t| && IsSpace(t[i]) ==> t[i] == ' ')
    && (|t| > 0 ==> !IsSpace(t[0]) && !IsSpace(t[|t| - 1]))
    && (forall i, j :: 0 <= i < |t| && j == i + 1 && j < |t| ==> !IsSpace(t[i]) || !IsSpace(t[j]))
  }

  /** Non-whitespace characters of `t`, in order. */
  function NonSpace(t: string): (r: string)
    ensures forall i :: 0 <= i < |r| ==> !IsSpace(r[i])
  {
    if t == [] then []
    else (if IsSpace(t[0]) then [] else [t[0]]) + NonSpace(t[1..])
  }

  /** All words concatenated. */
  function Concat(ws: seq<string>): string {
    if ws == [] then [] else ws[0] + Concat(ws[1..])
  }

  lemma {:induction false} NonSpaceAppend(a: string, b: string)
    ensures NonSpace(a + b) == NonSpace(a) + NonSpace(b)
  {
    if a == [] {
      assert a + b == b;
    } else {
      assert (a + b)[1..] == a[1..] + b;
      NonSpaceAppend(a[1..], b);
    }
  }

  lemma {:induction false} NonSpaceOfWord(w: string)
    requires forall i :: 0 <= i < |w| ==> !IsSpace(w[i])
    ensures NonSpace(w) == w
  {
    if w != [] {
      NonSpaceOfWord(w[1..]);
      assert w == [w[0]] + w[1..];
    }
  }

  /** Joining words with single spaces and removing the spaces again gives the
      words' characters back, in order. */
  lemma {:induction false} NonSpaceJoin(ws: seq<string>)
    requires forall k :: 0 <= k < |ws| ==> IsWord(ws[k])
    ensures NonSpace(Join(ws, " ")) == Concat(ws)
  {
    if ws == [] {
    } else if |ws| == 1 {
      NonSpaceOfWord(ws[0]);
      assert Concat(ws[1..]) == [];
    } else {
      var w, j := ws[0], Join(ws[1..], " ");
      assert Join(ws, " ") == (w + " ") + j;
      NonSpaceJoin(ws[1..]);
      NonSpaceAppend(w + " ", j);
      NonSpaceAppend(w, " ");
      NonSpaceOfWord(w);
      assert NonSpace(" ") == [];
      assert Concat(ws) == w + Concat(ws[1..]);
    }
  }

  /** `str.split()` drops the whitespace and nothing else: its words spell out
      the non-whitespace characters of the input, in order. */
  lemma {:induction false} SplitKeepsNonSpace(s: string)
    ensures Concat(Split(s)) == NonSpace(s)
    decreases |s|
  {
    if s == [] {
    } else if IsSpace(s[0]) {
      SplitKeepsNonSpace(s[1..]);
    } else {
      var n := RunLen(s);
      SplitKeepsNonSpace(s[n..]);
      assert s == s[..n] + s[n..];
      NonSpaceAppend(s[..n], s[n..]);
      NonSpaceOfWord(s[..n]);
      assert Split(s)[1..] == Split(s[n..]);
    }
  }

  lemma RunOfWordThenSpace(w: string, t: string)
    requires IsWord(w) && t != [] && IsSpace(t[0])
    ensures RunLen(w + t) == |w|
  {
    assert forall i :: 0 <= i < |w| ==> (w + t)[i] == w[i];
    assert (w + t)[|w|] == t[0];
  }

  lemma RunOfWholeWord(w: string)
    requires IsWord(w)
    ensures RunLen(w) == |w|
  {
  }

  /** Round trip: splitting words joined by single spaces gives the words back. */
  lemma {:induction false} SplitJoin(ws: seq<string>)
    requires forall k :: 0 <= k < |ws| ==> IsWord(ws[k])
    ensures Split(Join(ws, " ")) == ws
  {
    if ws == [] {
    } else if |ws| == 1 {
      var w := ws[0];
      RunOfWholeWord(w);
      assert w[|w|..] == [];
      assert w[..|w|] == w;
    } else {
      var w := ws[0];
      var j := Join(ws[1..], " ");
      var t := " " + j;
      assert Join(ws, " ") == w + t;
      RunOfWordThenSpace(w, t);
      assert (w + t)[..|w|] == w;
      assert (w + t)[|w|..] == t;
      assert t[1..] == j;
      SplitJoin(ws[1..]);
    }
  }

  /** The other round trip: a single-spaced text is what joining its own words
      gives, so `' '.join(t.split())` leaves it unchanged. */
  lemma {:induction false} JoinSplit(t: string)
    requires SingleSpaced(t)
    ensures Join(Split(t), " ") == t
    decreases |t|
  {
    if t != [] {
      var n := RunLen(t);
      if n == |t| {
        assert t[..n] == t;
        assert t[n..] == [];
      } else {
        var w, rest := t[..n], t[n + 1..];
        SingleSpacedAfterFirstWord(t, n);
        JoinSplit(rest);
        SplitAtSpace(t, n);
        var ws := Split(rest);
        assert ws != [];
        JoinCons(w, ws, " ");
        SliceAround(t, n);
      }
    }
  }

  /** A text that starts with a word followed by one space splits into that
      word and the words of what follows the space. */
  lemma SplitAtSpace(t: string, n: nat)
    requires t != [] && !IsSpace(t[0]) && n == RunLen(t) && n + 1 < |t|
    requires !IsSpace(t[n + 1])
    ensures Split(t) == [t[..n]] + Split(t[n + 1..])
  {
    var u := t[n..];
    assert u[1..] == t[n + 1..];
    assert Split(u) == Split(u[1..]);
  }

  lemma SliceAround(t: string, n: nat)
    requires n < |t| && t[n] == ' '
    ensures t == t[..n] + " " + t[n + 1..]
  {
  }

  lemma JoinCons(w: string, ws: seq<string>, sep: string)
    requires ws != []
    ensures Join([w] + ws, sep) == w + sep + Join(ws, sep)
  {
    assert ([w] + ws)[1..] == ws;
  }

  /** The part of a single-spaced text after its first word and the space
      behind it is single-spaced and does not start with whitespace. */
  lemma SingleSpacedAfterFirstWord(t: string, n: nat)
    requires SingleSpaced(t) && t != [] && n == RunLen(t) < |t|
    ensures t[n] == ' ' && n + 1 < |t| && !IsSpace(t[n + 1])
    ensures SingleSpaced(t[n + 1..])
  {
    var rest := t[n + 1..];
    forall i | 0 <= i < |rest| && IsSpace(rest[i])
      ensures rest[i] == ' ' && 0 < i < |rest| - 1 && !IsSpace(rest[i - 1]) && !IsSpace(rest[i + 1])
    {
      assert rest[i] == t[n + 1 + i];
    }
  }

  /** Joining words with single spaces gives single-spaced text. */
  lemma {:induction false} JoinIsSingleSpaced(ws: seq<string>)
    requires forall k :: 0 <= k < |ws| ==> IsWord(ws[k])
    ensures SingleSpaced(Join(ws, " "))
  {
    if |ws| > 1 {
      var w := ws[0];
      var j := Join(ws[1..], " ");
      JoinIsSingleSpaced(ws[1..]);
      var t := w + " " + j;
      assert j != [] && !IsSpace(j[0]) by {
        if |ws[1..]| == 1 {
        } else {
          assert j == ws[1] + " " + Join(ws[2..], " ") by {
            assert ws[1..][1..] == ws[2..];
          }
          assert j[0] == ws[1][0];
        }
      }
      forall i | 0 <= i < |t| && IsSpace(t[i])
        ensures t[i] == ' ' && 0 < i < |t| - 1 && !IsSpace(t[i - 1]) && !IsSpace(t[i + 1])
      {
        if i < |w| {
          assert false;
        } else if i == |w| {
          assert t[i - 1] == w[|w| - 1];
          assert t[i + 1] == j[0];
        } else {
          var m := i - |w| - 1;
          assert t[i] == j[m];
          if m > 0 {
            assert t[i - 1] == j[m - 1];
          }
          assert t[i + 1] == j[m + 1];
        }
      }
    }
  }

  /** Every character of a joined text is a separator character or a
      character of one of the words. */
  lemma {:induction false} JoinChars(ws: seq<string>, sep: string, c: char)
    requires c in Join(ws, sep)
    ensures c in sep || exists k :: 0 <= k < |ws| && c in ws[k]
  {
    if |ws| > 1 {
      var j := Join(ws[1..], sep);
      if c in ws[0] {
      } else if c in sep {
      } else {
        assert c in j;
        JoinChars(ws[1..], sep, c);
        var k :| 0 <= k < |ws[1..]| && c in ws[1..][k];
        assert c in ws[k + 1];
      }
    }
  }
}
