/** The clean-up applied to the text extracted from a page: every line is
    stripped, cut at each double space, the pieces are stripped again, and the
    non-empty pieces are joined with single spaces. */
module Cleanup {
  import opened Text
  import opened Seqs

  /** No character of s ends a line. */
  predicate NoLineBreak(s: string)
  {
    forall c :: c in s ==> !IsLineBreak(c)
  }

  /** s holds no two spaces in a row. */
  predicate NoDoubleSpace(s: string)
  {
    forall i :: 0 < i < |s| ==> !(s[i - 1] == ' ' && s[i] == ' ')
  }

  /** What the clean-up promises of its output. */
  predicate Clean(s: string)
  {
    && NoLineBreak(s)
    && NoDoubleSpace(s)
    && (s == [] || (!IsSpace(s[0]) && !IsSpace(s[|s| - 1])))
  }

  /** `s.splitlines()`, cutting at every line-break character. Unlike Python
      it gives `[""]` for `""`, an empty last line after a final break, and two
      breaks for `\r\n`: only extra empty lines, which the clean-up drops. */
  function SplitLines(s: string): (lines: seq<string>)
    ensures |lines| >= 1
    decreases |s|
  {
    if s == [] then [[]]
    else if IsLineBreak(s[0]) then [[]] + SplitLines(s[1..])
    else
      var r := SplitLines(s[1..]);
      [[s[0]] + r[0]] + r[1..]
  }

  /** No line holds a line break. */
  lemma {:induction false} SplitLinesNoBreaks(s: string)
    ensures forall k :: 0 <= k < |SplitLines(s)| ==> NoLineBreak(SplitLines(s)[k])
    decreases |s|
  {
    if s != [] {
      SplitLinesNoBreaks(s[1..]);
      var r := SplitLines(s[1..]);
      if !IsLineBreak(s[0]) {
        var lines := [[s[0]] + r[0]] + r[1..];
        forall k | 0 <= k < |lines| ensures NoLineBreak(lines[k]) {
          if k > 0 {
            assert lines[k] == r[k];
          } else {
            assert NoLineBreak(r[0]);
          }
        }
      }
    }
  }

  /** `s.split("  ")`: cut at each double space, scanning from the left. */
  function SplitOnDoubleSpace(s: string): (parts: seq<string>)
    ensures |parts| >= 1
    decreases |s|
  {
    if s == [] then [[]]
    else if |s| >= 2 && s[0] == ' ' && s[1] == ' ' then [[]] + SplitOnDoubleSpace(s[2..])
    else
      var r := SplitOnDoubleSpace(s[1..]);
      [[s[0]] + r[0]] + r[1..]
  }

  /** The first piece is a prefix of s. */
  lemma {:induction false} SplitOnDoubleSpacePrefix(s: string)
    ensures var first := SplitOnDoubleSpace(s)[0];
      |first| <= |s| && first == s[..|first|]
    decreases |s|
  {
    if s != [] && !(|s| >= 2 && s[0] == ' ' && s[1] == ' ') {
      var r := SplitOnDoubleSpace(s[1..]);
      SplitOnDoubleSpacePrefix(s[1..]);
      var first := [s[0]] + r[0];
      assert SplitOnDoubleSpace(s)[0] == first;
      assert s[..|first|] == [s[0]] + s[1..][..|r[0]|];
    }
  }

  /** No piece holds a double space. */
  lemma {:induction false} SplitOnDoubleSpaceNoDouble(s: string)
    ensures forall k :: 0 <= k < |SplitOnDoubleSpace(s)| ==> NoDoubleSpace(SplitOnDoubleSpace(s)[k])
    decreases |s|
  {
    var parts := SplitOnDoubleSpace(s);
    if s == [] {
    } else if |s| >= 2 && s[0] == ' ' && s[1] == ' ' {
      var r := SplitOnDoubleSpace(s[2..]);
      SplitOnDoubleSpaceNoDouble(s[2..]);
      assert parts == [[]] + r;
      forall k | 0 < k < |parts| ensures parts[k] == r[k - 1] {
      }
    } else {
      var r := SplitOnDoubleSpace(s[1..]);
      SplitOnDoubleSpaceNoDouble(s[1..]);
      SplitOnDoubleSpacePrefix(s[1..]);
      var first := [s[0]] + r[0];
      assert parts == [first] + r[1..];
      assert NoDoubleSpace(first) by {
        forall i | 0 < i < |first| ensures !(first[i - 1] == ' ' && first[i] == ' ') {
          if i == 1 {
            assert first[1] == r[0][0] == s[1];
          } else {
            assert first[i - 1] == r[0][i - 2] && first[i] == r[0][i - 1];
          }
        }
      }
      forall k | 0 < k < |parts| ensures parts[k] == r[k] {
      }
    }
  }

  /** The pieces of a string without line breaks have none either. */
  lemma {:induction false} SplitOnDoubleSpaceNoBreaks(s: string)
    requires NoLineBreak(s)
    ensures forall k :: 0 <= k < |SplitOnDoubleSpace(s)| ==> NoLineBreak(SplitOnDoubleSpace(s)[k])
    decreases |s|
  {
    var parts := SplitOnDoubleSpace(s);
    if s == [] {
    } else if |s| >= 2 && s[0] == ' ' && s[1] == ' ' {
      var r := SplitOnDoubleSpace(s[2..]);
      assert NoLineBreak(s[2..]) by {
        forall c | c in s[2..] ensures !IsLineBreak(c) {
          SliceChars(s, 2, |s|, c);
        }
      }
      SplitOnDoubleSpaceNoBreaks(s[2..]);
      assert parts == [[]] + r;
      forall k | 0 < k < |parts| ensures parts[k] == r[k - 1] {
      }
    } else {
      var r := SplitOnDoubleSpace(s[1..]);
      assert NoLineBreak(s[1..]) by {
        forall c | c in s[1..] ensures !IsLineBreak(c) {
          SliceChars(s, 1, |s|, c);
        }
      }
      SplitOnDoubleSpaceNoBreaks(s[1..]);
      var first := [s[0]] + r[0];
      assert parts == [first] + r[1..];
      assert NoLineBreak(first) by {
        forall c | c in first ensures !IsLineBreak(c) {
          if c != s[0] {
            assert c in r[0];
          }
        }
      }
      forall k | 0 < k < |parts| ensures parts[k] == r[k] {
      }
    }
  }

  /** `sep.join(parts)` */
  function JoinWith(parts: seq<string>, sep: string): string
  {
    if parts == [] then []
    else if |parts| == 1 then parts[0]
    else parts[0] + sep + JoinWith(parts[1..], sep)
  }

  lemma JoinWithEmptyFirst(r: seq<string>, sep: string)
    requires |r| >= 1
    ensures JoinWith([[]] + r, sep) == sep + JoinWith(r, sep)
  {
    assert ([[]] + r)[1..] == r;
    assert [] + sep == sep;
  }

  lemma JoinWithPrepend(c: char, r: seq<string>, sep: string)
    requires |r| >= 1
    ensures JoinWith([[c] + r[0]] + r[1..], sep) == [c] + JoinWith(r, sep)
  {
    var parts := [[c] + r[0]] + r[1..];
    assert parts[0] == [c] + r[0] && parts[1..] == r[1..];
    if |r| > 1 {
      var tail := JoinWith(r[1..], sep);
      assert JoinWith(parts, sep) == ([c] + r[0]) + sep + tail;
      assert JoinWith(r, sep) == r[0] + sep + tail;
      assert ([c] + r[0]) + sep + tail == [c] + (r[0] + sep + tail);
    }
  }

  /** Round trip: joining the pieces with the double space gives the string
      back. */
  lemma {:induction false} SplitOnDoubleSpaceJoins(s: string)
    ensures JoinWith(SplitOnDoubleSpace(s), "  ") == s
    decreases |s|
  {
    if s == [] {
    } else if |s| >= 2 && s[0] == ' ' && s[1] == ' ' {
      var r := SplitOnDoubleSpace(s[2..]);
      SplitOnDoubleSpaceJoins(s[2..]);
      JoinWithEmptyFirst(r, "  ");
      assert s == "  " + s[2..];
    } else {
      var r := SplitOnDoubleSpace(s[1..]);
      SplitOnDoubleSpaceJoins(s[1..]);
      JoinWithPrepend(s[0], r, "  ");
      assert s == [s[0]] + s[1..];
    }
  }

  /** The phrases of one line. */
  function LinePhrases(line: string): seq<string>
  {
    Map(SplitOnDoubleSpace(Strip(line)), Strip)
  }

  /** The phrases of every line, in order. */
  function Phrases(lines: seq<string>): seq<string>
  {
    if lines == [] then [] else LinePhrases(lines[0]) + Phrases(lines[1..])
  }

  predicate NonEmpty(s: string)
  {
    s != []
  }

  /** The text after clean-up. */
  function CleanText(text: string): string
  {
    JoinWith(Filter(Phrases(SplitLines(text)), NonEmpty), " ")
  }

  // ---------------------------------------------------------------------------
  // What the clean-up guarantees
  // ---------------------------------------------------------------------------

  lemma SliceChars(s: string, a: nat, b: nat, c: char)
    requires a <= b <= |s| && c in s[a..b]
    ensures c in s
  {
    var i :| 0 <= i < b - a && s[a..b][i] == c;
    assert s[a + i] == c;
  }

  /** A stripped piece of a line without line breaks is clean. */
  lemma StrippedPieceClean(s: string)
    requires NoLineBreak(s) && NoDoubleSpace(s)
    ensures Clean(Strip(s))
  {
    var k := StripStart(s);
    var r := Strip(s);
    forall c | c in r ensures !IsLineBreak(c) {
      SliceChars(s, k, k + |r|, c);
    }
    forall i | 0 < i < |r| ensures !(r[i - 1] == ' ' && r[i] == ' ') {
      assert r[i - 1] == s[k + i - 1] && r[i] == s[k + i];
    }
  }

  /** Every phrase in ps is clean. */
  predicate AllClean(ps: seq<string>)
  {
    forall k :: 0 <= k < |ps| ==> Clean(ps[k])
  }

  lemma AllCleanAppend(a: seq<string>, b: seq<string>)
    requires AllClean(a) && AllClean(b)
    ensures AllClean(a + b)
  {
    forall k | 0 <= k < |a + b| ensures Clean((a + b)[k]) {
      if k < |a| {
        assert (a + b)[k] == a[k];
      } else {
        assert (a + b)[k] == b[k - |a|];
      }
    }
  }

  lemma {:induction false} LinePhrasesClean(line: string)
    requires NoLineBreak(line)
    ensures AllClean(LinePhrases(line))
  {
    var body := Strip(line);
    var k0 := StripStart(line);
    forall c | c in body ensures !IsLineBreak(c) {
      SliceChars(line, k0, k0 + |body|, c);
    }
    var parts := SplitOnDoubleSpace(body);
    SplitOnDoubleSpaceNoDouble(body);
    SplitOnDoubleSpaceNoBreaks(body);
    var phrases := LinePhrases(line);
    forall k | 0 <= k < |phrases| ensures Clean(phrases[k]) {
      assert phrases[k] == Strip(parts[k]);
      StrippedPieceClean(parts[k]);
    }
  }

  lemma {:induction false} PhrasesClean(lines: seq<string>)
    requires forall k :: 0 <= k < |lines| ==> NoLineBreak(lines[k])
    ensures AllClean(Phrases(lines))
  {
    if lines != [] {
      LinePhrasesClean(lines[0]);
      assert forall k :: 0 <= k < |lines[1..]| ==> NoLineBreak(lines[1..][k]) by {
        forall k | 0 <= k < |lines[1..]| ensures NoLineBreak(lines[1..][k]) {
          assert lines[1..][k] == lines[k + 1];
        }
      }
      PhrasesClean(lines[1..]);
      AllCleanAppend(LinePhrases(lines[0]), Phrases(lines[1..]));
    }
  }

  /** Two clean non-empty strings joined by one space make a clean string. */
  lemma JoinedClean(a: string, b: string)
    requires a != [] && b != [] && Clean(a) && Clean(b)
    ensures Clean(a + " " + b)
  {
    var s := a + " " + b;
    forall c | c in s ensures !IsLineBreak(c) {
      var i :| 0 <= i < |s| && s[i] == c;
      if i < |a| {
        assert s[i] == a[i];
      } else if i > |a| {
        assert s[i] == b[i - |a| - 1];
      }
    }
    forall i | 0 < i < |s| ensures !(s[i - 1] == ' ' && s[i] == ' ') {
      if i < |a| {
        assert s[i - 1] == a[i - 1] && s[i] == a[i];
      } else if i == |a| {
        assert s[i - 1] == a[|a| - 1];
      } else if i == |a| + 1 {
        assert s[i] == b[0];
      } else {
        assert s[i - 1] == b[i - |a| - 2] && s[i] == b[i - |a| - 1];
      }
    }
    assert s[|s| - 1] == b[|b| - 1];
  }

  lemma {:induction false} JoinClean(words: seq<string>)
    requires forall k :: 0 <= k < |words| ==> words[k] != [] && Clean(words[k])
    ensures Clean(JoinWith(words, " "))
    ensures words != [] ==> JoinWith(words, " ") != []
  {
    if |words| > 1 {
      JoinClean(words[1..]);
      JoinedClean(words[0], JoinWith(words[1..], " "));
    }
  }

  /** The cleaned text has no line breaks, no whitespace at either end and
      never two spaces in a row. */
  lemma CleanTextIsClean(text: string)
    ensures Clean(CleanText(text))
  {
    var phrases := Phrases(SplitLines(text));
    SplitLinesNoBreaks(text);
    PhrasesClean(SplitLines(text));
    var words := Filter(phrases, NonEmpty);
    forall k | 0 <= k < |words| ensures words[k] != [] && Clean(words[k]) {
      var j :| 0 <= j < |phrases| && phrases[j] == words[k];
    }
    JoinClean(words);
  }

  lemma {:induction false} SplitLinesSingle(s: string)
    requires NoLineBreak(s)
    ensures SplitLines(s) == [s]
    decreases |s|
  {
    if s != [] {
      assert NoLineBreak(s[1..]) by {
        forall c | c in s[1..] ensures !IsLineBreak(c) {
          SliceChars(s, 1, |s|, c);
        }
      }
      SplitLinesSingle(s[1..]);
      assert s == [s[0]] + s[1..];
    }
  }

  lemma {:induction false} SplitOnDoubleSpaceSingle(s: string)
    requires NoDoubleSpace(s)
    ensures SplitOnDoubleSpace(s) == [s]
    decreases |s|
  {
    if s != [] {
      assert !(|s| >= 2 && s[0] == ' ' && s[1] == ' ');
      assert NoDoubleSpace(s[1..]) by {
        forall i | 0 < i < |s| - 1 ensures !(s[1..][i - 1] == ' ' && s[1..][i] == ' ') {
          assert s[1..][i - 1] == s[i] && s[1..][i] == s[i + 1];
        }
      }
      SplitOnDoubleSpaceSingle(s[1..]);
      assert s == [s[0]] + s[1..];
    }
  }

  /** A text that is already clean is left as it is. */
  lemma CleanTextOfClean(text: string)
    requires Clean(text)
    ensures CleanText(text) == text
  {
    SplitLinesSingle(text);
    StripUnchanged(text);
    SplitOnDoubleSpaceSingle(text);
    assert LinePhrases(text) == [text];
    assert Phrases([text]) == [text] + Phrases([]);
    assert Filter([text], NonEmpty) == (if text != [] then [text] else []) by {
      assert [text][1..] == [];
    }
  }

  /** Cleaning twice is cleaning once. */
  lemma CleanTextIdempotent(text: string)
    ensures CleanText(CleanText(text)) == CleanText(text)
  {
    CleanTextIsClean(text);
    CleanTextOfClean(CleanText(text));
  }
}
