/** The few Python `str` operations the core relies on, over `seq<char>`:
    `strip`, blank tests, `lower`, `startswith` and the substring test `in`. */
module Text {

  /** `c.isspace()`: the characters `str.strip()` removes. */
  predicate IsSpace(c: char)
  {
    || c == ' ' || '\t' <= c <= '\r' || '\U{1C}' <= c <= '\U{1F}'
    || c == '\U{85}' || c == '\U{A0}' || c == '\U{1680}' || '\U{2000}' <= c <= '\U{200A}'
    || c == '\U{2028}' || c == '\U{2029}' || c == '\U{202F}' || c == '\U{205F}' || c == '\U{3000}'
  }

  /** The characters at which `str.splitlines()` ends a line. */
  predicate IsLineBreak(c: char)
  {
    || c == '\n' || c == '\r' || c == '\U{0B}' || c == '\U{0C}' || '\U{1C}' <= c <= '\U{1E}'
    || c == '\U{85}' || c == '\U{2028}' || c == '\U{2029}'
  }

  lemma LineBreakIsSpace(c: char)
    ensures IsLineBreak(c) ==> IsSpace(c)
  {
  }

  /** Where `s.strip()` starts in s: the number of leading whitespace
      characters. */
  function StripStart(s: string): (k: nat)
    ensures k <= |s|
    ensures forall i :: 0 <= i < k ==> IsSpace(s[i])
    ensures k < |s| ==> !IsSpace(s[k])
  {
    if s == [] || !IsSpace(s[0]) then 0 else 1 + StripStart(s[1..])
  }

  /** Where `s.strip()` ends in s: what follows it is trailing whitespace. */
  function StripEnd(s: string): (e: nat)
    ensures e <= |s|
    ensures forall i :: e <= i < |s| ==> IsSpace(s[i])
    ensures e > 0 ==> !IsSpace(s[e - 1])
  {
    if s == [] || !IsSpace(s[|s| - 1]) then |s| else StripEnd(s[..|s| - 1])
  }

  /** `s.strip()`: a slice of s without whitespace at either end, leaving only
      whitespace outside it. */
  function Strip(s: string): (r: string)
    ensures |r| <= |s| - StripStart(s) && r == s[StripStart(s)..StripStart(s) + |r|]
    ensures r == [] || (!IsSpace(r[0]) && !IsSpace(r[|r| - 1]))
    ensures r == [] <==> forall i :: 0 <= i < |s| ==> IsSpace(s[i])
    ensures forall i :: StripStart(s) + |r| <= i < |s| ==> IsSpace(s[i])
  {
    var k := StripStart(s);
    if k == |s| then []
    else
      assert k < StripEnd(s) by {
        assert !IsSpace(s[k]);
      }
      s[k..StripEnd(s)]
  }

  /** A string with no whitespace at either end is its own strip. */
  lemma StripUnchanged(s: string)
    requires s == [] || (!IsSpace(s[0]) && !IsSpace(s[|s| - 1]))
    ensures Strip(s) == s
  {
    if s != [] {
      assert StripStart(s) == 0 && StripEnd(s) == |s|;
      assert s[0..|s|] == s;
    }
  }

  /** Stripping twice is stripping once. */
  lemma StripIdempotent(s: string)
    ensures Strip(Strip(s)) == Strip(s)
  {
    StripUnchanged(Strip(s));
  }

  /** `not s.strip()` */
  predicate IsBlank(s: string)
  {
    Strip(s) == []
  }

  /** `s.startswith(prefix)` */
  predicate StartsWith(s: string, prefix: string)
  {
    |prefix| <= |s| && s[..|prefix|] == prefix
  }

  /** needle occurs in hay at offset k */
  predicate OccursAt(hay: string, needle: string, k: int)
  {
    0 <= k <= |hay| - |needle| && hay[k..k + |needle|] == needle
  }

  /** `needle in hay` */
  predicate Contains(hay: string, needle: string)
  {
    StartsWith(hay, needle) || (hay != [] && Contains(hay[1..], needle))
  }

  lemma {:induction false} ContainsAt(hay: string, needle: string)
    ensures Contains(hay, needle) <==>
      exists k :: OccursAt(hay, needle, k)
  {
    if hay == [] {
      if needle == [] {
        assert OccursAt(hay, needle, 0);
      }
      if exists k :: OccursAt(hay, needle, k) {
        var k :| OccursAt(hay, needle, k);
        assert needle == [];
      }
    } else {
      ContainsAt(hay[1..], needle);
      if StartsWith(hay, needle) {
        assert OccursAt(hay, needle, 0);
      }
      if Contains(hay[1..], needle) {
        var k :| OccursAt(hay[1..], needle, k);
        assert hay[k + 1..k + 1 + |needle|] == needle;
        assert OccursAt(hay, needle, k + 1);
      }
      if exists k :: OccursAt(hay, needle, k) {
        var k :| OccursAt(hay, needle, k);
        if k > 0 {
          assert hay[1..][k - 1..k - 1 + |needle|] == needle;
          assert OccursAt(hay[1..], needle, k - 1);
        } else {
          assert hay[..|needle|] == needle;
        }
      }
    }
  }

  /** An ASCII capital, the only letters lowering changes. */
  predicate IsUpper(c: char)
  {
    'A' <= c <= 'Z'
  }

  /** `c.lower()` for the ASCII letters. */
  function LowerChar(c: char): char
  {
    if IsUpper(c) then (c as int + 32) as char else c
  }

  /** `s.lower()`: same length, each character lowered. */
  function Lower(s: string): (r: string)
    ensures |r| == |s|
    ensures forall i :: 0 <= i < |s| ==> r[i] == LowerChar(s[i])
  {
    seq(|s|, i requires 0 <= i < |s| => LowerChar(s[i]))
  }

  /** Lowering leaves no capital behind, and changes nothing else. */
  lemma LowerIsLowerCase(s: string)
    ensures forall i :: 0 <= i < |s| ==> !IsUpper(Lower(s)[i])
    ensures forall i :: 0 <= i < |s| && !IsUpper(s[i]) ==> Lower(s)[i] == s[i]
  {
  }

  /** Lowering twice is lowering once. */
  lemma LowerIdempotent(s: string)
    ensures Lower(Lower(s)) == Lower(s)
  {
    LowerIsLowerCase(s);
    assert forall i :: 0 <= i < |s| ==> Lower(Lower(s))[i] == Lower(s)[i];
  }

  /** The `s[:n]` slice, which tolerates n beyond the end. */
  function Take(s: string, n: nat): (r: string)
    ensures |r| == if |s| <= n then |s| else n
    ensures r == s[..|r|]
  {
    if |s| <= n then s else s[..n]
  }
}
