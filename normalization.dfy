/**
 * The chatbot's comparison form of free text:
 * `text.toLowerCase().normalize("NFD").replace(/[̀-ͯ]/g, "")`.
 *
 * Lowercasing and canonical decomposition are given concretely for ASCII and
 * the Latin-1 letters (the accented letters of Spanish among them); every
 * other character is left as it is by both. The removal of the combining
 * diacritical marks U+0300..U+036F is exact.
 */
module Normalization {

  /** A code point of the Combining Diacritical Marks block, U+0300..U+036F. */
  predicate IsCombiningMark(c: char) {
    '\U{300}' <= c <= '\U{36F}'
  }

  /** An upper-case letter of ASCII or Latin-1 (the multiplication sign U+00D7 is not a letter). */
  predicate IsUpper(c: char) {
    ('A' <= c <= 'Z') || ('\U{C0}' <= c <= '\U{DE}' && c != '\U{D7}')
  }

  /** `toLowerCase` on one character: each upper-case letter sits 32 code points below its lower case. */
  function LowerChar(c: char): (r: char)
    ensures !IsUpper(r)
    ensures !IsUpper(c) ==> r == c
  {
    if IsUpper(c) then (c as int + 32) as char else c
  }

  /** `toLowerCase` on a string, character by character. */
  function ToLower(s: string): (r: string)
    ensures |r| == |s|
    ensures forall i :: 0 <= i < |s| ==> r[i] == LowerChar(s[i])
  {
    if s == [] then [] else [LowerChar(s[0])] + ToLower(s[1..])
  }

  /**
   * Canonical decomposition of a lower-case Latin-1 letter: its base letter and
   * its combining mark; any other character stands for itself.
   */
  function DecomposeLower(c: char): (r: seq<char>)
    ensures |r| == 1 || |r| == 2
    ensures |r| == 1 ==> r == [c]
    ensures |r| == 2 ==> 'a' <= r[0] <= 'z' && IsCombiningMark(r[1])
  {
    match c
    case 'à' => ['a', '\U{300}'] case 'á' => ['a', '\U{301}'] case 'â' => ['a', '\U{302}']
    case 'ã' => ['a', '\U{303}'] case 'ä' => ['a', '\U{308}'] case 'å' => ['a', '\U{30A}']
    case 'ç' => ['c', '\U{327}']
    case 'è' => ['e', '\U{300}'] case 'é' => ['e', '\U{301}'] case 'ê' => ['e', '\U{302}']
    case 'ë' => ['e', '\U{308}']
    case 'ì' => ['i', '\U{300}'] case 'í' => ['i', '\U{301}'] case 'î' => ['i', '\U{302}']
    case 'ï' => ['i', '\U{308}']
    case 'ñ' => ['n', '\U{303}']
    case 'ò' => ['o', '\U{300}'] case 'ó' => ['o', '\U{301}'] case 'ô' => ['o', '\U{302}']
    case 'õ' => ['o', '\U{303}'] case 'ö' => ['o', '\U{308}']
    case 'ù' => ['u', '\U{300}'] case 'ú' => ['u', '\U{301}'] case 'û' => ['u', '\U{302}']
    case 'ü' => ['u', '\U{308}']
    case 'ý' => ['y', '\U{301}'] case 'ÿ' => ['y', '\U{308}']
    case _ => [c]
  }

  /**
   * Canonical decomposition (NFD) of one character: a base letter and one
   * combining mark, or the character itself. An upper-case letter decomposes
   * like its lower case, with an upper-case base.
   */
  function Decompose(c: char): (r: seq<char>)
    ensures |r| == 1 || |r| == 2
    ensures |r| == 1 ==> r == [c]
    ensures |r| == 2 ==> IsCombiningMark(r[1]) && ('a' <= r[0] <= 'z' || 'A' <= r[0] <= 'Z')
  {
    if IsUpper(c) then
      var d := DecomposeLower(LowerChar(c));
      if |d| == 2 then [(d[0] as int - 32) as char, d[1]] else [c]
    else DecomposeLower(c)
  }

  /** `normalize("NFD")`: every character replaced by its decomposition. */
  function Nfd(s: string): (r: string)
  {
    if s == [] then [] else Decompose(s[0]) + Nfd(s[1..])
  }

  /** `replace(/[̀-ͯ]/g, "")`: the string without its combining diacritical marks, order kept. */
  function StripMarks(s: string): (r: string)
    ensures |r| <= |s|
    ensures forall i :: 0 <= i < |r| ==> !IsCombiningMark(r[i])
    ensures (forall i :: 0 <= i < |s| ==> !IsCombiningMark(s[i])) ==> r == s
  {
    if s == [] then []
    else if IsCombiningMark(s[0]) then StripMarks(s[1..])
    else [s[0]] + StripMarks(s[1..])
  }

  /** The comparison form: lower case, decomposed, without combining marks. */
  function Normalize(s: string): (r: string)
    ensures forall i :: 0 <= i < |r| ==> !IsCombiningMark(r[i])
  {
    StripMarks(Nfd(ToLower(s)))
  }

  /** What one character becomes under `Normalize`. */
  function NormalizeChar(c: char): string {
    StripMarks(Decompose(LowerChar(c)))
  }

  lemma {:induction false} StripMarksAppend(a: string, b: string)
    ensures StripMarks(a + b) == StripMarks(a) + StripMarks(b)
  {
    if a == [] {
      assert a + b == b;
    } else {
      assert (a + b)[0] == a[0] && (a + b)[1..] == a[1..] + b;
      StripMarksAppend(a[1..], b);
    }
  }

  /** `Normalize` works character by character. */
  lemma NormalizeCons(c: char, s: string)
    ensures Normalize([c] + s) == NormalizeChar(c) + Normalize(s)
  {
    assert ([c] + s)[1..] == s;
    assert Nfd(ToLower([c] + s)) == Decompose(LowerChar(c)) + Nfd(ToLower(s));
    StripMarksAppend(Decompose(LowerChar(c)), Nfd(ToLower(s)));
  }

  /** `Normalize` distributes over concatenation. */
  lemma {:induction false} NormalizeAppend(a: string, b: string)
    ensures Normalize(a + b) == Normalize(a) + Normalize(b)
  {
    if a == [] {
      assert a + b == b;
    } else {
      var c, rest := a[0], a[1..];
      calc {
        Normalize(a + b);
        { assert a + b == [c] + (rest + b); }
        Normalize([c] + (rest + b));
        { NormalizeCons(c, rest + b); }
        NormalizeChar(c) + Normalize(rest + b);
        { NormalizeAppend(rest, b); }
        NormalizeChar(c) + (Normalize(rest) + Normalize(b));
        (NormalizeChar(c) + Normalize(rest)) + Normalize(b);
        { NormalizeCons(c, rest); assert [c] + rest == a; }
        Normalize(a) + Normalize(b);
      }
    }
  }

  /** A string whose characters each normalise to one character normalises to those characters. */
  lemma {:induction false} NormalizePointwise(s: string, t: string)
    requires |s| == |t|
    requires forall i :: 0 <= i < |s| ==> NormalizeChar(s[i]) == [t[i]]
    ensures Normalize(s) == t
  {
    if s != [] {
      NormalizeCons(s[0], s[1..]);
      NormalizePointwise(s[1..], t[1..]);
      assert [s[0]] + s[1..] == s;
      assert [t[0]] + t[1..] == t;
    }
  }

  /** An ASCII letter normalises to its lower case. */
  lemma NormalizeAsciiLetter(c: char)
    requires 'A' <= c <= 'Z' || 'a' <= c <= 'z'
    ensures NormalizeChar(c) == [LowerChar(c)]
  {
    AsciiDecomposesToItself(LowerChar(c));
  }

  /** A character `Normalize` leaves alone. */
  predicate IsNormal(c: char) {
    !IsUpper(c) && Decompose(c) == [c] && !IsCombiningMark(c)
  }

  /** An ASCII character has no decomposition. */
  lemma AsciiDecomposesToItself(c: char)
    requires c as int < 128
    ensures Decompose(c) == [c]
  {
  }

  /** Every character `Normalize` produces is one it leaves alone. */
  lemma NormalizeCharIsNormal(c: char)
    ensures forall i :: 0 <= i < |NormalizeChar(c)| ==> IsNormal(NormalizeChar(c)[i])
    ensures IsNormal(c) ==> NormalizeChar(c) == [c]
  {
    var l := LowerChar(c);
    var d := Decompose(l);
    if |d| == 2 {
      assert StripMarks(d) == [d[0]] + StripMarks(d[1..]);
      assert StripMarks(d[1..]) == [];
      AsciiDecomposesToItself(d[0]);
    } else if !IsCombiningMark(l) {
      assert StripMarks(d) == [l] + StripMarks([]);
    } else {
      assert StripMarks(d) == StripMarks([]);
    }
  }

  /** `Normalize` is the identity on text it has already normalised. */
  lemma {:induction false} NormalizeFixes(s: string)
    requires forall i :: 0 <= i < |s| ==> IsNormal(s[i])
    ensures Normalize(s) == s
  {
    if s != [] {
      NormalizeCons(s[0], s[1..]);
      NormalizeCharIsNormal(s[0]);
      NormalizeFixes(s[1..]);
      assert [s[0]] + s[1..] == s;
    }
  }

  /** Every character of a normalised string is normal. */
  lemma {:induction false} NormalizeIsNormal(s: string)
    ensures forall i :: 0 <= i < |Normalize(s)| ==> IsNormal(Normalize(s)[i])
  {
    if s != [] {
      NormalizeCons(s[0], s[1..]);
      NormalizeCharIsNormal(s[0]);
      NormalizeIsNormal(s[1..]);
      assert [s[0]] + s[1..] == s;
      AllNormalAppend(NormalizeChar(s[0]), Normalize(s[1..]));
    }
  }

  lemma AllNormalAppend(a: string, b: string)
    requires forall i :: 0 <= i < |a| ==> IsNormal(a[i])
    requires forall i :: 0 <= i < |b| ==> IsNormal(b[i])
    ensures forall i :: 0 <= i < |a + b| ==> IsNormal((a + b)[i])
  {
    forall i | 0 <= i < |a + b| ensures IsNormal((a + b)[i]) {
      if i >= |a| { assert (a + b)[i] == b[i - |a|]; }
    }
  }

  /** Normalisation is idempotent. */
  lemma NormalizeIdempotent(s: string)
    ensures Normalize(Normalize(s)) == Normalize(s)
  {
    NormalizeIsNormal(s);
    NormalizeFixes(Normalize(s));
  }
}
