/**
 * The JavaScript string built-ins the storefront relies on, on strings as
 * sequences of characters: `includes`, `trim`, `split` with a one-character
 * separator, `join` and `String(n)` for a natural number.
 */
module Text {

  /** `p` is a prefix of `s`. */
  predicate IsPrefix(p: string, s: string) {
    |p| <= |s| && s[..|p|] == p
  }

  /** `p` occurs in `s` starting at index `i`. */
  ghost predicate OccursAt(s: string, p: string, i: int) {
    0 <= i && i + |p| <= |s| && s[i..i + |p|] == p
  }

  /** Concatenation is associative; stated once so that larger proofs need not redo it. */
  lemma AppendAssoc<T>(x: seq<T>, y: seq<T>, z: seq<T>)
    ensures x + y + z == x + (y + z)
  {
  }

  /** `s.includes(p)`: tries every start position from left to right. */
  predicate Includes(s: string, p: string)
    ensures Includes(s, p) ==> |p| <= |s|
    decreases |s|
  {
    IsPrefix(p, s) || (s != [] && Includes(s[1..], p))
  }

  /** `includes` holds exactly when the pattern occurs at some position. */
  lemma {:induction false} IncludesIff(s: string, p: string)
    ensures Includes(s, p) <==> exists i :: OccursAt(s, p, i)
    decreases |s|
  {
    if IsPrefix(p, s) {
      assert OccursAt(s, p, 0);
    } else if s != [] {
      IncludesIff(s[1..], p);
      if Includes(s[1..], p) {
        var i :| OccursAt(s[1..], p, i);
        assert s[1..][i..i + |p|] == s[i + 1..i + 1 + |p|];
        assert OccursAt(s, p, i + 1);
      }
      forall i | OccursAt(s, p, i) ensures Includes(s[1..], p) {
        assert i != 0;
        assert s[1..][i - 1..i - 1 + |p|] == s[i..i + |p|];
        assert OccursAt(s[1..], p, i - 1);
      }
    }
  }

  /** Every string includes the empty string. */
  lemma IncludesEmpty(s: string)
    ensures Includes(s, [])
  {
    assert IsPrefix([], s);
  }

  /** A string includes every infix of itself. */
  lemma IncludesInfix(a: string, p: string, b: string)
    ensures Includes(a + p + b, p)
  {
    var s := a + p + b;
    assert s[|a|..|a| + |p|] == p;
    assert OccursAt(s, p, |a|);
    IncludesIff(s, p);
  }

  /** Between strings of the same length, `includes` is equality. */
  lemma IncludesSameLength(s: string, p: string)
    requires |s| == |p|
    ensures Includes(s, p) <==> s == p
  {
    IncludesIff(s, p);
    if s == p {
      assert OccursAt(s, p, 0);
    }
  }

  /**
   * White space removed by `trim`: the ECMAScript WhiteSpace characters
   * (tab, vertical tab, form feed, space, no-break space, byte order mark
   * and the other space separators) and the four line terminators.
   */
  predicate IsSpace(c: char) {
    c in WhiteSpace || '\U{2000}' <= c <= '\U{200A}'
  }

  /** The white space characters outside the block U+2000..U+200A. */
  const WhiteSpace: set<char> := {
    '\t', '\n', '\U{B}', '\U{C}', '\r', ' ', '\U{A0}', '\U{1680}',
    '\U{2028}', '\U{2029}', '\U{202F}', '\U{205F}', '\U{3000}', '\U{FEFF}'
  }

  /** `s` has no white space at either end (what `trim` leaves). */
  predicate Trimmed(s: string) {
    s == [] || (!IsSpace(s[0]) && !IsSpace(s[|s| - 1]))
  }

  /** `trimStart`: drops the leading white space. */
  function TrimStart(s: string): (r: string)
    ensures |r| <= |s|
    ensures r == [] || !IsSpace(r[0])
  {
    if s != [] && IsSpace(s[0]) then TrimStart(s[1..]) else s
  }

  /** `trimEnd`: drops the trailing white space. */
  function TrimEnd(s: string): (r: string)
    ensures |r| <= |s|
    ensures r == [] || r[0] == s[0]
    ensures r == [] || !IsSpace(r[|r| - 1])
  {
    if s != [] && IsSpace(s[|s| - 1]) then TrimEnd(s[..|s| - 1]) else s
  }

  /** `trim`: a string with no white space at either end. */
  function Trim(s: string): (r: string)
    ensures Trimmed(r) && |r| <= |s|
  {
    TrimEnd(TrimStart(s))
  }

  /** `trimStart` keeps a suffix. */
  lemma {:induction false} TrimStartSuffix(s: string)
    ensures TrimStart(s) == s[|s| - |TrimStart(s)|..]
  {
    if s != [] && IsSpace(s[0]) {
      TrimStartSuffix(s[1..]);
    }
  }

  /** `trimEnd` keeps a prefix. */
  lemma {:induction false} TrimEndPrefix(s: string)
    ensures TrimEnd(s) == s[..|TrimEnd(s)|]
  {
    if s != [] && IsSpace(s[|s| - 1]) {
      TrimEndPrefix(s[..|s| - 1]);
    }
  }

  /** `trim` leaves a string without white space at its ends as it is. */
  lemma TrimFixes(s: string)
    requires Trimmed(s)
    ensures Trim(s) == s
  {
  }

  /** What `trimStart` drops is white space. */
  lemma {:induction false} TrimStartDropsSpaces(s: string)
    ensures forall k :: 0 <= k < |s| - |TrimStart(s)| ==> IsSpace(s[k])
  {
    if s != [] && IsSpace(s[0]) {
      TrimStartDropsSpaces(s[1..]);
    }
  }

  /** What `trimEnd` drops is white space. */
  lemma {:induction false} TrimEndDropsSpaces(s: string)
    ensures forall k :: |TrimEnd(s)| <= k < |s| ==> IsSpace(s[k])
  {
    if s != [] && IsSpace(s[|s| - 1]) {
      TrimEndDropsSpaces(s[..|s| - 1]);
    }
  }

  /** `trim` only removes characters: everything it keeps was in the input. */
  lemma TrimKeepsChars(s: string)
    ensures forall c :: c in Trim(s) ==> c in s
  {
    var t := TrimStart(s);
    TrimStartSuffix(s);
    TrimEndPrefix(t);
    assert forall c :: c in TrimEnd(t) ==> c in t;
  }

  /** Trimming a blank followed by a trimmed string gives back that string. */
  lemma TrimLeadingBlank(k: string)
    requires Trimmed(k)
    ensures Trim([' '] + k) == k
  {
    var s := [' '] + k;
    assert s[1..] == k;
    TrimStartBlank(s);
    assert TrimStart(k) == k;
    assert TrimEnd(k) == k;
  }

  /** `trimStart` passes over a leading blank. */
  lemma TrimStartBlank(s: string)
    requires s != [] && s[0] == ' '
    ensures TrimStart(s) == TrimStart(s[1..])
  {
    assert IsSpace(s[0]);
  }

  /** `s.split(sep)` with a one-character separator: never empty, no piece holds `sep`. */
  function Split(s: string, sep: char): (r: seq<string>)
    ensures |r| >= 1
    ensures forall i :: 0 <= i < |r| ==> sep !in r[i]
  {
    if s == [] then [[]]
    else if s[0] == sep then [[]] + Split(s[1..], sep)
    else
      var t := Split(s[1..], sep);
      [[s[0]] + t[0]] + t[1..]
  }

  /** `parts.join(sep)`. */
  function JoinWith(parts: seq<string>, sep: string): (r: string)
    ensures parts == [] ==> r == []
    ensures parts != [] ==> IsPrefix(parts[0], r)
  {
    if |parts| == 0 then []
    else if |parts| == 1 then parts[0]
    else parts[0] + sep + JoinWith(parts[1..], sep)
  }

  /** Splitting on a separator right after a separator-free prefix. */
  lemma {:induction false} SplitAfter(a: string, sep: char, b: string)
    requires sep !in a
    ensures Split(a + [sep] + b, sep) == [a] + Split(b, sep)
  {
    if a == [] {
      assert a + [sep] + b == [sep] + b;
    } else {
      assert (a + [sep] + b)[1..] == a[1..] + [sep] + b;
      SplitAfter(a[1..], sep, b);
      assert [a[0]] + a[1..] == a;
    }
  }

  /** A separator-free string splits into itself. */
  lemma {:induction false} SplitNone(a: string, sep: char)
    requires sep !in a
    ensures Split(a, sep) == [a]
  {
    if a != [] {
      SplitNone(a[1..], sep);
      assert [a[0]] + a[1..] == a;
    }
  }

  /** `split` undoes `join` with the same one-character separator. */
  lemma {:induction false} SplitJoin(parts: seq<string>, sep: char)
    requires |parts| >= 1
    requires forall i :: 0 <= i < |parts| ==> sep !in parts[i]
    ensures Split(JoinWith(parts, [sep]), sep) == parts
  {
    if |parts| == 1 {
      SplitNone(parts[0], sep);
    } else {
      SplitJoin(parts[1..], sep);
      SplitAfter(parts[0], sep, JoinWith(parts[1..], [sep]));
      assert [parts[0]] + parts[1..] == parts;
    }
  }

  /** Prepending a character to the first piece prepends it to the joined string. */
  lemma JoinConsHead(c: char, t: seq<string>, sep: string)
    requires |t| >= 1
    ensures JoinWith([[c] + t[0]] + t[1..], sep) == [c] + JoinWith(t, sep)
  {
    var u := [[c] + t[0]] + t[1..];
    if |t| > 1 {
      assert u[1..] == t[1..];
      assert JoinWith(u, sep) == ([c] + t[0]) + sep + JoinWith(t[1..], sep);
    }
  }

  /** `join` undoes `split` with the same one-character separator. */
  lemma {:induction false} JoinSplit(s: string, sep: char)
    ensures JoinWith(Split(s, sep), [sep]) == s
  {
    if s != [] {
      JoinSplit(s[1..], sep);
      var t := Split(s[1..], sep);
      if s[0] == sep {
        assert ([[]] + t)[1..] == t;
      } else {
        JoinConsHead(s[0], t, [sep]);
      }
      assert [s[0]] + s[1..] == s;
    }
  }

  /** The last piece of `split`: a separator-free suffix, preceded by the separator when shorter. */
  lemma {:induction false} SplitLast(s: string, sep: char)
    ensures var r := Split(s, sep)[|Split(s, sep)| - 1];
      && |r| <= |s| && r == s[|s| - |r|..]
      && (|Split(s, sep)| > 1 <==> |r| < |s|)
      && (|r| < |s| ==> s[|s| - |r| - 1] == sep)
  {
    if s != [] {
      SplitLast(s[1..], sep);
      var t := Split(s[1..], sep);
      var r := t[|t| - 1];
      if s[0] == sep {
        assert Split(s, sep)[|Split(s, sep)| - 1] == r;
      } else if |t| == 1 {
        assert r == s[1..];
        assert [s[0]] + s[1..] == s;
      } else {
        assert Split(s, sep)[|Split(s, sep)| - 1] == r;
      }
    }
  }

  /** The decimal digit for `d`. */
  function DigitChar(d: nat): (c: char)
    requires d < 10
    ensures '0' <= c <= '9'
    ensures c as int - '0' as int == d
  {
    ('0' as int + d) as char
  }

  /** `String(n)` for a natural number: its decimal digits, without leading zeros. */
  function NatToString(n: nat): (r: string)
    ensures r != []
    ensures forall i :: 0 <= i < |r| ==> '0' <= r[i] <= '9'
    ensures r[0] == '0' ==> n == 0
  {
    if n < 10 then [DigitChar(n)] else NatToString(n / 10) + [DigitChar(n % 10)]
  }

  /** The number a string of decimal digits denotes. */
  function DigitsValue(s: string): nat
    requires forall i :: 0 <= i < |s| ==> '0' <= s[i] <= '9'
  {
    if s == [] then 0 else 10 * DigitsValue(s[..|s| - 1]) + (s[|s| - 1] as int - '0' as int)
  }

  /** Reading the decimal text of `n` gives `n` back. */
  lemma {:induction false} NatToStringRoundTrip(n: nat)
    ensures DigitsValue(NatToString(n)) == n
  {
    if n >= 10 {
      var r := NatToString(n);
      assert r[..|r| - 1] == NatToString(n / 10);
      NatToStringRoundTrip(n / 10);
    }
  }

  /** Distinct numbers have distinct decimal texts. */
  lemma NatToStringInjective(m: nat, n: nat)
    requires m != n
    ensures NatToString(m) != NatToString(n)
  {
    NatToStringRoundTrip(m);
    NatToStringRoundTrip(n);
  }
}
