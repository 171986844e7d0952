/** The JavaScript string operations the app uses, on `seq<char>`.

    Each is defined by recursion and paired with the facts the rest of the
    model relies on: `Split` with `Join`, `NatToString` with `ParseNat`,
    `Trim` with its characterisation of blank strings. */
module Strings {
  import opened Wrappers

  predicate StartsWith(s: string, prefix: string) {
    |prefix| <= |s| && s[..|prefix|] == prefix
  }

  /** The first position at or after `from` where `pat` occurs in `s`. */
  function IndexOfFrom(s: string, pat: string, from: nat): (r: Option<nat>)
    decreases |s| - from
  {
    if from + |pat| > |s| then None
    else if s[from..from + |pat|] == pat then Some(from)
    else IndexOfFrom(s, pat, from + 1)
  }

  /** `s.indexOf(pat)`, with `None` for `-1`. */
  function IndexOf(s: string, pat: string): Option<nat> {
    IndexOfFrom(s, pat, 0)
  }

  lemma {:induction false} IndexOfFromFound(s: string, pat: string, from: nat)
    requires IndexOfFrom(s, pat, from).Some?
    ensures var i := IndexOfFrom(s, pat, from).value;
      from <= i && i + |pat| <= |s| && s[i..i + |pat|] == pat
    decreases |s| - from
  {
    if from + |pat| <= |s| && s[from..from + |pat|] != pat {
      IndexOfFromFound(s, pat, from + 1);
    }
  }

  /** `s.replace(pat, rep)` with a string pattern: only the FIRST occurrence is replaced. */
  function ReplaceFirst(s: string, pat: string, rep: string): (r: string) {
    match IndexOf(s, pat)
    case None => s
    case Some(i) =>
      IndexOfFromFound(s, pat, 0);
      s[..i] + rep + s[i + |pat|..]
  }

  /** When `s` starts with `pat`, replacing the first occurrence swaps that prefix. */
  lemma ReplaceFirstAtStart(s: string, pat: string, rep: string)
    requires StartsWith(s, pat)
    ensures ReplaceFirst(s, pat, rep) == rep + s[|pat|..]
  {
    assert s[0..|pat|] == pat;
    assert IndexOf(s, pat) == Some(0);
  }

  /** `s.split(sep)` for a one-character separator. */
  function Split(s: string, sep: char): (parts: seq<string>)
    ensures |parts| >= 1
  {
    if s == [] then [""]
    else
      var rest := Split(s[1..], sep);
      if s[0] == sep then [""] + rest else [[s[0]] + rest[0]] + rest[1..]
  }

  /** `parts.join(sep)`. */
  function Join(parts: seq<string>, sep: char): string
    requires |parts| >= 1
  {
    if |parts| == 1 then parts[0] else parts[0] + [sep] + Join(parts[1..], sep)
  }

  /** Splitting and joining again gives back the string. */
  lemma {:induction false} JoinSplit(s: string, sep: char)
    ensures Join(Split(s, sep), sep) == s
  {
    if s != [] {
      var rest := Split(s[1..], sep);
      JoinSplit(s[1..], sep);
      if s[0] == sep {
        assert Split(s, sep)[1..] == rest;
      } else {
        var parts := [[s[0]] + rest[0]] + rest[1..];
        if |rest| == 1 {
          assert rest[0] == s[1..];
          assert [s[0]] + s[1..] == s;
        } else {
          assert parts[1..] == rest[1..];
          assert Join(parts, sep) == [s[0]] + rest[0] + [sep] + Join(rest[1..], sep);
          assert Join(rest, sep) == rest[0] + [sep] + Join(rest[1..], sep);
          assert s == [s[0]] + s[1..];
        }
      }
    }
  }

  /** No piece of a split contains the separator. */
  lemma {:induction false} SplitPartsFree(s: string, sep: char)
    ensures forall k :: 0 <= k < |Split(s, sep)| ==> sep !in Split(s, sep)[k]
  {
    if s != [] {
      SplitPartsFree(s[1..], sep);
      var rest := Split(s[1..], sep);
      if s[0] != sep {
        var parts := [[s[0]] + rest[0]] + rest[1..];
        forall k | 0 <= k < |parts| ensures sep !in parts[k] {
          if k > 0 { assert parts[k] == rest[k]; }
        }
      }
    }
  }

  /** A string without the separator splits into itself alone. */
  lemma {:induction false} SplitWithoutSeparator(s: string, sep: char)
    requires sep !in s
    ensures Split(s, sep) == [s]
  {
    if s != [] {
      SplitWithoutSeparator(s[1..], sep);
      assert [s[0]] + s[1..] == s;
    }
  }

  /** The piece after the last separator: what `s.split(sep).pop()` returns. */
  function LastPiece(s: string, sep: char): string {
    var parts := Split(s, sep);
    parts[|parts| - 1]
  }

  lemma {:induction false} LastPieceFacts(s: string, sep: char)
    ensures sep !in LastPiece(s, sep)
    ensures sep !in s ==> LastPiece(s, sep) == s
    ensures |s| > 0 && s[|s| - 1] == sep ==> LastPiece(s, sep) == ""
  {
    SplitPartsFree(s, sep);
    if sep !in s {
      SplitWithoutSeparator(s, sep);
    }
    if |s| > 0 && s[|s| - 1] == sep {
      LastPieceOfTrailing(s, sep);
    }
  }

  /** A string holding the separator splits into at least two pieces. */
  lemma {:induction false} SplitAtSeparator(s: string, sep: char)
    requires sep in s
    ensures |Split(s, sep)| >= 2
  {
    if s[0] != sep {
      SplitAtSeparator(s[1..], sep);
    }
  }

  lemma {:induction false} LastPieceOfTrailing(s: string, sep: char)
    requires |s| > 0 && s[|s| - 1] == sep
    ensures LastPiece(s, sep) == ""
  {
    if |s| > 1 {
      LastPieceOfTrailing(s[1..], sep);
      var rest := Split(s[1..], sep);
      if s[0] != sep {
        assert s[1..][|s| - 2] == sep;
        SplitAtSeparator(s[1..], sep);
        var parts := [[s[0]] + rest[0]] + rest[1..];
        assert Split(s, sep) == parts;
        assert parts[|parts| - 1] == rest[|rest| - 1];
      } else {
        assert Split(s, sep) == [""] + rest;
      }
    } else {
      assert s[1..] == [];
      assert Split(s, sep) == ["", ""];
    }
  }

  /** A first character that is, or does not end, a piece leaves the last piece to the tail. */
  lemma LastPieceOfTail(s: string, sep: char)
    requires s != [] && (s[0] == sep || |Split(s[1..], sep)| > 1)
    ensures LastPiece(s, sep) == LastPiece(s[1..], sep)
  {
    var rest := Split(s[1..], sep);
    if s[0] == sep {
      assert Split(s, sep) == [""] + rest;
    } else {
      assert Split(s, sep) == [[s[0]] + rest[0]] + rest[1..];
    }
  }

  /** A first character that starts the only piece of the tail makes the whole string one piece. */
  lemma LastPieceWhole(s: string, sep: char)
    requires s != [] && s[0] != sep && |Split(s[1..], sep)| == 1
    ensures LastPiece(s, sep) == s
  {
    var rest := Split(s[1..], sep);
    assert Split(s, sep) == [[s[0]] + rest[0]];
    JoinSplit(s[1..], sep);
    assert [s[0]] + s[1..] == s;
  }

  /** The last piece is a suffix of the string, and unless it is the whole string
      it is preceded by the separator: it is exactly the text after the last separator. */
  lemma {:induction false} LastPieceIsSuffix(s: string, sep: char)
    ensures var p := LastPiece(s, sep);
      |p| <= |s| && s[|s| - |p|..] == p && (|p| < |s| ==> s[|s| - |p| - 1] == sep)
  {
    if s != [] {
      var t := s[1..];
      if s[0] == sep || |Split(t, sep)| > 1 {
        LastPieceIsSuffix(t, sep);
        LastPieceOfTail(s, sep);
        var q := LastPiece(t, sep);
        if s[0] != sep {
          LastPieceFacts(t, sep);
          assert sep in t by {
            if sep !in t { SplitWithoutSeparator(t, sep); }
          }
        }
        assert s[|s| - |q|..] == t[|t| - |q|..];
        if |q| < |t| {
          assert s[|s| - |q| - 1] == t[|t| - |q| - 1];
        }
      } else {
        LastPieceWhole(s, sep);
      }
    }
  }

  /** Where a suffix that follows a separator sits against a known separator of `s`. */
  lemma SuffixAgainstSeparator(a: string, sep: char, b: string, p: string)
    requires var s := a + [sep] + b;
      |p| <= |s| && s[|s| - |p|..] == p && (|p| < |s| ==> s[|s| - |p| - 1] == sep)
    ensures |p| > |b| ==> sep in p
    ensures |p| < |b| ==> sep in b
  {
    var s := a + [sep] + b;
    if |p| > |b| {
      assert p[|p| - |b| - 1] == s[|a|];
    }
    if |p| < |b| {
      assert b[|b| - |p| - 1] == s[|s| - |p| - 1];
    }
  }

  /** The text after the last separator of `a + [sep] + b`, when `b` has no separator, is `b`. */
  lemma LastPieceAfterSeparator(a: string, sep: char, b: string)
    requires sep !in b
    ensures LastPiece(a + [sep] + b, sep) == b
  {
    var s := a + [sep] + b;
    var p := LastPiece(s, sep);
    LastPieceIsSuffix(s, sep);
    SuffixAgainstSeparator(a, sep, b, p);
    LastPieceFacts(s, sep);
    assert s[|s| - |b|..] == b;
  }

  predicate IsAsciiUpper(c: char) {
    'A' <= c <= 'Z'
  }

  function LowerChar(c: char): char {
    if IsAsciiUpper(c) then (c as int + 32) as char else c
  }

  /** `s.toLowerCase()` restricted to ASCII letters. */
  function ToLowerAscii(s: string): (r: string)
    ensures |r| == |s|
    ensures forall k :: 0 <= k < |s| ==> r[k] == LowerChar(s[k])
  {
    if s == [] then [] else [LowerChar(s[0])] + ToLowerAscii(s[1..])
  }

  /** Lower-casing changes only upper-case letters, so it neither adds nor removes any other character. */
  lemma LowerKeepsOthers(s: string, c: char)
    requires !IsAsciiUpper(c) && !('a' <= c <= 'z')
    ensures c in ToLowerAscii(s) <==> c in s
  {
    var r := ToLowerAscii(s);
    if c in s {
      var k :| 0 <= k < |s| && s[k] == c;
      assert r[k] == c;
    }
    if c in r {
      var k :| 0 <= k < |r| && r[k] == c;
      assert s[k] == c;
    }
  }

  /** The characters `String.prototype.trim` removes: WhiteSpace and LineTerminator of ECMAScript. */
  predicate IsJsWhitespace(c: char) {
    || c == '\t' || c == '\n' || c == '\U{000B}' || c == '\U{000C}' || c == '\r' || c == ' '
    || c == '\U{00A0}' || c == '\U{1680}' || ('\U{2000}' <= c <= '\U{200A}')
    || c == '\U{2028}' || c == '\U{2029}' || c == '\U{202F}' || c == '\U{205F}'
    || c == '\U{3000}' || c == '\U{FEFF}'
  }

  /** `s.trimStart()`. */
  function TrimStart(s: string): string {
    if s != [] && IsJsWhitespace(s[0]) then TrimStart(s[1..]) else s
  }

  /** `s.trimEnd()`. */
  function TrimEnd(s: string): string {
    if s != [] && IsJsWhitespace(s[|s| - 1]) then TrimEnd(s[..|s| - 1]) else s
  }

  /** Trimming the start leaves a suffix. */
  lemma {:induction false} TrimStartSuffix(s: string)
    ensures |TrimStart(s)| <= |s| && TrimStart(s) == s[|s| - |TrimStart(s)|..]
  {
    if s != [] && IsJsWhitespace(s[0]) {
      var t := s[1..];
      TrimStartSuffix(t);
      assert t[|t| - |TrimStart(t)|..] == s[|s| - |TrimStart(t)|..];
    }
  }

  /** Trimming the end leaves a prefix. */
  lemma {:induction false} TrimEndPrefix(s: string)
    ensures |TrimEnd(s)| <= |s| && TrimEnd(s) == s[..|TrimEnd(s)|]
  {
    if s != [] && IsJsWhitespace(s[|s| - 1]) {
      var t := s[..|s| - 1];
      TrimEndPrefix(t);
      assert t[..|TrimEnd(t)|] == s[..|TrimEnd(t)|];
    }
  }

  /** Trimming the start drops a run of leading whitespace and no more. */
  lemma {:induction false} TrimStartFacts(s: string)
    ensures |TrimStart(s)| <= |s| && TrimStart(s) == s[|s| - |TrimStart(s)|..]
    ensures TrimStart(s) == [] || !IsJsWhitespace(TrimStart(s)[0])
    ensures forall k :: 0 <= k < |s| - |TrimStart(s)| ==> IsJsWhitespace(s[k])
  {
    TrimStartSuffix(s);
    if s != [] && IsJsWhitespace(s[0]) {
      var t := s[1..];
      TrimStartFacts(t);
      var r := TrimStart(t);
      assert TrimStart(s) == r;
      forall k | 0 <= k < |s| - |r| ensures IsJsWhitespace(s[k]) {
        if k > 0 {
          assert s[k] == t[k - 1];
        }
      }
    }
  }

  /** Trimming the end drops a run of trailing whitespace and no more. */
  lemma {:induction false} TrimEndFacts(s: string)
    ensures |TrimEnd(s)| <= |s| && TrimEnd(s) == s[..|TrimEnd(s)|]
    ensures TrimEnd(s) == [] || !IsJsWhitespace(TrimEnd(s)[|TrimEnd(s)| - 1])
    ensures forall k :: |TrimEnd(s)| <= k < |s| ==> IsJsWhitespace(s[k])
  {
    TrimEndPrefix(s);
    if s != [] && IsJsWhitespace(s[|s| - 1]) {
      var t := s[..|s| - 1];
      TrimEndFacts(t);
      var r := TrimEnd(t);
      assert TrimEnd(s) == r;
      forall k | |r| <= k < |s| ensures IsJsWhitespace(s[k]) {
        if k < |s| - 1 {
          assert s[k] == t[k];
        }
      }
    }
  }

  /** `s.trim()`. */
  function Trim(s: string): string {
    TrimEnd(TrimStart(s))
  }

  /** A string trims to the empty string exactly when it is blank: every character is whitespace. */
  lemma TrimEmptyIffBlank(s: string)
    ensures Trim(s) == "" <==> forall k :: 0 <= k < |s| ==> IsJsWhitespace(s[k])
  {
    var t := TrimStart(s);
    TrimStartFacts(s);
    TrimEndFacts(t);
    if t != [] {
      assert !IsJsWhitespace(t[0]);
      assert s[|s| - |t|] == t[0];
    }
  }

  /** What remains after trimming has no whitespace at either end. */
  lemma TrimEnds(s: string)
    ensures Trim(s) == [] || (!IsJsWhitespace(Trim(s)[0]) && !IsJsWhitespace(Trim(s)[|Trim(s)| - 1]))
  {
    var t := TrimStart(s);
    var r := TrimEnd(t);
    assert Trim(s) == r;
    TrimStartFacts(s);
    TrimEndFacts(t);
    if r != [] {
      assert r[0] == t[0];
    }
  }

  /** A string read as a JavaScript condition: non-empty. */
  function NonBlankOrNull(s: string): (r: Option<string>)
    ensures r.None? <==> (forall k :: 0 <= k < |s| ==> IsJsWhitespace(s[k]))
    ensures r.Some? ==> r.value == Trim(s) && r.value != ""
  {
    TrimEmptyIffBlank(s);
    if Trim(s) == "" then None else Some(Trim(s))
  }

  function DigitChar(d: nat): char
    requires d < 10
  {
    ('0' as int + d) as char
  }

  /** The decimal text of a non-negative integer, as template literals and `toString` print it. */
  function NatToString(n: nat): (r: string)
    ensures |r| >= 1
    ensures forall k :: 0 <= k < |r| ==> '0' <= r[k] <= '9'
  {
    if n < 10 then [DigitChar(n)] else NatToString(n / 10) + [DigitChar(n % 10)]
  }

  /** The inverse of `NatToString` on strings of decimal digits. */
  function ParseNat(s: string): nat
    requires forall k :: 0 <= k < |s| ==> '0' <= s[k] <= '9'
  {
    if s == [] then 0 else 10 * ParseNat(s[..|s| - 1]) + (s[|s| - 1] as int - '0' as int)
  }

  lemma {:induction false} ParseNatToString(n: nat)
    ensures ParseNat(NatToString(n)) == n
  {
    if n >= 10 {
      ParseNatToString(n / 10);
      var r := NatToString(n);
      assert r[..|r| - 1] == NatToString(n / 10);
    }
  }

  /** Two different numbers never print alike, so timestamp-derived names differ when the timestamps do. */
  lemma NatToStringInjective(m: nat, n: nat)
    requires NatToString(m) == NatToString(n)
    ensures m == n
  {
    ParseNatToString(m);
    ParseNatToString(n);
  }
}
