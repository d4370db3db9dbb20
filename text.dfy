/**
 * The Python string operations the application relies on, over `seq<char>`:
 * `strip`, `lower`/`upper` (ASCII letters only), `split`/`join` on one character,
 * `str(int)`, `int(str)`, `startswith`, `replace` and `zfill`.
 */
module Text {
  import opened Wrappers

  /** Python's `str.isspace` for one character (the characters `re`'s `\s` also matches). */
  predicate IsSpace(c: char) {
    c == ' ' || c == '\t' || c == '\n' || c == '\r' || c == '\U{000B}' || c == '\U{000C}'
    || ('\U{001C}' <= c <= '\U{001F}') || c == '\U{0085}' || c == '\U{00A0}' || c == '\U{1680}'
    || ('\U{2000}' <= c <= '\U{200A}') || c == '\U{2028}' || c == '\U{2029}' || c == '\U{202F}'
    || c == '\U{205F}' || c == '\U{3000}'
  }

  /** `s.lstrip()`: drops the leading whitespace. */
  function TrimLeft(s: string): (r: string)
    ensures |r| <= |s| && r == s[|s| - |r|..]
    ensures r == [] || !IsSpace(r[0])
    ensures forall i :: 0 <= i < |s| - |r| ==> IsSpace(s[i])
  {
    if |s| > 0 && IsSpace(s[0]) then TrimLeft(s[1..]) else s
  }

  /** `s.rstrip()`: drops the trailing whitespace. */
  function TrimRight(s: string): (r: string)
    ensures |r| <= |s| && r == s[..|r|]
    ensures r == [] || !IsSpace(r[|r| - 1])
    ensures forall i :: |r| <= i < |s| ==> IsSpace(s[i])
  {
    if |s| > 0 && IsSpace(s[|s| - 1]) then TrimRight(s[..|s| - 1]) else s
  }

  /** `s.strip()`. */
  function Trim(s: string): string {
    TrimRight(TrimLeft(s))
  }

  /** What `strip` promises: neither end of the result is whitespace. */
  lemma TrimEnds(s: string)
    ensures var r := Trim(s); r == [] || (!IsSpace(r[0]) && !IsSpace(r[|r| - 1]))
  {
    var l := TrimLeft(s);
    var r := TrimRight(l);
    if r != [] {
      assert r[0] == l[0];
    }
  }

  lemma {:induction false} TrimLeftNoLeadingSpace(s: string)
    requires s == [] || !IsSpace(s[0])
    ensures TrimLeft(s) == s
  {
  }

  lemma {:induction false} TrimRightKeepsNonSpaceStart(s: string)
    requires s == [] || !IsSpace(s[0])
    ensures var r := TrimRight(s); r == [] || !IsSpace(r[0])
  {
  }

  /** Stripping twice is stripping once. */
  lemma TrimIdempotent(s: string)
    ensures Trim(Trim(s)) == Trim(s)
  {
    var t := Trim(s);
    TrimEnds(s);
    TrimLeftNoLeadingSpace(t);
    assert TrimRight(t) == t;
  }

  /** A string without any whitespace character is its own strip. */
  lemma TrimNoSpace(s: string)
    requires forall i :: 0 <= i < |s| ==> !IsSpace(s[i])
    ensures Trim(s) == s
  {
    TrimLeftNoLeadingSpace(s);
  }

  function LowerChar(c: char): char {
    if 'A' <= c <= 'Z' then (c as int + 32) as char else c
  }

  function UpperChar(c: char): char {
    if 'a' <= c <= 'z' then (c as int - 32) as char else c
  }

  /** `s.lower()` for ASCII letters; every other character is kept. */
  function Lower(s: string): (r: string)
    ensures |r| == |s|
    ensures forall i :: 0 <= i < |s| ==> r[i] == LowerChar(s[i])
  {
    seq(|s|, i requires 0 <= i < |s| => LowerChar(s[i]))
  }

  /** `s.upper()` for ASCII letters; every other character is kept. */
  function Upper(s: string): (r: string)
    ensures |r| == |s|
    ensures forall i :: 0 <= i < |s| ==> r[i] == UpperChar(s[i])
  {
    seq(|s|, i requires 0 <= i < |s| => UpperChar(s[i]))
  }

  /** No upper-case ASCII letter in `s`. */
  predicate IsLowerCase(s: string) {
    forall i :: 0 <= i < |s| ==> !('A' <= s[i] <= 'Z')
  }

  lemma LowerOfLowerCase(s: string)
    requires IsLowerCase(s)
    ensures Lower(s) == s
  {
  }

  lemma LowerIdempotent(s: string)
    ensures Lower(Lower(s)) == Lower(s)
  {
  }

  /** Lower-casing maps whitespace to whitespace and nothing else to whitespace. */
  lemma LowerCharSpace(c: char)
    ensures IsSpace(LowerChar(c)) <==> IsSpace(c)
  {
  }

  lemma TrimLowerCommute(s: string)
    ensures Trim(Lower(s)) == Lower(Trim(s))
  {
    TrimLeftLower(s);
    TrimRightLower(TrimLeft(s));
  }

  lemma {:induction false} TrimLeftLower(s: string)
    ensures TrimLeft(Lower(s)) == Lower(TrimLeft(s))
    decreases |s|
  {
    if |s| > 0 {
      LowerCharSpace(s[0]);
      if IsSpace(s[0]) {
        assert Lower(s)[1..] == Lower(s[1..]);
        TrimLeftLower(s[1..]);
      }
    }
  }

  lemma {:induction false} TrimRightLower(s: string)
    ensures TrimRight(Lower(s)) == Lower(TrimRight(s))
    decreases |s|
  {
    if |s| > 0 {
      LowerCharSpace(s[|s| - 1]);
      if IsSpace(s[|s| - 1]) {
        assert Lower(s)[..|s| - 1] == Lower(s[..|s| - 1]);
        TrimRightLower(s[..|s| - 1]);
      }
    }
  }

  /** Python's `s.startswith(p)`. */
  predicate StartsWith(s: string, p: string) {
    |p| <= |s| && s[..|p|] == p
  }

  /** Python's `c in s` for a single character. */
  predicate ContainsChar(s: string, c: char) {
    exists i :: 0 <= i < |s| && s[i] == c
  }

  /** Python's `p in s`: `p` occurs at some position of `s`. */
  predicate OccursAt(s: string, p: string, i: int) {
    0 <= i && i + |p| <= |s| && s[i..i + |p|] == p
  }

  // ---------------------------------------------------------------------------
  // split and join on one separator character

  /** Python's `s.split(sep)` for a one-character separator: always at least one piece. */
  function Split(s: string, sep: char): (parts: seq<string>)
    ensures |parts| >= 1
    ensures forall k :: 0 <= k < |parts| ==> !ContainsChar(parts[k], sep)
    decreases |s|
  {
    if |s| == 0 then [""]
    else
      var rest := Split(s[1..], sep);
      if s[0] == sep then [""] + rest
      else
        var first := [s[0]] + rest[0];
        assert !ContainsChar(first, sep) by {
          forall i | 0 <= i < |first| ensures first[i] != sep {
            if i > 0 { assert first[i] == rest[0][i - 1]; }
          }
        }
        [first] + rest[1..]
  }

  /** Python's `sep.join(parts)`. */
  function Join(parts: seq<string>, sep: char): string
    decreases |parts|
  {
    if |parts| == 0 then ""
    else if |parts| == 1 then parts[0]
    else parts[0] + [sep] + Join(parts[1..], sep)
  }

  lemma {:induction false} SplitNoSep(p: string, sep: char)
    requires !ContainsChar(p, sep)
    ensures Split(p, sep) == [p]
    decreases |p|
  {
    if |p| > 0 {
      assert !ContainsChar(p[1..], sep) by {
        forall i | 0 <= i < |p[1..]| ensures p[1..][i] != sep { assert p[1..][i] == p[i + 1]; }
      }
      SplitNoSep(p[1..], sep);
      assert p[0] != sep;
      assert [p[0]] + p[1..] == p;
    }
  }

  lemma {:induction false} SplitAfterPiece(p: string, sep: char, t: string)
    requires !ContainsChar(p, sep)
    ensures Split(p + [sep] + t, sep) == [p] + Split(t, sep)
    decreases |p|
  {
    var s := p + [sep] + t;
    if |p| == 0 {
      assert s[0] == sep && s[1..] == t;
    } else {
      assert p[0] != sep;
      assert !ContainsChar(p[1..], sep) by {
        forall i | 0 <= i < |p[1..]| ensures p[1..][i] != sep { assert p[1..][i] == p[i + 1]; }
      }
      assert s[1..] == p[1..] + [sep] + t;
      SplitAfterPiece(p[1..], sep, t);
      assert [p[0]] + p[1..] == p;
    }
  }

  /** Splitting a join gives back the pieces, provided no piece holds the separator. */
  lemma {:induction false} SplitJoin(parts: seq<string>, sep: char)
    requires |parts| >= 1
    requires forall k :: 0 <= k < |parts| ==> !ContainsChar(parts[k], sep)
    ensures Split(Join(parts, sep), sep) == parts
    decreases |parts|
  {
    if |parts| == 1 {
      SplitNoSep(parts[0], sep);
    } else {
      SplitJoin(parts[1..], sep);
      SplitAfterPiece(parts[0], sep, Join(parts[1..], sep));
      assert [parts[0]] + parts[1..] == parts;
    }
  }

  // ---------------------------------------------------------------------------
  // decimal digits, str(int) and int(str)

  predicate IsDigit(c: char) {
    '0' <= c <= '9'
  }

  predicate AllDigits(s: string) {
    forall i :: 0 <= i < |s| ==> IsDigit(s[i])
  }

  function DigitChar(d: nat): (c: char)
    requires d < 10
    ensures IsDigit(c)
  {
    ('0' as int + d) as char
  }

  function DigitValue(c: char): (d: nat)
    requires IsDigit(c)
    ensures d < 10
  {
    c as int - '0' as int
  }

  /** The number a string of decimal digits denotes (leading zeros allowed). */
  function DigitsValue(s: string): nat
    requires AllDigits(s)
    decreases |s|
  {
    if |s| == 0 then 0 else 10 * DigitsValue(s[..|s| - 1]) + DigitValue(s[|s| - 1])
  }

  /** `str(n)` for a natural number: its decimal digits, without leading zeros. */
  function NatToString(n: nat): (s: string)
    ensures |s| >= 1 && AllDigits(s)
    ensures s[0] == '0' ==> n == 0
    decreases n
  {
    if n < 10 then [DigitChar(n)] else NatToString(n / 10) + [DigitChar(n % 10)]
  }

  /** `str(n)` for any integer. */
  function IntToString(n: int): (s: string)
    ensures |s| >= 1
  {
    if n < 0 then "-" + NatToString(-n) else NatToString(n)
  }

  /** A decimal literal as `int()` reads it: ASCII digits, where a single `_` may separate
      two digits (so "1_000" is a literal, and "_1", "1_" and "1__0" are not). */
  predicate IsNumeral(s: string) {
    && |s| >= 1
    && IsDigit(s[0])
    && IsDigit(s[|s| - 1])
    && (forall i :: 0 <= i < |s| ==> IsDigit(s[i]) || s[i] == '_')
    && NoDoubleUnderscore(s)
  }

  /** No two `_` in a row. */
  predicate NoDoubleUnderscore(s: string)
    decreases |s|
  {
    |s| < 2 || (!(s[0] == '_' && s[1] == '_') && NoDoubleUnderscore(s[1..]))
  }

  lemma {:induction false} DigitsNoUnderscore(s: string)
    requires AllDigits(s)
    ensures NoDoubleUnderscore(s)
    decreases |s|
  {
    if |s| >= 2 {
      DigitsNoUnderscore(s[1..]);
    }
  }

  /** The characters of `s` other than `_`, in order. */
  function DropUnderscores(s: string): (r: string)
    ensures (forall i :: 0 <= i < |s| ==> IsDigit(s[i]) || s[i] == '_') ==> AllDigits(r)
    ensures AllDigits(s) ==> r == s
    decreases |s|
  {
    if |s| == 0 then ""
    else (if s[0] == '_' then "" else [s[0]]) + DropUnderscores(s[1..])
  }

  /** The value of a literal: its digits read in order, the separators ignored. */
  function NumeralValue(s: string): nat
    requires IsNumeral(s)
  {
    DigitsValue(DropUnderscores(s))
  }

  /** Python's `int(s)` on a string: surrounding whitespace, an optional sign, then a decimal
      literal with optional `_` separators; anything else raises `ValueError` (here: `None`). */
  function ParseInt(s: string): Option<int> {
    ParseSigned(Trim(s))
  }

  /** `int` on an already stripped string. */
  function ParseSigned(t: string): Option<int> {
    if |t| >= 2 && (t[0] == '-' || t[0] == '+') && IsNumeral(t[1..]) then
      var v: int := NumeralValue(t[1..]);
      Some(if t[0] == '-' then -v else v)
    else if IsNumeral(t) then Some(NumeralValue(t))
    else None
  }

  /** A non-empty string of digits is a literal worth its digit value. */
  lemma DigitsAreNumeral(s: string)
    requires |s| >= 1 && AllDigits(s)
    ensures IsNumeral(s) && NumeralValue(s) == DigitsValue(s)
  {
    DigitsNoUnderscore(s);
  }

  /** Separators are ignored: "1_0" reads as 10. */
  lemma UnderscoreRead()
    ensures ParseInt("1_0") == Some(10)
  {
    var t := "1_0";
    assert t == ['1', '_', '0'];
    SeparatedPair('1', '0');
    TrimNoSpace(t);
  }

  /** Two digits with a separator between them form a literal worth the two-digit number. */
  lemma SeparatedPair(a: char, b: char)
    requires IsDigit(a) && IsDigit(b)
    ensures IsNumeral([a, '_', b]) && ParseSigned([a, '_', b]) == Some(10 * DigitValue(a) + DigitValue(b))
  {
    var t := [a, '_', b];
    assert t[1..] == ['_', b] && t[1..][1..] == [b] && [b][1..] == [];
    assert DropUnderscores([b]) == [b];
    assert DropUnderscores(t) == [a, b];
    assert [a, b][..1] == [a] && [a][..0] == [];
    assert DigitsValue([a]) == DigitValue(a);
    assert DigitsValue([a, b]) == 10 * DigitValue(a) + DigitValue(b);
    assert NoDoubleUnderscore(t);
    assert IsNumeral(t);
    assert NumeralValue(t) == 10 * DigitValue(a) + DigitValue(b);
    assert t[0] != '-' && t[0] != '+';
  }

  /** A doubled, leading or trailing separator is refused. */
  lemma UnderscoreRefused()
    ensures ParseInt("1__0") == None && ParseInt("_1") == None && ParseInt("1_") == None
  {
    TrimNoSpace("1__0");
    TrimNoSpace("_1");
    TrimNoSpace("1_");
    assert !NoDoubleUnderscore("1__0"[1..]);
  }

  lemma {:induction false} DigitsOfNatToString(n: nat)
    ensures DigitsValue(NatToString(n)) == n
    decreases n
  {
    if n >= 10 {
      var s := NatToString(n);
      assert s[..|s| - 1] == NatToString(n / 10);
      DigitsOfNatToString(n / 10);
    }
  }

  lemma NatToStringNoSpace(n: nat)
    ensures forall i :: 0 <= i < |NatToString(n)| ==> !IsSpace(NatToString(n)[i])
  {
  }

  lemma {:induction false} ParseNatToString(n: nat)
    ensures ParseInt(IntToString(n)) == Some(n)
  {
    var s := NatToString(n);
    assert IntToString(n) == s;
    NatToStringNoSpace(n);
    TrimNoSpace(s);
    DigitsOfNatToString(n);
    DigitsAreNumeral(s);
    assert IsDigit(s[0]);
    assert ParseSigned(s) == Some(n);
  }

  /** A minus sign followed by a literal parses as its negated value. */
  lemma ParseMinus(t: string)
    requires |t| >= 2 && t[0] == '-' && IsNumeral(t[1..])
    ensures ParseSigned(t) == Some(-(NumeralValue(t[1..]) as int))
  {
  }

  /** A minus sign followed by digits parses as the negated digit value. */
  lemma {:induction false} ParseSignedNegative(d: string)
    requires |d| >= 1 && AllDigits(d)
    ensures ParseSigned("-" + d) == Some(-(DigitsValue(d) as int))
  {
    var t := "-" + d;
    assert t[1..] == d;
    DigitsAreNumeral(d);
    ParseMinus(t);
  }

  /** A string without whitespace after a minus sign is its own strip. */
  lemma TrimSignedNoSpace(d: string)
    requires forall i :: 0 <= i < |d| ==> !IsSpace(d[i])
    ensures Trim("-" + d) == "-" + d
  {
    var s := "-" + d;
    assert forall i :: 0 <= i < |s| ==> !IsSpace(s[i]) by {
      forall i | 0 <= i < |s| ensures !IsSpace(s[i]) {
        if i > 0 { assert s[i] == d[i - 1]; }
      }
    }
    TrimNoSpace(s);
  }

  lemma {:induction false} ParseNegativeToString(n: nat)
    requires n > 0
    ensures ParseInt(IntToString(-(n as int))) == Some(-(n as int))
  {
    var d := NatToString(n);
    NegativeTrimmed(n);
    ParseSignedNegative(d);
    DigitsOfNatToString(n);
  }

  /** `str(-n)` is its own strip: a minus sign and the digits of `n`. */
  lemma NegativeTrimmed(n: nat)
    requires n > 0
    ensures Trim(IntToString(-(n as int))) == "-" + NatToString(n)
  {
    var d := NatToString(n);
    assert IntToString(-(n as int)) == "-" + d;
    NatToStringNoSpace(n);
    TrimSignedNoSpace(d);
  }

  /** `int(str(n)) == n` for every integer. */
  lemma ParseIntToString(n: int)
    ensures ParseInt(IntToString(n)) == Some(n)
  {
    if n < 0 {
      ParseNegativeToString(-n);
    } else {
      ParseNatToString(n);
    }
  }

  /** `str(n)` has no whitespace and no upper-case letter, and starts with a digit or `-`. */
  lemma {:induction false} IntToStringPlain(n: int)
    ensures Trim(IntToString(n)) == IntToString(n)
    ensures IsLowerCase(IntToString(n))
    ensures IsDigit(IntToString(n)[0]) || IntToString(n)[0] == '-'
  {
    if n < 0 {
      NegativeTrimmed(-n);
      NegativeLowerCase(-n);
    } else {
      NatToStringNoSpace(n);
      TrimNoSpace(NatToString(n));
    }
  }

  /** `str(-n)` has no upper-case letter. */
  lemma NegativeLowerCase(n: nat)
    requires n > 0
    ensures IsLowerCase(IntToString(-(n as int))) && IntToString(-(n as int))[0] == '-'
  {
    var d := NatToString(n);
    var s := "-" + d;
    assert IntToString(-(n as int)) == s;
    forall i | 0 <= i < |s| ensures !('A' <= s[i] <= 'Z') {
      if i > 0 { assert s[i] == d[i - 1]; }
    }
  }

  /** Different numbers print differently. */
  lemma IntToStringInjective(a: int, b: int)
    requires IntToString(a) == IntToString(b)
    ensures a == b
  {
    ParseIntToString(a);
    ParseIntToString(b);
  }

  // ---------------------------------------------------------------------------
  // zfill and replace

  /** `s.zfill(width)` for a string of digits: left-padded with '0' to `width` characters. */
  function ZFill(s: string, width: nat): (r: string)
    ensures |r| == if |s| >= width then |s| else width
    ensures r[|r| - |s|..] == s
    ensures forall i :: 0 <= i < |r| - |s| ==> r[i] == '0'
  {
    if |s| >= width then s else seq(width - |s|, _ => '0') + s
  }

  lemma {:induction false} DigitsValueZeros(z: string)
    requires forall i :: 0 <= i < |z| ==> z[i] == '0'
    ensures AllDigits(z) && DigitsValue(z) == 0
    decreases |z|
  {
    if |z| > 0 {
      DigitsValueZeros(z[..|z| - 1]);
    }
  }

  /** Leading zeros do not change the value of a digit string. */
  lemma {:induction false} DigitsValueLeadingZeros(z: string, s: string)
    requires forall i :: 0 <= i < |z| ==> z[i] == '0'
    requires AllDigits(s)
    ensures AllDigits(z + s) && DigitsValue(z + s) == DigitsValue(s)
    decreases |s|
  {
    if |s| == 0 {
      assert z + s == z;
      DigitsValueZeros(z);
    } else {
      DigitsValueLeadingZeros(z, s[..|s| - 1]);
      assert (z + s)[..|z + s| - 1] == z + s[..|s| - 1];
    }
  }

  /** Zero-padding a printed number keeps its value, so distinct numbers stay distinct. */
  lemma ZFillNatValue(n: nat, width: nat)
    ensures AllDigits(ZFill(NatToString(n), width))
    ensures DigitsValue(ZFill(NatToString(n), width)) == n
  {
    var s := NatToString(n);
    var r := ZFill(s, width);
    var z := r[..|r| - |s|];
    assert r == z + s;
    DigitsValueLeadingZeros(z, s);
    DigitsOfNatToString(n);
  }

  /** Python's `s.replace(pat, rep, 1)`: the first occurrence of `pat`, if any, replaced. */
  function ReplaceFirst(s: string, pat: string, rep: string): string
    requires |pat| > 0
    decreases |s|
  {
    if |s| < |pat| then s
    else if s[..|pat|] == pat then rep + s[|pat|..]
    else [s[0]] + ReplaceFirst(s[1..], pat, rep)
  }

  /** Python's `s.replace(pat, rep)`: every non-overlapping occurrence, left to right. */
  function ReplaceAll(s: string, pat: string, rep: string): string
    requires |pat| > 0
    decreases |s|
  {
    if |s| < |pat| then s
    else if s[..|pat|] == pat then rep + ReplaceAll(s[|pat|..], pat, rep)
    else [s[0]] + ReplaceAll(s[1..], pat, rep)
  }

  /** `replace` on a string that ends with the only occurrence of `pat`, where `pat`'s first
      character appears nowhere before it: exactly that trailing occurrence is rewritten. */
  lemma {:induction false} ReplaceAllAtEnd(s: string, pat: string, rep: string)
    requires |pat| > 0
    requires forall i :: 0 <= i < |s| ==> s[i] != pat[0]
    ensures ReplaceAll(s + pat, pat, rep) == s + rep
    decreases |s|
  {
    var t := s + pat;
    if |s| == 0 {
      assert t == pat;
      assert t[|pat|..] == [];
    } else {
      assert t[..|pat|][0] == s[0];
      assert t[1..] == s[1..] + pat;
      ReplaceAllAtEnd(s[1..], pat, rep);
      assert [s[0]] + (s[1..] + rep) == s + rep;
    }
  }

  /** Python's `sep.join(parts)` for a separator of any length. */
  function JoinWith(parts: seq<string>, sep: string): string
    decreases |parts|
  {
    if |parts| == 0 then ""
    else if |parts| == 1 then parts[0]
    else parts[0] + sep + JoinWith(parts[1..], sep)
  }

  /** A string whose ends are not whitespace is its own strip. */
  lemma TrimOfTrimmed(s: string)
    requires s == [] || (!IsSpace(s[0]) && !IsSpace(s[|s| - 1]))
    ensures Trim(s) == s
  {
    TrimLeftNoLeadingSpace(s);
  }

  /** Python's `a < b` on strings: code points compared left to right, a proper prefix first. */
  predicate StrLess(a: string, b: string)
    decreases |a|
  {
    if |a| == 0 then |b| > 0
    else if |b| == 0 then false
    else if a[0] != b[0] then a[0] < b[0]
    else StrLess(a[1..], b[1..])
  }

  lemma {:induction false} StrLessIrreflexive(a: string)
    ensures !StrLess(a, a)
    decreases |a|
  {
    if |a| > 0 {
      StrLessIrreflexive(a[1..]);
    }
  }

  lemma {:induction false} StrLessAsymmetric(a: string, b: string)
    ensures StrLess(a, b) ==> !StrLess(b, a)
    decreases |a|
  {
    if |a| > 0 && |b| > 0 && a[0] == b[0] {
      StrLessAsymmetric(a[1..], b[1..]);
    }
  }

  lemma {:induction false} StrLessTransitive(a: string, b: string, c: string)
    requires StrLess(a, b) && StrLess(b, c)
    ensures StrLess(a, c)
    decreases |a|
  {
    if |a| > 0 && a[0] == b[0] && b[0] == c[0] {
      StrLessTransitive(a[1..], b[1..], c[1..]);
    }
  }

  /** Distinct strings are ordered one way or the other. */
  lemma {:induction false} StrLessTotal(a: string, b: string)
    ensures a != b ==> StrLess(a, b) || StrLess(b, a)
    decreases |a|
  {
    if |a| > 0 && |b| > 0 && a[0] == b[0] {
      StrLessTotal(a[1..], b[1..]);
      if a != b {
        assert a == [a[0]] + a[1..] && b == [b[0]] + b[1..];
      }
    }
  }

  lemma StrLessTotalAll()
    ensures forall a: string, b: string :: a != b ==> StrLess(a, b) || StrLess(b, a)
  {
    forall a: string, b: string ensures a != b ==> StrLess(a, b) || StrLess(b, a) {
      StrLessTotal(a, b);
    }
  }

  /** "Not greater" is transitive. */
  lemma NotLessTransitive(a: string, b: string, c: string)
    requires !StrLess(b, a) && !StrLess(c, b)
    ensures !StrLess(c, a)
  {
    StrLessTotal(a, b);
    StrLessTotal(b, c);
    if a != b && b != c {
      StrLessTransitive(a, b, c);
      StrLessAsymmetric(a, c);
    }
  }
}
