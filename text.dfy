/** String operations of JavaScript and Java that the pages and controllers rely on:
    trimming, blank tests, case mapping, splitting on a separator and decimal numbers. */
module Text {
  import opened Common

  /** Characters removed by JavaScript's `String.prototype.trim` and skipped by `parseInt`:
      the WhiteSpace and LineTerminator characters of ECMAScript. */
  predicate IsJsWhitespace(c: char) {
    || ('\t' <= c <= '\r')
    || c == ' ' || c == '\U{00A0}' || c == '\U{1680}'
    || ('\U{2000}' <= c <= '\U{200A}')
    || c == '\U{2028}' || c == '\U{2029}' || c == '\U{202F}' || c == '\U{205F}'
    || c == '\U{3000}' || c == '\U{FEFF}'
  }

  /** Java's `Character.isWhitespace`, on which `String.isBlank` is built: the Unicode space
      separators except the no-break spaces, the line and paragraph separators, and the
      controls TAB to CR and FS to US. */
  predicate IsJavaWhitespace(c: char) {
    || ('\t' <= c <= '\r')
    || ('\U{001C}' <= c <= '\U{001F}')
    || c == ' ' || c == '\U{1680}'
    || ('\U{2000}' <= c <= '\U{2006}') || ('\U{2008}' <= c <= '\U{200A}')
    || c == '\U{2028}' || c == '\U{2029}' || c == '\U{205F}' || c == '\U{3000}'
  }

  /** Java's `String.isBlank`: empty or only whitespace. */
  predicate IsBlank(s: string) {
    forall i | 0 <= i < |s| :: IsJavaWhitespace(s[i])
  }

  /** Drops leading JavaScript whitespace. */
  function TrimStart(s: string): (r: string)
    ensures |r| <= |s| && r == s[|s| - |r|..]
    ensures forall i | 0 <= i < |s| - |r| :: IsJsWhitespace(s[i])
    ensures r == [] || !IsJsWhitespace(r[0])
  {
    if s != [] && IsJsWhitespace(s[0]) then TrimStart(s[1..]) else s
  }

  /** Drops trailing JavaScript whitespace. */
  function TrimEnd(s: string): (r: string)
    ensures |r| <= |s| && r == s[..|r|]
    ensures forall i | |r| <= i < |s| :: IsJsWhitespace(s[i])
    ensures r == [] || !IsJsWhitespace(r[|r| - 1])
  {
    if s != [] && IsJsWhitespace(s[|s| - 1]) then TrimEnd(s[..|s| - 1]) else s
  }

  /** JavaScript's `s.trim()`. It is empty exactly when `s` holds only whitespace, and
      otherwise it neither starts nor ends with whitespace. */
  function Trim(s: string): (r: string)
    ensures r == [] <==> forall i | 0 <= i < |s| :: IsJsWhitespace(s[i])
    ensures r != [] ==> !IsJsWhitespace(r[0]) && !IsJsWhitespace(r[|r| - 1])
  {
    var t := TrimStart(s);
    var r := TrimEnd(t);
    assert r == [] ==> t == [];
    r
  }

  /** Trimming twice is trimming once. */
  lemma TrimIdempotent(s: string)
    ensures Trim(Trim(s)) == Trim(s)
  {
    var r := Trim(s);
    if r != [] {
      assert TrimStart(r) == r;
      assert TrimEnd(r) == r;
    }
  }

  /** JavaScript's `toUpperCase` on one character, for every character whose upper case is an
      ASCII letter (the ASCII letters, dotless i and long s). Other characters are kept, which
      does not change the outcome of a comparison with an ASCII constant. */
  function UpperChar(c: char): char {
    if 'a' <= c <= 'z' then (c as int - 32) as char
    else if c == '\U{0131}' then 'I'
    else if c == '\U{017F}' then 'S'
    else c
  }

  /** JavaScript's `toLowerCase` on one character, for every character whose lower case is an
      ASCII letter (the ASCII letters and the Kelvin sign); other characters are kept. */
  function LowerChar(c: char): char {
    if 'A' <= c <= 'Z' then (c as int + 32) as char
    else if c == '\U{212A}' then 'k'
    else c
  }

  function ToUpperCase(s: string): (r: string)
    ensures |r| == |s| && forall i | 0 <= i < |s| :: r[i] == UpperChar(s[i])
  {
    seq(|s|, i requires 0 <= i < |s| => UpperChar(s[i]))
  }

  function ToLowerCase(s: string): (r: string)
    ensures |r| == |s| && forall i | 0 <= i < |s| :: r[i] == LowerChar(s[i])
  {
    seq(|s|, i requires 0 <= i < |s| => LowerChar(s[i]))
  }

  /** Lower-casing is idempotent, so a lower-case switch sees the same key for `s` and for
      `s.toLowerCase()`. */
  lemma ToLowerCaseIdempotent(s: string)
    ensures ToLowerCase(ToLowerCase(s)) == ToLowerCase(s)
  {
  }

  /** Java's `String.equalsIgnoreCase` (the character comparison of `regionMatches(true, ...)`),
      with the case mappings above. */
  predicate EqualsIgnoreCase(a: string, b: string) {
    && |a| == |b|
    && forall i | 0 <= i < |a| ::
         || a[i] == b[i]
         || UpperChar(a[i]) == UpperChar(b[i])
         || LowerChar(UpperChar(a[i])) == LowerChar(UpperChar(b[i]))
  }

  /** JavaScript's `s.split(sep)` for a one-character separator: the pieces between
      separators, at least one, none containing the separator. */
  function Split(s: string, sep: char): (r: seq<string>)
    ensures |r| >= 1
    ensures forall p | p in r :: sep !in p
  {
    if s == [] then [[]]
    else
      var rest := Split(s[1..], sep);
      if s[0] == sep then [[]] + rest else [[s[0]] + rest[0]] + rest[1..]
  }

  /** `pieces.join(sep)`. */
  function Join(pieces: seq<string>, sep: char): string
    requires |pieces| >= 1
  {
    if |pieces| == 1 then pieces[0] else pieces[0] + [sep] + Join(pieces[1..], sep)
  }

  /** Joining the pieces of a split restores the string. */
  lemma {:induction false} JoinSplit(s: string, sep: char)
    ensures Join(Split(s, sep), sep) == s
  {
    if s != [] {
      var rest := Split(s[1..], sep);
      JoinSplit(s[1..], sep);
      if s[0] == sep {
        assert Split(s, sep)[1..] == rest;
      } else if |rest| == 1 {
        assert Split(s, sep) == [[s[0]] + rest[0]];
      } else {
        var r := Split(s, sep);
        assert r[1..] == rest[1..];
        assert Join(rest, sep) == rest[0] + [sep] + Join(rest[1..], sep);
      }
    }
  }

  /** Splitting a join of separator-free pieces gives the pieces back. */
  lemma {:induction false} SplitJoin(pieces: seq<string>, sep: char)
    requires |pieces| >= 1
    requires forall p | p in pieces :: sep !in p
    ensures Split(Join(pieces, sep), sep) == pieces
  {
    if |pieces| == 1 {
      SplitPiece(pieces[0], sep);
    } else {
      SplitJoin(pieces[1..], sep);
      SplitPrefix(pieces[0], Join(pieces[1..], sep), sep);
      assert Join(pieces, sep) == pieces[0] + ([sep] + Join(pieces[1..], sep));
      assert [pieces[0]] + pieces[1..] == pieces;
    }
  }

  lemma {:induction false} SplitPiece(p: string, sep: char)
    requires sep !in p
    ensures Split(p, sep) == [p]
  {
    if p != [] {
      SplitPiece(p[1..], sep);
      assert [p[0]] + p[1..] == p;
    }
  }

  lemma {:induction false} SplitPrefix(p: string, t: string, sep: char)
    requires sep !in p
    ensures Split(p + [sep] + t, sep) == [p] + Split(t, sep)
  {
    if p == [] {
      assert p + [sep] + t == [sep] + t;
      assert ([sep] + t)[1..] == t;
    } else {
      SplitPrefix(p[1..], t, sep);
      assert (p + [sep] + t)[1..] == p[1..] + [sep] + t;
      assert [p[0]] + p[1..] == p;
    }
  }

  /** The first piece of a split is the text before the first separator. */
  lemma {:induction false} SplitHead(s: string, sep: char)
    ensures Split(s, sep)[0] <= s
    ensures |Split(s, sep)[0]| == |s| || s[|Split(s, sep)[0]|] == sep
  {
    if s != [] && s[0] != sep {
      SplitHead(s[1..], sep);
      assert [s[0]] + s[1..] == s;
    }
  }

  /** Every piece of a split is empty exactly when the text is made of separators only. */
  lemma {:induction false} SplitAllEmpty(s: string, sep: char)
    ensures (forall i | 0 <= i < |Split(s, sep)| :: Split(s, sep)[i] == []) <==>
            (forall i | 0 <= i < |s| :: s[i] == sep)
  {
    if s != [] {
      var rest := Split(s[1..], sep);
      SplitAllEmpty(s[1..], sep);
      assert forall i | 0 <= i < |s[1..]| :: s[1..][i] == s[i + 1];
      if s[0] == sep {
        assert forall i | 0 <= i < |rest| :: Split(s, sep)[i + 1] == rest[i];
      } else {
        assert Split(s, sep)[0] != [];
      }
    }
  }

  /** Drops the empty pieces at the end of a split, as Java's `String.split` does. */
  function DropTrailingEmpty(pieces: seq<string>): (r: seq<string>)
    ensures |r| <= |pieces| && r == pieces[..|r|]
    ensures r == [] || r[|r| - 1] != []
    ensures forall i | |r| <= i < |pieces| :: pieces[i] == []
  {
    if pieces == [] || pieces[|pieces| - 1] != [] then pieces
    else DropTrailingEmpty(pieces[..|pieces| - 1])
  }

  /** Java's `s.split(sep)` for a one-character separator that is not special in a regular
      expression: the pieces of JavaScript's split without the empty ones at the end, except
      that the empty text gives one empty piece. */
  function JavaSplit(s: string, sep: char): (r: seq<string>)
    ensures r == [] <==> s != [] && forall i | 0 <= i < |s| :: s[i] == sep
    ensures r != [] ==> r[0] <= s && (|r[0]| == |s| || s[|r[0]|] == sep)
    ensures forall p | p in r :: sep !in p
  {
    if s == [] then [[]]
    else
      var pieces := Split(s, sep);
      SplitHead(s, sep);
      SplitAllEmpty(s, sep);
      DropTrailingEmpty(pieces)
  }

  // ---- decimal numbers ----

  predicate IsDecimalDigit(c: char) { '0' <= c <= '9' }

  /** A digit of the given radix (10, or 16 with either letter case). */
  predicate IsRadixDigit(c: char, radix: nat) {
    if radix == 16 then IsDecimalDigit(c) || 'a' <= c <= 'f' || 'A' <= c <= 'F'
    else IsDecimalDigit(c)
  }

  function DigitValue(c: char): nat {
    if IsDecimalDigit(c) then c as int - '0' as int
    else if 'a' <= c <= 'f' then c as int - 'a' as int + 10
    else if 'A' <= c <= 'F' then c as int - 'A' as int + 10
    else 0
  }

  /** The number written by a string of digits, most significant first. */
  function DigitsValue(s: string, radix: nat): nat {
    if s == [] then 0 else DigitsValue(s[..|s| - 1], radix) * radix + DigitValue(s[|s| - 1])
  }

  /** The longest prefix of `s` made of digits of the radix. */
  function LeadingDigits(s: string, radix: nat): (r: string)
    ensures |r| <= |s| && r == s[..|r|]
    ensures forall i | 0 <= i < |r| :: IsRadixDigit(r[i], radix)
    ensures |r| < |s| ==> !IsRadixDigit(s[|r|], radix)
  {
    if s != [] && IsRadixDigit(s[0], radix) then [s[0]] + LeadingDigits(s[1..], radix) else []
  }

  /** The decimal text of a natural number, as `String(n)` and Java's `String.valueOf(n)` write it. */
  function NatToString(n: nat): (r: string)
    ensures |r| >= 1 && forall i | 0 <= i < |r| :: IsDecimalDigit(r[i])
    ensures |r| > 1 ==> r[0] != '0'
  {
    if n < 10 then [('0' as int + n) as char]
    else NatToString(n / 10) + [('0' as int + n % 10) as char]
  }

  /** The decimal text of an integer, with a leading minus for negatives. */
  function IntToString(n: int): string {
    if n < 0 then "-" + NatToString(-n) else NatToString(n)
  }

  /** JavaScript's `parseInt(s)` with no radix: leading whitespace is skipped, a sign is read,
      and the number after it is read by `ParseMagnitude`. `None` stands for NaN. */
  function ParseInt(s: string): (r: Option<int>)
  {
    var t := TrimStart(s);
    if t != [] && t[0] == '-' then
      match ParseMagnitude(t[1..])
      case None => None
      case Some(v) => Some(-v)
    else if t != [] && t[0] == '+' then ParseMagnitude(t[1..])
    else ParseMagnitude(t)
  }

  /** The unsigned part of `parseInt`: a `0x` prefix selects hexadecimal, and the longest run of
      digits is read; no digit at all is NaN. */
  function ParseMagnitude(u: string): Option<int> {
    var hex := |u| >= 2 && u[0] == '0' && (u[1] == 'x' || u[1] == 'X');
    var radix := if hex then 16 else 10;
    var digits := LeadingDigits(if hex then u[2..] else u, radix);
    if digits == [] then None else Some(DigitsValue(digits, radix))
  }

  /** The value written by `NatToString(n)` is `n`. */
  lemma {:induction false} NatToStringValue(n: nat)
    ensures DigitsValue(NatToString(n), 10) == n
  {
    if n >= 10 {
      NatToStringValue(n / 10);
      var s := NatToString(n);
      assert s[..|s| - 1] == NatToString(n / 10);
    }
  }

  /** The leading digits of a run of digits followed by a non-digit are that run. */
  lemma {:induction false} LeadingDigitsOfDigits(s: string, rest: string)
    requires forall i | 0 <= i < |s| :: IsDecimalDigit(s[i])
    requires rest == [] || !IsDecimalDigit(rest[0])
    ensures LeadingDigits(s + rest, 10) == s
  {
    if s != [] {
      LeadingDigitsOfDigits(s[1..], rest);
      assert (s + rest)[1..] == s[1..] + rest;
      assert [s[0]] + s[1..] == s;
    }
  }

  /** `parseInt` reads back the decimal text of every integer, also when a text that does not
      start with a digit or an `x` follows it (as in `"12 hours"`). */
  lemma ParseIntOfIntToString(n: int, rest: string)
    requires rest == [] || (!IsDecimalDigit(rest[0]) && rest[0] != 'x' && rest[0] != 'X')
    ensures ParseInt(IntToString(n) + rest) == Some(n)
  {
    var m: nat := if n < 0 then -n else n;
    var digits := NatToString(m);
    NatToStringValue(m);
    LeadingDigitsOfDigits(digits, rest);
    ParseMagnitudeOfDigits(digits, rest, m);
    if n < 0 {
      ParseIntOfMinus(digits, rest);
    } else {
      ParseIntOfDigits(digits, rest);
    }
  }

  /** `parseInt(value) || 0`: the parsed integer, or 0 where `parseInt` gives NaN. */
  function IntOrZero(value: string): (r: int)
    ensures ParseInt(value).None? ==> r == 0
    ensures ParseInt(value).Some? ==> r == ParseInt(value).value
  {
    ParseInt(value).GetOr(0)
  }

  /** A number typed as its decimal text is read back as that number. */
  lemma IntOrZeroOfIntToString(n: int)
    ensures IntOrZero(IntToString(n)) == n
  {
    ParseIntOfIntToString(n, "");
    assert IntToString(n) + "" == IntToString(n);
  }

  /** A leading minus negates what follows it. */
  lemma ParseIntOfMinus(digits: string, rest: string)
    ensures ParseInt("-" + digits + rest) ==
      match ParseMagnitude(digits + rest) case None => None case Some(v) => Some(-v)
  {
    var s := "-" + digits + rest;
    assert TrimStart(s) == s;
    assert s[1..] == digits + rest;
  }

  /** Without a sign, `parseInt` reads the magnitude. */
  lemma ParseIntOfDigits(digits: string, rest: string)
    requires |digits| >= 1 && IsDecimalDigit(digits[0])
    ensures ParseInt(digits + rest) == ParseMagnitude(digits + rest)
  {
    var s := digits + rest;
    assert s[0] == digits[0];
    assert TrimStart(s) == s;
  }

  /** `ParseMagnitude` of a run of decimal digits with no leading zero, followed by a text that
      does not go on with a digit or an `x`, reads the digits. */
  lemma ParseMagnitudeOfDigits(digits: string, rest: string, m: int)
    requires |digits| >= 1 && (|digits| > 1 ==> digits[0] != '0')
    requires rest == [] || (!IsDecimalDigit(rest[0]) && rest[0] != 'x' && rest[0] != 'X')
    requires LeadingDigits(digits + rest, 10) == digits && DigitsValue(digits, 10) == m
    ensures ParseMagnitude(digits + rest) == Some(m)
  {
    var u := digits + rest;
    assert |u| >= 2 && u[0] == '0' ==> |digits| == 1 && u[1] == rest[0];
  }
}
