/**
 * The few functions of Go's `strings`, `strconv` and `fmt` packages that the
 * agent's control logic relies on, over strings of Unicode code points.
 */
module Text {
  import opened Base

  /** Go's `unicode.IsSpace`: the Unicode White_Space characters. */
  predicate IsSpace(c: char)
  {
    c == ' ' || c == '\t' || c == '\n' || c == '\U{000B}' || c == '\U{000C}' || c == '\r'
    || c == '\U{0085}' || c == '\U{00A0}' || c == '\U{1680}'
    || ('\U{2000}' <= c <= '\U{200A}')
    || c == '\U{2028}' || c == '\U{2029}' || c == '\U{202F}' || c == '\U{205F}' || c == '\U{3000}'
  }

  /** The index of the first character of `s` at or after `i` that is not white space. */
  function SpaceEnd(s: string, i: nat): (k: nat)
    requires i <= |s|
    ensures i <= k <= |s| && (k == |s| || !IsSpace(s[k]))
    ensures forall j :: i <= j < k ==> IsSpace(s[j])
    decreases |s| - i
  {
    if i < |s| && IsSpace(s[i]) then SpaceEnd(s, i + 1) else i
  }

  /** The index just past the last character of `s[..i]` that is not white space. */
  function SpaceStart(s: string, i: nat): (k: nat)
    requires i <= |s|
    ensures k <= i && (k == 0 || !IsSpace(s[k - 1]))
    ensures forall j :: k <= j < i ==> IsSpace(s[j])
  {
    if i > 0 && IsSpace(s[i - 1]) then SpaceStart(s, i - 1) else i
  }

  /** Drops the leading white space of `s`. */
  function TrimLeft(s: string): (r: string)
    ensures |r| <= |s| && forall i :: 0 <= i < |r| ==> r[i] == s[|s| - |r| + i]
    ensures r == [] || !IsSpace(r[0])
    ensures forall i :: 0 <= i < |s| - |r| ==> IsSpace(s[i])
  {
    s[SpaceEnd(s, 0)..]
  }

  /** Drops the trailing white space of `s`. */
  function TrimRight(s: string): (r: string)
    ensures |r| <= |s| && forall i :: 0 <= i < |r| ==> r[i] == s[i]
    ensures r == [] || !IsSpace(r[|r| - 1])
    ensures forall i :: |r| <= i < |s| ==> IsSpace(s[i])
  {
    s[..SpaceStart(s, |s|)]
  }

  /** Go's `strings.TrimSpace`. */
  function TrimSpace(s: string): (r: string)
    ensures |r| <= |s|
    ensures r == [] || (!IsSpace(r[0]) && !IsSpace(r[|r| - 1]))
  {
    TrimRight(TrimLeft(s))
  }

  /** A text with no white space at either end is its own trim. */
  lemma TrimSpaceKeeps(s: string)
    requires s == [] || (!IsSpace(s[0]) && !IsSpace(s[|s| - 1]))
    ensures TrimSpace(s) == s
  {
    assert SpaceEnd(s, 0) == 0;
    assert s[0..] == s;
    assert SpaceStart(s, |s|) == |s|;
  }

  /**
   * What the trim keeps: the part of `s` that starts at its first character
   * that is not white space, and after which only white space follows.
   */
  lemma TrimSpaceMeaning(s: string)
    ensures var a, r := SpaceEnd(s, 0), TrimSpace(s);
      && a + |r| <= |s| && r == s[a..a + |r|]
      && (forall i :: 0 <= i < a ==> IsSpace(s[i]))
      && (forall i :: a + |r| <= i < |s| ==> IsSpace(s[i]))
  {
    var a := SpaceEnd(s, 0);
    assert TrimLeft(s) == s[a..];
    TrimRightOfSuffix(s, a);
  }

  /** Trimming the end of the suffix `s[a..]` keeps a slice of `s` followed only by white space. */
  lemma TrimRightOfSuffix(s: string, a: nat)
    requires a <= |s|
    ensures var r := TrimRight(s[a..]);
      && a + |r| <= |s| && r == s[a..a + |r|]
      && (forall i :: a + |r| <= i < |s| ==> IsSpace(s[i]))
  {
    var t := s[a..];
    var r := TrimRight(t);
    assert r == t[..|r|];
    forall i | a + |r| <= i < |s|
      ensures IsSpace(s[i])
    {
      assert s[i] == t[i - a];
    }
  }

  /** A text trims to nothing exactly when it is all white space. */
  lemma TrimSpaceBlank(s: string)
    ensures TrimSpace(s) == [] <==> forall i :: 0 <= i < |s| ==> IsSpace(s[i])
  {
    TrimSpaceMeaning(s);
    var a := SpaceEnd(s, 0);
    if TrimSpace(s) != [] {
      assert TrimSpace(s)[0] == s[a];
    }
  }

  /** The number of copies of `c` that `s` begins with. */
  function LeadingRun(s: string, c: char): (n: nat)
    ensures n <= |s| && (n == |s| || s[n] != c)
    ensures forall i :: 0 <= i < n ==> s[i] == c
  {
    if s != [] && s[0] == c then 1 + LeadingRun(s[1..], c) else 0
  }

  /** Go's `strings.Trim(s, cutset)` for a one-character cut set. */
  function TrimChar(s: string, c: char): (r: string)
    ensures |r| <= |s|
    ensures r == [] || (r[0] != c && r[|r| - 1] != c)
  {
    if s != [] && s[0] == c then TrimChar(s[1..], c)
    else if s != [] && s[|s| - 1] == c then TrimChar(s[..|s| - 1], c)
    else s
  }

  /**
   * What the trim keeps: the part of `s` after its leading copies of `c`,
   * followed in `s` only by copies of `c`.
   */
  ghost predicate TrimCharKeeps(s: string, c: char)
  {
    var a, r := LeadingRun(s, c), TrimChar(s, c);
    && a + |r| <= |s| && r == s[a..a + |r|]
    && (forall i :: a + |r| <= i < |s| ==> s[i] == c)
  }

  lemma {:induction false} TrimCharMeaning(s: string, c: char)
    ensures TrimCharKeeps(s, c)
  {
    if s != [] && s[0] == c {
      TrimCharMeaning(s[1..], c);
      TrimCharFront(s, c);
    } else if s != [] && s[|s| - 1] == c {
      TrimCharMeaning(s[..|s| - 1], c);
      TrimCharBack(s, c);
    }
  }

  /** A leading `c` is dropped: what the rest keeps, `s` keeps. */
  lemma TrimCharFront(s: string, c: char)
    requires s != [] && s[0] == c && TrimCharKeeps(s[1..], c)
    ensures TrimCharKeeps(s, c)
  {
    var r := TrimChar(s, c);
    var a := LeadingRun(s, c);
    assert a == 1 + LeadingRun(s[1..], c);
    assert r == s[1..][a - 1..a - 1 + |r|];
    forall i | a + |r| <= i < |s|
      ensures s[i] == c
    {
      assert s[i] == s[1..][i - 1];
    }
  }

  /** A trailing `c` after a first character that is not `c` is dropped: what the rest keeps, `s` keeps. */
  lemma TrimCharBack(s: string, c: char)
    requires s != [] && s[0] != c && s[|s| - 1] == c && TrimCharKeeps(s[..|s| - 1], c)
    ensures TrimCharKeeps(s, c)
  {
    var init := s[..|s| - 1];
    var r := TrimChar(s, c);
    assert LeadingRun(s, c) == 0;
    assert LeadingRun(init, c) == 0 by {
      if init != [] { assert init[0] == s[0]; }
    }
    assert r == init[0..|r|];
    forall i | |r| <= i < |s|
      ensures s[i] == c
    {
      if i < |s| - 1 { assert s[i] == init[i]; }
    }
  }

  /**
   * Go's `unicode.ToLower` for the Latin and Cyrillic capitals; every other
   * character is its own lower case in this model.
   */
  function LowerChar(c: char): char
  {
    if 'A' <= c <= 'Z' then (c as int + 32) as char
    else if '\U{0410}' <= c <= '\U{042F}' then (c as int + 0x20) as char
    else if '\U{0400}' <= c <= '\U{040F}' then (c as int + 0x50) as char
    else c
  }

  /** Go's `strings.ToLower`, character by character. */
  function ToLower(s: string): (r: string)
    ensures |r| == |s|
    ensures forall i :: 0 <= i < |s| ==> r[i] == LowerChar(s[i])
  {
    seq(|s|, i requires 0 <= i < |s| => LowerChar(s[i]))
  }

  function UpperChar(c: char): char
  {
    if 'a' <= c <= 'z' then (c as int - 32) as char
    else if '\U{0430}' <= c <= '\U{044F}' then (c as int - 0x20) as char
    else if '\U{0450}' <= c <= '\U{045F}' then (c as int - 0x50) as char
    else c
  }

  /** Go's `strings.ToUpper`, character by character. */
  function ToUpper(s: string): (r: string)
    ensures |r| == |s|
    ensures forall i :: 0 <= i < |s| ==> r[i] == UpperChar(s[i])
  {
    seq(|s|, i requires 0 <= i < |s| => UpperChar(s[i]))
  }

  /** A text of lower-case Latin letters, spaces and underscores is its own lower case. */
  lemma ToLowerKeeps(s: string)
    requires forall i :: 0 <= i < |s| ==> 'a' <= s[i] <= 'z' || s[i] == ' ' || s[i] == '_'
    ensures ToLower(s) == s
  {
  }

  /** Go's `strings.HasPrefix`. */
  predicate HasPrefix(s: string, prefix: string)
  {
    |prefix| <= |s| && s[..|prefix|] == prefix
  }

  /** Go's `strings.Contains`: `sub` occurs somewhere in `s`. */
  predicate Contains(s: string, sub: string)
    decreases |s|
  {
    StartsWith(s, sub) || (s != [] && Contains(s[1..], sub))
  }

  /** `sub` begins `s`, checked character by character. */
  predicate StartsWith(s: string, sub: string)
    decreases |sub|
  {
    sub == [] || (s != [] && s[0] == sub[0] && StartsWith(s[1..], sub[1..]))
  }

  /** Go's `strings.ReplaceAll(s, string(from), string(to))` for single characters. */
  function ReplaceChar(s: string, from: char, to: char): (r: string)
    ensures |r| == |s|
    ensures forall i :: 0 <= i < |s| ==> r[i] == if s[i] == from then to else s[i]
  {
    seq(|s|, i requires 0 <= i < |s| => if s[i] == from then to else s[i])
  }

  /** Go's `strings.Join`. */
  function Join(parts: seq<string>, sep: string): string
  {
    if |parts| == 0 then ""
    else if |parts| == 1 then parts[0]
    else parts[0] + sep + Join(parts[1..], sep)
  }

  function DigitChar(d: nat): char
    requires d < 10
  {
    ('0' as int + d) as char
  }

  /** Decimal digits of `n`, without leading zeros. */
  function NatToString(n: nat): (r: string)
    ensures |r| >= 1
    ensures forall i :: 0 <= i < |r| ==> '0' <= r[i] <= '9'
  {
    if n < 10 then [DigitChar(n)] else NatToString(n / 10) + [DigitChar(n % 10)]
  }

  /** Go's `%d` verb. */
  function IntToString(n: int): (r: string)
    ensures |r| >= 1
    ensures forall i :: 0 <= i < |r| ==> r[i] == '-' || '0' <= r[i] <= '9'
  {
    if n < 0 then "-" + NatToString(-n) else NatToString(n)
  }

  /** The number a text of decimal digits denotes. */
  function DigitsValue(s: string): int
  {
    if s == [] then 0 else DigitsValue(s[..|s| - 1]) * 10 + (s[|s| - 1] as int - '0' as int)
  }

  /** Reading the digits back gives the number. */
  lemma {:induction false} NatToStringRoundTrip(n: nat)
    ensures DigitsValue(NatToString(n)) == n
  {
    var r := NatToString(n);
    if n >= 10 {
      NatToStringRoundTrip(n / 10);
      assert r[..|r| - 1] == NatToString(n / 10);
    }
  }

  /** The number a text printed by `IntToString` denotes. */
  function IntValue(s: string): int
  {
    if s != [] && s[0] == '-' then -DigitsValue(s[1..]) else DigitsValue(s)
  }

  /** `%d` loses nothing: reading the text back gives the number. */
  lemma IntToStringRoundTrip(n: int)
    ensures IntValue(IntToString(n)) == n
  {
    var r := IntToString(n);
    if n < 0 {
      assert r[1..] == NatToString(-n);
      NatToStringRoundTrip(-n);
    } else {
      NatToStringRoundTrip(n);
    }
  }

  /**
   * Go's `strconv.IsPrint`: exact up to U+00FF (the ASCII graphic
   * characters and space, and U+00A1 to U+00FF except the soft hyphen).
   * Above that, the space separators, the format characters around general
   * punctuation, the byte order mark, the private use areas, the tag
   * characters and the noncharacters U+FFFE and U+FFFF are not printable;
   * every other character is.
   */
  predicate IsPrint(c: char)
  {
    if c <= '\U{00FF}' then
      (' ' <= c <= '~') || ('\U{00A1}' <= c && c != '\U{00AD}')
    else
      !(
        || c == '\U{1680}'
        || ('\U{2000}' <= c <= '\U{200F}')
        || ('\U{2028}' <= c <= '\U{202F}')
        || ('\U{205F}' <= c <= '\U{206F}')
        || c == '\U{3000}'
        || ('\U{E000}' <= c <= '\U{F8FF}')
        || c == '\U{FEFF}'
        || ('\U{FFF9}' <= c <= '\U{FFFB}')
        || c == '\U{FFFE}' || c == '\U{FFFF}'
        || ('\U{E0000}' <= c <= '\U{E007F}')
        || '\U{F0000}' <= c)
  }

  predicate IsHexDigit(d: char)
  {
    '0' <= d <= '9' || 'a' <= d <= 'f'
  }

  /** The lower-case hexadecimal digit of `d`. */
  function HexDigit(d: nat): (r: char)
    requires d < 16
    ensures IsHexDigit(r)
  {
    if d < 10 then ('0' as int + d) as char else ('a' as int + d - 10) as char
  }

  function HexValue(d: char): (v: nat)
    requires IsHexDigit(d)
    ensures v < 16 && HexDigit(v) == d
  {
    if d <= '9' then d as int - '0' as int else d as int - 'a' as int + 10
  }

  function Pow16(w: nat): (p: nat)
    ensures p >= 1
  {
    if w == 0 then 1 else 16 * Pow16(w - 1)
  }

  /** `n` as exactly `w` lower-case hexadecimal digits, most significant first. */
  function Hex(n: nat, w: nat): (r: string)
    ensures |r| == w && forall i :: 0 <= i < w ==> IsHexDigit(r[i])
  {
    if w == 0 then "" else Hex(n / 16, w - 1) + [HexDigit(n % 16)]
  }

  /** The value of a text of hexadecimal digits; none when it holds anything else. */
  function ParseHex(s: string): Option<nat>
  {
    if s == [] then Some(0)
    else if !IsHexDigit(s[|s| - 1]) then None
    else
      var v := ParseHex(s[..|s| - 1]);
      if v.None? then None else Some(v.value * 16 + HexValue(s[|s| - 1]))
  }

  /** Reading back `w` printed digits gives the number, when it fits. */
  lemma {:induction false} HexRoundTrip(n: nat, w: nat)
    requires n < Pow16(w)
    ensures ParseHex(Hex(n, w)) == Some(n)
  {
    if w > 0 {
      var h := Hex(n, w);
      HexRoundTrip(n / 16, w - 1);
      assert h[..w - 1] == Hex(n / 16, w - 1);
      assert HexValue(h[w - 1]) == n % 16;
    }
  }

  /**
   * One character as Go's `strconv.Quote` writes it: the quote and the
   * backslash escaped, a printable character as itself, the seven C escapes,
   * `\xHH` for the other control characters and DEL, and `\uHHHH` or
   * `\UHHHHHHHH` for any other character that is not printable.
   */
  function EscapeChar(c: char): (r: string)
    ensures r != [] && '\n' !in r
    ensures r == [c] <==> IsPrint(c) && c != '"' && c != '\\'
  {
    if c == '"' || c == '\\' then ['\\', c]
    else if IsPrint(c) then [c]
    else if c == '\U{0007}' then "\\a"
    else if c == '\U{0008}' then "\\b"
    else if c == '\U{000C}' then "\\f"
    else if c == '\n' then "\\n"
    else if c == '\r' then "\\r"
    else if c == '\t' then "\\t"
    else if c == '\U{000B}' then "\\v"
    else if c < ' ' || c == '\U{007F}' then "\\x" + Hex(c as int, 2)
    else if c as int < 0x10000 then "\\u" + Hex(c as int, 4)
    else "\\U" + Hex(c as int, 8)
  }

  function Escape(s: string): (r: string)
    ensures '\n' !in r
  {
    if s == [] then "" else EscapeChar(s[0]) + Escape(s[1..])
  }

  /** Go's `strconv.Quote`, which the `%q` verb prints: double-quoted and backslash-escaped, on one line. */
  function Quote(s: string): (r: string)
    ensures |r| >= 2 && r[0] == '"' && r[|r| - 1] == '"'
    ensures '\n' !in r
  {
    "\"" + Escape(s) + "\""
  }

  /** Every character an escape writes is printable. */
  lemma EscapeCharPrintable(c: char)
    ensures forall i :: 0 <= i < |EscapeChar(c)| ==> IsPrint(EscapeChar(c)[i])
  {
  }

  /** The quoted text is printable throughout, whatever it quotes. */
  lemma {:induction false} EscapePrintable(s: string)
    ensures forall i :: 0 <= i < |Escape(s)| ==> IsPrint(Escape(s)[i])
  {
    if s != [] {
      EscapeCharPrintable(s[0]);
      EscapePrintable(s[1..]);
    }
  }

  lemma QuotePrintable(s: string)
    ensures forall i :: 0 <= i < |Quote(s)| ==> IsPrint(Quote(s)[i])
  {
    EscapePrintable(s);
  }

  /** A text that needs no escape is quoted as itself. */
  lemma {:induction false} EscapePlain(s: string)
    requires forall i :: 0 <= i < |s| ==> IsPrint(s[i]) && s[i] != '"' && s[i] != '\\'
    ensures Escape(s) == s
  {
    if s != [] {
      EscapePlain(s[1..]);
      assert [s[0]] + s[1..] == s;
    }
  }

  // Reading a quoted text back, as Go's `strconv.Unquote` does for the
  // escapes `Quote` writes.

  predicate IsScalar(v: nat)
  {
    v < 0xD800 || 0xE000 <= v < 0x11_0000
  }

  /** The character that `r` begins with, undoing one escape, and how many characters it takes. */
  function DecodeOne(r: string): (d: Option<(char, nat)>)
    requires r != []
    ensures d.Some? ==> 1 <= d.value.1 <= |r|
  {
    if r[0] != '\\' then Some((r[0], 1))
    else if |r| < 2 then None
    else
      var e := r[1];
      if e == '"' || e == '\\' then Some((e, 2))
      else if e == 'a' then Some(('\U{0007}', 2))
      else if e == 'b' then Some(('\U{0008}', 2))
      else if e == 'f' then Some(('\U{000C}', 2))
      else if e == 'n' then Some(('\n', 2))
      else if e == 'r' then Some(('\r', 2))
      else if e == 't' then Some(('\t', 2))
      else if e == 'v' then Some(('\U{000B}', 2))
      else if e == 'x' || e == 'u' || e == 'U' then
        var w := if e == 'x' then 2 else if e == 'u' then 4 else 8;
        if |r| < 2 + w then None
        else
          var v := ParseHex(r[2..2 + w]);
          if v.Some? && IsScalar(v.value) then Some((v.value as char, 2 + w)) else None
      else None
  }

  /** The text an escaped body stands for; none when it is malformed. */
  function Unescape(r: string): Option<string>
    decreases |r|
  {
    if r == [] then Some([])
    else
      var d := DecodeOne(r);
      if d.None? then None
      else
        var rest := Unescape(r[d.value.1..]);
        if rest.None? then None else Some([d.value.0] + rest.value)
  }

  /** The text a double-quoted literal stands for; none when it is not one. */
  function Unquote(q: string): Option<string>
  {
    if |q| >= 2 && q[0] == '"' && q[|q| - 1] == '"' then Unescape(q[1..|q| - 1]) else None
  }

  /** The escape of `c` decodes back to `c`, whatever follows it. */
  lemma DecodeEscapeChar(c: char, rest: string)
    ensures DecodeOne(EscapeChar(c) + rest) == Some((c, |EscapeChar(c)|))
  {
    var e := EscapeChar(c);
    var r := e + rest;
    if c == '"' || c == '\\' || IsPrint(c) {
    } else if c < ' ' || c == '\U{007F}' {
      if c != '\U{0007}' && c != '\U{0008}' && c != '\U{000C}' && c != '\n' && c != '\r' && c != '\t' && c != '\U{000B}' {
        assert r[2..4] == Hex(c as int, 2);
        HexRoundTrip(c as int, 2);
      }
    } else if c as int < 0x10000 {
      assert r[2..6] == Hex(c as int, 4);
      HexRoundTrip(c as int, 4);
    } else {
      assert r[2..10] == Hex(c as int, 8);
      HexRoundTrip(c as int, 8);
    }
  }

  /** Escaping loses nothing: the escaped text reads back as the original. */
  lemma {:induction false} EscapeRoundTrip(s: string)
    ensures Unescape(Escape(s)) == Some(s)
  {
    if s != [] {
      var e := EscapeChar(s[0]);
      var r := Escape(s);
      DecodeEscapeChar(s[0], Escape(s[1..]));
      assert r[|e|..] == Escape(s[1..]);
      EscapeRoundTrip(s[1..]);
      assert [s[0]] + s[1..] == s;
    }
  }

  /** `Quote` and `Unquote` round-trip: `%q` is a faithful rendering of its text. */
  lemma QuoteRoundTrip(s: string)
    ensures Unquote(Quote(s)) == Some(s)
  {
    var q := Quote(s);
    assert q[1..|q| - 1] == Escape(s);
    EscapeRoundTrip(s);
  }
}
