/** Quoted string literals: the lexer's scanner, and the printer it undoes. A char stands for one byte of the source. */
module Quoted {
  import opened Wrappers
  import Radix
  import Arith

  const EOF_CHAR := 0 as char

  // ---------- digits inside an escape ----------

  function DigitOf(c: char): (d: nat)
    ensures d <= 16
  {
    if '0' <= c <= '9' then (c - '0') as nat
    else if 'a' <= c <= 'f' then 10 + (c - 'a') as nat
    else if 'A' <= c <= 'F' then 10 + (c - 'A') as nat
    else 16
  }

  /** How many digits of the base stand at i, counting no further than max. */
  function RunLength(src: string, i: nat, base: nat, max: nat): (n: nat)
    requires base <= 16
    ensures n <= max && (n > 0 ==> i + n <= |src|)
    decreases max
  {
    if max > 0 && i < |src| && DigitOf(src[i]) < base then 1 + RunLength(src, i + 1, base, max - 1) else 0
  }

  /** The run is made of digits, and it ends at max, at the end of the text, or at a character that is none. */
  lemma {:induction false} RunIsMaximal(src: string, i: nat, base: nat, max: nat)
    requires base <= 16
    ensures var n := RunLength(src, i, base, max);
            && (forall k: nat | i <= k < i + n :: DigitOf(src[k]) < base)
            && (n < max && i + n < |src| ==> DigitOf(src[i + n]) >= base)
    decreases max
  {
    if max > 0 && i < |src| && DigitOf(src[i]) < base {
      RunIsMaximal(src, i + 1, base, max - 1);
    }
  }

  /** One more digit of a run. */
  lemma RunGoesOn(src: string, start: nat, base: nat, max: nat, digits: nat)
    requires base <= 16 && digits < max && start + digits < |src| && DigitOf(src[start + digits]) < base
    ensures RunLength(src, start + digits, base, max - digits)
            == 1 + RunLength(src, start + digits + 1, base, max - digits - 1)
    ensures RunValue(src, start, base, digits + 1)
            == RunValue(src, start, base, digits) * base + DigitOf(src[start + digits])
  {
  }

  lemma RunStops(src: string, i: nat, base: nat, max: nat)
    requires base <= 16 && (i >= |src| || max == 0 || DigitOf(src[i]) >= base)
    ensures RunLength(src, i, base, max) == 0
  {
  }

  function RunValue(src: string, i: nat, base: nat, n: nat): nat
    requires i + n <= |src| || n == 0
  {
    if n == 0 then 0 else RunValue(src, i, base, n - 1) * base + DigitOf(src[i + n - 1])
  }

  // ---------- UTF-8 ----------

  predicate Scalar(cp: nat) {
    cp <= 0x10FFFF && !(0xD800 <= cp <= 0xDFFF)
  }

  function EncodeUtf8(cp: nat): (r: Option<string>)
    ensures r.Some? <==> Scalar(cp)
  {
    if !Scalar(cp) then None
    else if cp <= 0x7F then Some([cp as char])
    else if cp <= 0x7FF then Some([(0xC0 + cp / 0x40) as char, (0x80 + cp % 0x40) as char])
    else if cp <= 0xFFFF then
      Some([(0xE0 + cp / 0x1000) as char, (0x80 + cp / 0x40 % 0x40) as char, (0x80 + cp % 0x40) as char])
    else
      Some([(0xF0 + cp / 0x40000) as char, (0x80 + cp / 0x1000 % 0x40) as char,
            (0x80 + cp / 0x40 % 0x40) as char, (0x80 + cp % 0x40) as char])
  }

  function Tail(bytes: string, k: nat): Option<nat> {
    if k < |bytes| && 0x80 <= bytes[k] as nat < 0xC0 then Some(bytes[k] as nat - 0x80) else None
  }

  /** The first code point of a byte string and how many bytes it takes, by section 3 of RFC 3629. */
  function DecodeUtf8(bytes: string): Option<(nat, nat)> {
    if bytes == [] then None
    else
      var lead := bytes[0] as nat;
      if lead < 0x80 then Some((lead, 1))
      else if 0xC0 <= lead < 0xE0 && Tail(bytes, 1).Some? then
        Some(((lead - 0xC0) * 0x40 + Tail(bytes, 1).value, 2))
      else if 0xE0 <= lead < 0xF0 && Tail(bytes, 1).Some? && Tail(bytes, 2).Some? then
        Some(((lead - 0xE0) * 0x1000 + Tail(bytes, 1).value * 0x40 + Tail(bytes, 2).value, 3))
      else if 0xF0 <= lead < 0xF8 && Tail(bytes, 1).Some? && Tail(bytes, 2).Some? && Tail(bytes, 3).Some? then
        Some(((lead - 0xF0) * 0x40000 + Tail(bytes, 1).value * 0x1000 + Tail(bytes, 2).value * 0x40
              + Tail(bytes, 3).value, 4))
      else None
  }

  lemma SixBitDigits(cp: nat)
    ensures cp / 0x40 * 0x40 + cp % 0x40 == cp
    ensures cp / 0x1000 * 0x1000 + cp / 0x40 % 0x40 * 0x40 + cp % 0x40 == cp
    ensures cp / 0x40000 * 0x40000 + cp / 0x1000 % 0x40 * 0x1000 + cp / 0x40 % 0x40 * 0x40 + cp % 0x40 == cp
  {
    assert cp / 0x1000 == cp / 0x40 / 0x40;
    assert cp / 0x40000 == cp / 0x1000 / 0x40;
  }

  /** What is written is the code point's UTF-8 form: it is made of bytes and reads back, whatever follows. */
  lemma Utf8Decodes(cp: nat, rest: string)
    requires Scalar(cp)
    ensures var bytes := EncodeUtf8(cp).value;
            DecodeUtf8(bytes + rest) == Some((cp, |bytes|)) && forall b <- bytes :: b as nat < 0x100
  {
    var bytes := EncodeUtf8(cp).value;
    var text := bytes + rest;
    SixBitDigits(cp);
    assert text[0] == bytes[0];
    if cp > 0xFFFF {
      assert Tail(text, 1) == Some(cp / 0x1000 % 0x40) && Tail(text, 2) == Some(cp / 0x40 % 0x40);
      assert Tail(text, 3) == Some(cp % 0x40);
      assert cp / 0x40000 <= 4;
    } else if cp > 0x7FF {
      assert Tail(text, 1) == Some(cp / 0x40 % 0x40) && Tail(text, 2) == Some(cp % 0x40);
      assert cp / 0x1000 < 0x10;
    } else if cp > 0x7F {
      assert Tail(text, 1) == Some(cp % 0x40);
      assert cp / 0x40 < 0x20;
    }
  }

  // ---------- the scanner ----------

  /** The bytes an escape contributes and where the text goes on. */
  datatype Piece = Read(text: string, next: nat) | Bad(message: string)

  function Encoded(cp: nat, next: nat): Piece {
    match EncodeUtf8(cp)
    case Some(bytes) => Read(bytes, next)
    case None => Bad("Invalid Unicode codepoint")
  }

  function OctalEscape(src: string, i: nat): Piece {
    var n := RunLength(src, i, 8, 3);
    var v := RunValue(src, i, 8, n);
    if v > 255 then Bad("Octal escape sequence out of range (> 255)") else Read([v as char], i + n)
  }

  function HexEscape(src: string, i: nat): Piece {
    var n := RunLength(src, i, 16, 2);
    HexBounds(src, i, n);
    if n > 0 then Read([RunValue(src, i, 16, n) as char], i + n) else Read("\\x", i)
  }

  lemma HexBounds(src: string, i: nat, n: nat)
    requires n == RunLength(src, i, 16, 2)
    ensures RunValue(src, i, 16, n) < 0x100
  {
    RunIsMaximal(src, i, 16, 2);
    assert n == 1 ==> RunValue(src, i, 16, 1) == RunValue(src, i, 16, 0) * 16 + DigitOf(src[i]);
    assert n == 2 ==> RunValue(src, i, 16, 2) == RunValue(src, i, 16, 1) * 16 + DigitOf(src[i + 1]);
    assert n == 2 ==> RunValue(src, i, 16, 1) == RunValue(src, i, 16, 0) * 16 + DigitOf(src[i]);
    assert n > 0 ==> DigitOf(src[i]) < 16;
    assert n > 1 ==> DigitOf(src[i + 1]) < 16;
  }

  function BracedEscape(src: string, i: nat): Piece {
    var n := RunLength(src, i, 16, 6);
    if n > 0 && i + n < |src| && src[i + n] == '}' then Encoded(RunValue(src, i, 16, n), i + n + 1)
    else Read("\\u{", i + n)
  }

  function UnicodeEscape(src: string, i: nat): Piece {
    if i < |src| && src[i] == '{' then BracedEscape(src, i + 1)
    else
      var n := RunLength(src, i, 16, 4);
      if n == 4 then Encoded(RunValue(src, i, 16, 4), i + 4) else Read("\\u", i + n)
  }

  /** What stands for itself after a backslash, and what stands for something else. */
  function Named(c: char): char {
    match c
    case 'n' => '\n'
    case 't' => '\t'
    case 'r' => '\r'
    case 'b' => 8 as char
    case 'f' => 12 as char
    case 'v' => 11 as char
    case _ => c
  }

  /** The escape whose backslash stands just before i. At the end of the file a NUL is taken. */
  function Escape(src: string, i: nat): Piece {
    if i >= |src| then Read([EOF_CHAR], i)
    else if '0' <= src[i] <= '7' then OctalEscape(src, i)
    else if src[i] == 'x' then HexEscape(src, i + 1)
    else if src[i] == 'u' then UnicodeEscape(src, i + 1)
    else Read([Named(src[i])], i + 1)
  }

  lemma EscapeAdvances(src: string, i: nat)
    ensures Escape(src, i).Read? ==> i <= Escape(src, i).next
    ensures Escape(src, i).Read? && i <= |src| ==> Escape(src, i).next <= |src|
  {
  }

  /** The body of a literal from i on, given what has been read: the whole value, and the position after the closing
      quote, or the end of the file when there is none. */
  function Scan(src: string, i: nat, quote: char, val: string): Piece
    decreases |src| - i
  {
    if i >= |src| then Read(val, i)
    else if src[i] == quote then Read(val, i + 1)
    else if src[i] == '\\' then
      EscapeAdvances(src, i + 1);
      match Escape(src, i + 1)
      case Bad(e) => Bad(e)
      case Read(text, next) => Scan(src, next, quote, val + text)
    else Scan(src, i + 1, quote, val + [src[i]])
  }

  // ---------- the printer ----------

  function EscapeChar(c: char): string {
    if c == '\\' then "\\\\" else if c == '\'' then "\\'" else if c == '\n' then "\\n" else [c]
  }

  function Escaped(s: string): string {
    if s == [] then [] else EscapeChar(s[0]) + Escaped(s[1..])
  }

  function Quote(s: string): string {
    "'" + Escaped(s) + "'"
  }

  lemma {:induction false} EscapedOneMore(s: string, c: char)
    ensures Escaped(s + [c]) == Escaped(s) + EscapeChar(c)
  {
    if s == [] {
      assert [c][1..] == [];
      assert Escaped([c]) == EscapeChar(c) + [];
    } else {
      EscapedOneMore(s[1..], c);
      assert (s + [c])[1..] == s[1..] + [c];
    }
  }

  method QuoteAndColor(s: string) returns (text: string)
    ensures text == Quote(s)
  {
    text := "'";
    for k := 0 to |s|
      invariant text == "'" + Escaped(s[..k])
    {
      var c := s[k];
      EscapedOneMore(s[..k], c);
      assert s[..k + 1] == s[..k] + [c];
      if c == '\\' {
        text := text + "\\\\";
      } else if c == '\'' {
        text := text + "\\'";
      } else if c == '\n' {
        text := text + "\\n";
      } else {
        text := text + [c];
      }
    }
    assert s[..|s|] == s;
    text := text + "'";
  }

  // ---------- scanning undoes printing ----------

  predicate Stands(src: string, i: nat, text: string) {
    i + |text| <= |src| && src[i..i + |text|] == text
  }

  lemma StandsSplit(src: string, i: nat, a: string, b: string)
    requires Stands(src, i, a + b)
    ensures Stands(src, i, a) && Stands(src, i + |a|, b)
  {
    var text := src[i..i + |a + b|];
    assert forall k | 0 <= k < |a + b| :: src[i + k] == text[k];
    assert text[..|a|] == a && text[|a|..] == b;
  }

  /** Each printed character scans as itself. */
  lemma ScanEscapedChar(src: string, i: nat, c: char, val: string)
    requires Stands(src, i, EscapeChar(c))
    ensures Scan(src, i, '\'', val) == Scan(src, i + |EscapeChar(c)|, '\'', val + [c])
  {
    hide OctalEscape, HexEscape, UnicodeEscape;
    var text := src[i..i + |EscapeChar(c)|];
    assert src[i] == text[0];
    if |text| == 2 {
      assert src[i + 1] == text[1];
      assert Escape(src, i + 1) == Read([c], i + 2);
    }
  }

  /** The closed text of a string, taken apart at its first character. */
  lemma EscapedSplit(s: string, val: string)
    requires s != []
    ensures Escaped(s) + "'" == EscapeChar(s[0]) + (Escaped(s[1..]) + "'")
    ensures |Escaped(s)| == |EscapeChar(s[0])| + |Escaped(s[1..])|
    ensures val + [s[0]] + s[1..] == val + s
  {
    assert Escaped(s) == EscapeChar(s[0]) + Escaped(s[1..]);
    Regroup(EscapeChar(s[0]), Escaped(s[1..]), "'");
    Regroup(val, [s[0]], s[1..]);
    assert [s[0]] + s[1..] == s;
    hide EscapeChar, Escaped;
  }

  lemma Regroup(a: string, b: string, c: string)
    ensures (a + b) + c == a + (b + c)
  {
  }

  lemma {:induction false} ScanEscaped(src: string, i: nat, s: string, val: string)
    requires Stands(src, i, Escaped(s) + "'")
    ensures Scan(src, i, '\'', val) == Read(val + s, i + |Escaped(s)| + 1)
    decreases |s|
  {
    if s == [] {
      assert Escaped(s) + "'" == "'" && val + s == val;
    } else {
      EscapedSplit(s, val);
      hide Scan, Stands, Escaped, EscapeChar;
      StandsSplit(src, i, EscapeChar(s[0]), Escaped(s[1..]) + "'");
      ScanEscapedChar(src, i, s[0], val);
      ScanEscaped(src, i + |EscapeChar(s[0])|, s[1..], val + [s[0]]);
    }
  }

  /** Whatever follows, the scan of a printed string gives the string back and takes exactly the literal. */
  lemma ScanUndoesQuote(s: string, rest: string)
    ensures (Quote(s) + rest)[0] == '\''
    ensures Scan(Quote(s) + rest, 1, '\'', []) == Read(s, |Quote(s)|)
  {
    var src := Quote(s) + rest;
    assert src[1..1 + |Escaped(s) + "'"|] == Escaped(s) + "'";
    ScanEscaped(src, 1, s, []);
    assert [] + s == s;
  }

  /** A printed string never spans lines. */
  lemma {:induction false} QuoteIsOneLine(s: string)
    ensures '\n' !in Quote(s)
  {
    if s != [] {
      QuoteIsOneLine(s[1..]);
      assert Quote(s) == "'" + EscapeChar(s[0]) + Quote(s[1..])[1..];
    }
  }

  // ---------- what each escape stands for ----------

  const NAMES := "ntrbfv"
  const NAMED_BYTES: seq<nat> := [10, 9, 13, 8, 12, 11]

  /** Six letters name a control character; any other character but x, u and the octal digits stands for itself. */
  lemma NamedEscapes(src: string, i: nat)
    requires i < |src| && src[i] != 'x' && src[i] != 'u' && !('0' <= src[i] <= '7')
    ensures forall k | 0 <= k < 6 :: src[i] == NAMES[k] ==> Escape(src, i) == Read([NAMED_BYTES[k] as char], i + 1)
    ensures src[i] !in NAMES ==> Escape(src, i) == Read([src[i]], i + 1)
  {
    assert src[i] == 'n' ==> src[i] == NAMES[0];
    assert src[i] == 't' ==> src[i] == NAMES[1];
    assert src[i] == 'r' ==> src[i] == NAMES[2];
    assert src[i] == 'b' ==> src[i] == NAMES[3];
    assert src[i] == 'f' ==> src[i] == NAMES[4];
    assert src[i] == 'v' ==> src[i] == NAMES[5];
  }

  /** t stands at i and is all that a loop over at most max digits of the base takes. */
  predicate NumberAt(src: string, i: nat, t: string, base: nat, max: nat)
    requires Radix.IsBase(base)
  {
    && Stands(src, i, t) && |t| <= max && (forall c <- t :: Radix.IsBaseDigit(c, base))
    && (|t| < max && i + |t| < |src| ==> !Radix.IsBaseDigit(src[i + |t|], base))
  }

  lemma DigitsAgree(c: char)
    ensures DigitOf(c) < 16 <==> Radix.IsBaseDigit(c, 16)
    ensures DigitOf(c) < 8 <==> Radix.IsBaseDigit(c, 8)
    ensures DigitOf(c) < 16 ==> DigitOf(c) == Radix.BaseDigit(c, 16)
    ensures DigitOf(c) < 8 ==> DigitOf(c) == Radix.BaseDigit(c, 8)
  {
  }

  lemma {:induction false} RunTakes(src: string, i: nat, t: string, base: nat, max: nat)
    requires (base == 8 || base == 16) && NumberAt(src, i, t, base, max)
    ensures RunLength(src, i, base, max) == |t|
    decreases |t|
  {
    if t != [] {
      assert src[i] == src[i..i + |t|][0] == t[0];
      DigitsAgree(src[i]);
      assert src[i + 1..i + |t|] == src[i..i + |t|][1..] == t[1..];
      RunTakes(src, i + 1, t[1..], base, max - 1);
    } else if i < |src| {
      DigitsAgree(src[i]);
    }
  }

  lemma {:induction false} RunDenotes(src: string, i: nat, t: string, base: nat)
    requires (base == 8 || base == 16) && Stands(src, i, t) && forall c <- t :: Radix.IsBaseDigit(c, base)
    ensures RunValue(src, i, base, |t|) == Radix.Numeral(t, base)
    decreases |t|
  {
    if t != [] {
      var last := |t| - 1;
      assert src[i..i + last] == src[i..i + |t|][..last] == t[..last];
      RunDenotes(src, i, t[..last], base);
      assert src[i + last] == src[i..i + |t|][last] == t[last];
      DigitsAgree(t[last]);
      Products(Radix.Numeral(t[..last], base), base);
    }
  }

  lemma RunReads(src: string, i: nat, t: string, base: nat, max: nat)
    requires (base == 8 || base == 16) && NumberAt(src, i, t, base, max)
    ensures i + |t| <= |src| && |t| <= max && forall c <- t :: Radix.IsBaseDigit(c, base)
    ensures RunLength(src, i, base, max) == |t| && RunValue(src, i, base, |t|) == Radix.Numeral(t, base)
  {
    RunTakes(src, i, t, base, max);
    RunDenotes(src, i, t, base);
  }

  lemma Products(a: nat, b: nat)
    ensures Arith.Mul(a, b) == a * b
  {
  }

  /** Up to three octal digits are one byte, of their value if that is one. */
  lemma OctalDenotes(src: string, i: nat, t: string)
    requires NumberAt(src, i, t, 8, 3) && t != []
    ensures var v := Radix.Numeral(t, 8);
            Escape(src, i) == if v < 0x100 then Read([v as char], i + |t|)
                              else Bad("Octal escape sequence out of range (> 255)")
  {
    hide RunLength, RunValue, DigitOf;
    RunReads(src, i, t, 8, 3);
    assert src[i] == src[i..i + |t|][0] == t[0];
    assert t[0] in t;
  }

  /** One or two hexadecimal digits after an x are one byte of their value; an x alone is kept, with its backslash. */
  lemma HexDenotes(src: string, i: nat, t: string)
    requires i < |src| && src[i] == 'x' && NumberAt(src, i + 1, t, 16, 2)
    ensures Radix.Numeral(t, 16) < 0x100
    ensures Escape(src, i) == if t != [] then Read([Radix.Numeral(t, 16) as char], i + 1 + |t|)
                              else Read("\\x", i + 1)
  {
    hide RunLength, RunValue, DigitOf;
    RunReads(src, i + 1, t, 16, 2);
    HexBounds(src, i + 1, |t|);
  }

  /** What an escape for a code point contributes. */
  predicate IsUtf8Of(piece: Piece, cp: nat, next: nat) {
    match piece
    case Read(text, n) => Scalar(cp) && n == next && DecodeUtf8(text) == Some((cp, |text|))
    case Bad(message) => !Scalar(cp) && message == "Invalid Unicode codepoint"
  }

  lemma EncodedIsUtf8(cp: nat, next: nat)
    ensures IsUtf8Of(Encoded(cp, next), cp, next)
  {
    if Scalar(cp) {
      Utf8Decodes(cp, []);
      assert EncodeUtf8(cp).value + [] == EncodeUtf8(cp).value;
    }
    hide DecodeUtf8;
  }

  /** Four hexadecimal digits after a u are a code point; fewer are dropped, and the u is kept with its backslash. */
  lemma UnicodeDenotes(src: string, i: nat, t: string)
    requires i < |src| && src[i] == 'u' && NumberAt(src, i + 1, t, 16, 4) && (i + 1 < |src| ==> src[i + 1] != '{')
    ensures if |t| == 4 then IsUtf8Of(Escape(src, i), Radix.Numeral(t, 16), i + 5)
            else Escape(src, i) == Read("\\u", i + 1 + |t|)
  {
    hide RunLength, RunValue, DigitOf, Encoded, IsUtf8Of;
    RunReads(src, i + 1, t, 16, 4);
    EncodedIsUtf8(Radix.Numeral(t, 16), i + 5);
  }

  /** One to six of them in braces are a code point as well; anything else in braces is dropped up to where it goes
      wrong. */
  lemma BracedDenotes(src: string, i: nat, t: string)
    requires i + 1 < |src| && src[i] == 'u' && src[i + 1] == '{' && NumberAt(src, i + 2, t, 16, 6)
    ensures var end := i + 2 + |t|;
            if t != [] && end < |src| && src[end] == '}' then IsUtf8Of(Escape(src, i), Radix.Numeral(t, 16), end + 1)
            else Escape(src, i) == Read("\\u{", end)
  {
    hide NumberAt, BracedEscape, IsUtf8Of;
    BracedTail(src, i + 2, t);
  }

  lemma BracedTail(src: string, k: nat, t: string)
    requires NumberAt(src, k, t, 16, 6)
    ensures var end := k + |t|;
            if t != [] && end < |src| && src[end] == '}'
            then IsUtf8Of(BracedEscape(src, k), Radix.Numeral(t, 16), end + 1)
            else BracedEscape(src, k) == Read("\\u{", end)
  {
    hide RunLength, RunValue, DigitOf, Encoded, IsUtf8Of, NumberAt, Radix.Numeral;
    RunReads(src, k, t, 16, 6);
    EncodedIsUtf8(Radix.Numeral(t, 16), k + |t| + 1);
  }

  /** Text without quotes and backslashes is read as it stands, in quotes of either kind, up to the closing one or, when
      there is none, to the end of the file. */
  lemma {:induction false} ScanPlain(src: string, i: nat, quote: char, text: string, val: string)
    requires Stands(src, i, text) && quote !in text && '\\' !in text && quote != '\\'
    requires i + |text| == |src| || src[i + |text|] == quote
    ensures Scan(src, i, quote, val)
         == Read(val + text, if i + |text| == |src| then |src| else i + |text| + 1)
    decreases |text|
  {
    if text == [] {
      assert val + text == val;
    } else {
      assert src[i] == src[i..i + |text|][0] == text[0];
      assert src[i + 1..i + |text|] == src[i..i + |text|][1..] == text[1..];
      ScanPlain(src, i + 1, quote, text[1..], val + [text[0]]);
      assert val + [text[0]] + text[1..] == val + text;
    }
  }

  /** The lexer as far as string literals need it: the source and the cursor. */
  class Lexer {
    const src: string
    var i: nat

    constructor (text: string)
      ensures src == text && i == 0
    {
      src, i := text, 0;
    }

    predicate Eof()
      reads this
    {
      i >= |src|
    }

    function Peek(): (c: char)
      reads this
      ensures c == if Eof() then EOF_CHAR else src[i]
    {
      if i >= |src| then EOF_CHAR else src[i]
    }

    method Advance() returns (c: char)
      modifies this`i
      ensures c == old(Peek()) && i == if old(Eof()) then old(i) else old(i) + 1
    {
      if Eof() {
        return EOF_CHAR;
      }
      c := src[i];
      i := i + 1;
    }

    /** The digit loops of the octal, hexadecimal and Unicode escapes. */
    method ScanDigits(base: nat, max: nat) returns (value: nat, digits: nat)
      requires base == 8 || base == 16
      modifies this`i
      ensures digits == RunLength(src, old(i), base, max) && i == old(i) + digits
      ensures value == RunValue(src, old(i), base, digits)
    {
      value, digits := 0, 0;
      ghost var start := i;
      assert RunValue(src, start, base, 0) == 0;
      hide RunLength, RunValue, DigitOf;
      while !Eof() && digits < max && DigitOf(Peek()) < base
        invariant i == start + digits && digits <= max && (digits == 0 || i <= |src|)
        invariant RunLength(src, start, base, max) == digits + RunLength(src, i, base, max - digits)
        invariant value == RunValue(src, start, base, digits)
        decreases |src| - i
      {
        var digit := DigitOf(Peek());
        RunGoesOn(src, start, base, max, digits);
        value := value * base + digit;
        var _ := Advance();
        digits := digits + 1;
      }
      RunStops(src, i, base, max - digits);
    }

    method ScanEscape() returns (piece: Result<string>)
      modifies this`i
      ensures match Escape(src, old(i))
              case Read(text, next) => piece == Ok(text) && i == next
              case Bad(e) => piece == Err(e)
    {
      hide RunLength, RunValue, EncodeUtf8;
      var nxt := Peek();
      if !Eof() && '0' <= nxt <= '7' {
        var value, digits := ScanDigits(8, 3);
        if value > 255 {
          return Err("Octal escape sequence out of range (> 255)");
        }
        return Ok([value as char]);
      } else if nxt == 'x' {
        var _ := Advance();
        ghost var start := i;
        var value, digits := ScanDigits(16, 2);
        HexBounds(src, start, digits);
        return Ok(if digits > 0 then [value as char] else "\\x");
      } else if nxt == 'u' {
        var _ := Advance();
        if !Eof() && Peek() == '{' {
          var _ := Advance();
          var value, digits := ScanDigits(16, 6);
          if digits > 0 && !Eof() && Peek() == '}' {
            var _ := Advance();
            return EncodedText(value);
          }
          return Ok("\\u{");
        }
        var value, digits := ScanDigits(16, 4);
        if digits == 4 {
          return EncodedText(value);
        }
        return Ok("\\u");
      }
      piece := Ok([Named(nxt)]);
      var _ := Advance();
    }

    function EncodedText(cp: nat): Result<string> {
      match EncodeUtf8(cp)
      case Some(bytes) => Ok(bytes)
      case None => Err("Invalid Unicode codepoint")
    }

    /** scan_quoted_string, with the cursor on the opening quote. */
    method ScanQuotedString(quote: char) returns (token: Result<string>)
      requires !Eof()
      modifies this`i
      ensures match Scan(src, old(i) + 1, quote, [])
              case Read(text, next) => token == Ok(text) && i == next
              case Bad(e) => token == Err(e)
    {
      var _ := Advance();
      ghost var start := i;
      var val: string := [];
      while !Eof()
        invariant Scan(src, start, quote, []) == Scan(src, i, quote, val)
        decreases |src| - i
      {
        var c := Peek();
        if c == quote {
          var _ := Advance();
          return Ok(val);
        }
        if c == '\\' {
          var _ := Advance();
          EscapeAdvances(src, i);
          var piece := ScanEscape();
          if piece.Err? {
            return Err(piece.message);
          }
          val := val + piece.value;
          continue;
        }
        var d := Advance();
        val := val + [d];
      }
      return Ok(val);
    }
  }
}
