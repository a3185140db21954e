/** Every way to spell a string that JSON allows (section 7 of RFC 8259) is read as that string. */
module JsonSpelling {
  import opened Common
  import opened Json

  const LOWER := "0123456789abcdef"
  const UPPER := "0123456789ABCDEF"

  predicate IsHex(c: char, d: nat) {
    d < 16 && (c == LOWER[d] || c == UPPER[d])
  }

  /** Four hexadecimal digits, in either case, with this value. */
  ghost predicate IsHex4(w: string, n: nat) {
    && |w| == 4
    && exists a: nat, b: nat, c: nat, d: nat ::
         IsHex(w[0], a) && IsHex(w[1], b) && IsHex(w[2], c) && IsHex(w[3], d)
         && n == 0x1000 * a + 0x100 * b + 0x10 * c + d
  }

  /** The escapes of two characters: the character, and the letter behind the backslash. */
  predicate IsShort(c: char, letter: char) {
    || (c == '"' && letter == '"') || (c == '\\' && letter == '\\') || (c == '/' && letter == '/')
    || (c as int == 8 && letter == 'b') || (c as int == 12 && letter == 'f') || (c as int == 10 && letter == 'n')
    || (c as int == 13 && letter == 'r') || (c as int == 9 && letter == 't')
  }

  /** The character as it is, a short escape, a code unit, or the two halves of a surrogate pair. */
  datatype Way = Plain | Short(letter: char) | Unit(digits: string) | Pair(high: string, low: string)

  function Spelt(c: char, way: Way): string {
    match way
    case Plain => [c]
    case Short(letter) => ['\\', letter]
    case Unit(digits) => "\\u" + digits
    case Pair(high, low) => "\\u" + high + "\\u" + low
  }

  ghost predicate Spells(c: char, way: Way) {
    match way
    case Plain => ' ' <= c && c != '"' && c != '\\'
    case Short(letter) => IsShort(c, letter)
    case Unit(digits) => IsHex4(digits, c as int)
    case Pair(high, low) =>
      exists h: nat, l: nat :: IsHex4(high, h) && IsHex4(low, l) && 0xD800 <= h < 0xDC00 && 0xDC00 <= l < 0xE000
        && c as int == 0x10000 + 0x400 * (h - 0xD800) + (l - 0xDC00)
  }

  lemma HexReads(c: char, d: nat)
    requires IsHex(c, d)
    ensures d < 16 && HexValue(c) == Some(d)
  {
  }

  lemma Hex4Of(s: string, a: nat, b: nat, c: nat, d: nat)
    requires |s| >= 4 && a < 16 && b < 16 && c < 16 && d < 16
    requires HexValue(s[0]) == Some(a) && HexValue(s[1]) == Some(b)
    requires HexValue(s[2]) == Some(c) && HexValue(s[3]) == Some(d)
    ensures Hex4(s) == Some(0x1000 * a + 0x100 * b + 0x10 * c + d)
  {
  }

  lemma DigitsOf(w: string, n: nat) returns (a: nat, b: nat, c: nat, d: nat)
    requires IsHex4(w, n)
    ensures |w| == 4 && a < 16 && b < 16 && c < 16 && d < 16
    ensures HexValue(w[0]) == Some(a) && HexValue(w[1]) == Some(b)
    ensures HexValue(w[2]) == Some(c) && HexValue(w[3]) == Some(d)
    ensures n == 0x1000 * a + 0x100 * b + 0x10 * c + d
  {
    a, b, c, d :|
      IsHex(w[0], a) && IsHex(w[1], b) && IsHex(w[2], c) && IsHex(w[3], d)
      && n == 0x1000 * a + 0x100 * b + 0x10 * c + d;
    HexReads(w[0], a);
    HexReads(w[1], b);
    HexReads(w[2], c);
    HexReads(w[3], d);
  }

  lemma FirstFour(w: string, rest: string)
    requires |w| == 4
    ensures |w + rest| >= 4 && (w + rest)[4..] == rest
    ensures (w + rest)[0] == w[0] && (w + rest)[1] == w[1] && (w + rest)[2] == w[2] && (w + rest)[3] == w[3]
  {
  }

  lemma Hex4Reads(w: string, rest: string, n: nat)
    requires IsHex4(w, n)
    ensures Hex4(w + rest) == Some(n) && (w + rest)[4..] == rest
  {
    var a, b, c, d := DigitsOf(w, n);
    FirstFour(w, rest);
    Hex4Of(w + rest, a, b, c, d);
  }

  lemma UnitReads(digits: string, c: char, rest: string)
    requires IsHex4(digits, c as int)
    ensures ParseUnicode(digits + rest) == Parsed(c, rest)
  {
    Hex4Reads(digits, rest, c as int);
  }

  lemma PairText(high: string, low: string, rest: string)
    requires |high| == 4 && |low| == 4
    ensures
      var s := high + ("\\u" + (low + rest));
      |s| >= 10 && s[4] == '\\' && s[5] == 'u' && s[6..] == low + rest && s[10..] == rest
  {
  }

  lemma PairReads(high: string, low: string, h: nat, l: nat, c: char, rest: string)
    requires IsHex4(high, h) && IsHex4(low, l) && 0xD800 <= h < 0xDC00 && 0xDC00 <= l < 0xE000
    requires c as int == 0x10000 + 0x400 * (h - 0xD800) + (l - 0xDC00)
    ensures ParseUnicode(high + ("\\u" + (low + rest))) == Parsed(c, rest)
  {
    Hex4Reads(high, "\\u" + (low + rest), h);
    Hex4Reads(low, rest, l);
    PairText(high, low, rest);
  }

  lemma EscapeReads(letter: char, more: string, c: char, rest: string)
    requires ParseEscape([letter] + more) == Parsed(c, rest)
    ensures ParseString("\\" + ([letter] + more)) == Prepend(c, ParseString(rest))
  {
    var s := "\\" + ([letter] + more);
    assert s[1..] == [letter] + more && s[0] == '\\';
  }

  lemma ShortReads(c: char, letter: char, rest: string)
    requires IsShort(c, letter)
    ensures ParseEscape([letter] + rest) == Parsed(c, rest)
  {
    assert ([letter] + rest)[1..] == rest;
  }

  lemma UnicodeReads(more: string, c: char, rest: string)
    requires ParseUnicode(more) == Parsed(c, rest)
    ensures ParseEscape("u" + more) == Parsed(c, rest)
  {
    assert ("u" + more)[1..] == more;
  }

  lemma PlainReads(c: char, rest: string)
    requires ' ' <= c && c != '"' && c != '\\'
    ensures ParseString([c] + rest) == Prepend(c, ParseString(rest))
  {
    assert ([c] + rest)[1..] == rest;
  }

  lemma UnitSpelt(digits: string, c: char, rest: string)
    requires IsHex4(digits, c as int)
    ensures ParseString("\\u" + digits + rest) == Prepend(c, ParseString(rest))
  {
    UnitReads(digits, c, rest);
    UnicodeReads(digits + rest, c, rest);
    EscapeReads('u', digits + rest, c, rest);
    assert "\\u" + digits + rest == "\\" + (['u'] + (digits + rest));
  }

  lemma PairSpeltText(high: string, low: string, rest: string)
    ensures "\\u" + high + "\\u" + low + rest == "\\" + (['u'] + (high + ("\\u" + (low + rest))))
  {
  }

  lemma PairSpelt(high: string, low: string, h: nat, l: nat, c: char, rest: string)
    requires IsHex4(high, h) && IsHex4(low, l) && 0xD800 <= h < 0xDC00 && 0xDC00 <= l < 0xE000
    requires c as int == 0x10000 + 0x400 * (h - 0xD800) + (l - 0xDC00)
    ensures ParseString("\\u" + high + "\\u" + low + rest) == Prepend(c, ParseString(rest))
  {
    var more := high + ("\\u" + (low + rest));
    PairReads(high, low, h, l, c, rest);
    UnicodeReads(more, c, rest);
    EscapeReads('u', more, c, rest);
    PairSpeltText(high, low, rest);
  }

  lemma ShortSpelt(c: char, letter: char, rest: string)
    requires IsShort(c, letter)
    ensures ParseString(['\\', letter] + rest) == Prepend(c, ParseString(rest))
  {
    ShortReads(c, letter, rest);
    EscapeReads(letter, rest, c, rest);
    assert ['\\', letter] + rest == "\\" + ([letter] + rest);
  }

  lemma OneReads(c: char, way: Way, rest: string)
    requires Spells(c, way)
    ensures ParseString(Spelt(c, way) + rest) == Prepend(c, ParseString(rest))
  {
    match way
    case Plain => PlainReads(c, rest);
    case Short(letter) => ShortSpelt(c, letter, rest);
    case Unit(digits) => UnitSpelt(digits, c, rest);
    case Pair(high, low) =>
      var h: nat, l: nat :| IsHex4(high, h) && IsHex4(low, l) && 0xD800 <= h < 0xDC00 && 0xDC00 <= l < 0xE000
        && c as int == 0x10000 + 0x400 * (h - 0xD800) + (l - 0xDC00);
      PairSpelt(high, low, h, l, c, rest);
  }

  /** A text, each character spelt in its own way. */
  function SpeltOut(text: string, ways: seq<Way>): string
    requires |text| == |ways|
  {
    if text == "" then "" else Spelt(text[0], ways[0]) + SpeltOut(text[1..], ways[1..])
  }

  lemma MoreReads(c: char, way: Way, text: string, spelt: string, rest: string)
    requires Spells(c, way) && ParseString(spelt + ("\"" + rest)) == Parsed(text, rest)
    ensures ParseString(Spelt(c, way) + spelt + ("\"" + rest)) == Parsed([c] + text, rest)
  {
    OneReads(c, way, spelt + ("\"" + rest));
    Associate(Spelt(c, way), spelt, "\"" + rest);
  }

  /** However its characters are spelt, a string is read up to its closing quote. */
  lemma {:induction false} AnySpellingReads(text: string, ways: seq<Way>, rest: string)
    requires |text| == |ways| && forall i :: 0 <= i < |text| ==> Spells(text[i], ways[i])
    ensures ParseString(SpeltOut(text, ways) + ("\"" + rest)) == Parsed(text, rest)
  {
    if text == "" {
      assert "" + ("\"" + rest) == "\"" + rest && ("\"" + rest)[1..] == rest;
    } else {
      AnySpellingReads(text[1..], ways[1..], rest);
      MoreReads(text[0], ways[0], text[1..], SpeltOut(text[1..], ways[1..]), rest);
      assert [text[0]] + text[1..] == text;
    }
  }

  /** How the writer spells the characters that it escapes. */
  lemma WrittenEscapes()
    ensures Quote("\"\\/") == "\"\\\"\\\\/\""
    ensures EscapeChar('\n') == "\\n" && EscapeChar('\r') == "\\r" && EscapeChar('\t') == "\\t"
    ensures EscapeChar(8 as char) == "\\b" && EscapeChar(12 as char) == "\\f"
    ensures EscapeChar(0 as char) == "\\u0000" && EscapeChar(0x1F as char) == "\\u001f"
  {
    assert "\"\\/"[1..] == "\\/" && "\\/"[1..] == "/" && "/"[1..] == "";
    assert Escape("") == "" && Escape("/") == "/" && Escape("\\/") == "\\\\/";
  }
}
