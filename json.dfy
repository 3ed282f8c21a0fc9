/**
 * The JSON text `JSON.stringify` writes for a string and for an array of
 * strings, and a reader that takes such text back to the values.
 */
module JsonText {
  import opened Leads
  import opened Strings

  /** A lower-case hexadecimal digit. */
  function HexDigit(n: nat): (c: char)
    requires n < 16
    ensures '0' <= c <= '9' || 'a' <= c <= 'f'
  {
    if n < 10 then ('0' as int + n) as char else ('a' as int + n - 10) as char
  }

  /** The value of a hexadecimal digit of either case, or -1. */
  function HexValue(c: char): (n: int)
    ensures -1 <= n < 16
    ensures n == -1 <==> !('0' <= c <= '9' || 'a' <= c <= 'f' || 'A' <= c <= 'F')
  {
    if '0' <= c <= '9' then c as int - '0' as int
    else if 'a' <= c <= 'f' then c as int - 'a' as int + 10
    else if 'A' <= c <= 'F' then c as int - 'A' as int + 10
    else -1
  }

  lemma HexDigitValue(n: nat)
    requires n < 16
    ensures HexValue(HexDigit(n)) == n
  {
  }

  /** Four hexadecimal digits as a code unit. */
  function Hex4(t: string): (r: Option<int>)
    requires |t| == 4
    ensures r.Some? ==> 0 <= r.value < 0x1_0000
  {
    var a, b, c, d := HexValue(t[0]), HexValue(t[1]), HexValue(t[2]), HexValue(t[3]);
    if a < 0 || b < 0 || c < 0 || d < 0 then None
    else Some(((a * 16 + b) * 16 + c) * 16 + d)
  }

  /** How `JSON.stringify` writes one character inside a string literal. */
  function EscapeChar(c: char): (e: string)
    ensures e != [] && (e[0] == '\\' || e == [c])
  {
    if c == '"' then "\\\""
    else if c == '\\' then "\\\\"
    else if c as int == 8 then "\\b"
    else if c as int == 12 then "\\f"
    else if c == '\n' then "\\n"
    else if c == '\r' then "\\r"
    else if c == '\t' then "\\t"
    else if c as int < 0x20 then "\\u00" + [HexDigit(c as int / 16), HexDigit(c as int % 16)]
    else [c]
  }

  function Escape(s: string): string
    decreases |s|
  {
    if s == [] then "" else EscapeChar(s[0]) + Escape(s[1..])
  }

  /** `JSON.stringify` of a string. */
  function Quote(s: string): string
  {
    "\"" + Escape(s) + "\""
  }

  function QuoteAll(xs: seq<string>): (qs: seq<string>)
    ensures |qs| == |xs|
    ensures forall i :: 0 <= i < |xs| ==> qs[i] == Quote(xs[i])
    decreases |xs|
  {
    if xs == [] then [] else [Quote(xs[0])] + QuoteAll(xs[1..])
  }

  /** `JSON.stringify` of an array of strings. */
  function StringArray(xs: seq<string>): string
  {
    "[" + Join(QuoteAll(xs), ",") + "]"
  }

  /** The character a two-character escape `\c` stands for. */
  function SimpleEscape(c: char): Option<char>
  {
    if c == '"' then Some('"')
    else if c == '\\' then Some('\\')
    else if c == '/' then Some('/')
    else if c == 'b' then Some(8 as char)
    else if c == 'f' then Some(12 as char)
    else if c == 'n' then Some('\n')
    else if c == 'r' then Some('\r')
    else if c == 't' then Some('\t')
    else None
  }

  function Prepend(c: char, r: Option<(string, string)>): Option<(string, string)>
  {
    match r
    case None => None
    case Some((s, rest)) => Some(([c] + s, rest))
  }

  /**
   * Reads the inside of a string literal up to its closing quote: the text it
   * stands for and what follows the quote. A raw control character, an
   * unknown escape or a missing quote is an error; so is a `\u` escape of a
   * lone surrogate, which is not a character here.
   */
  function ParseStringBody(t: string): (r: Option<(string, string)>)
    ensures r.Some? ==> |r.value.1| < |t|
    decreases |t|
  {
    if t == [] then None
    else if t[0] == '"' then Some(("", t[1..]))
    else if t[0] == '\\' then
      if |t| < 2 then None
      else if t[1] == 'u' then
        if |t| < 6 then None
        else
          match Hex4(t[2..6])
          case None => None
          case Some(code) =>
            if 0xD800 <= code < 0xE000 then None
            else Prepend(code as char, ParseStringBody(t[6..]))
      else
        match SimpleEscape(t[1])
        case None => None
        case Some(c) => Prepend(c, ParseStringBody(t[2..]))
    else if t[0] as int < 0x20 then None
    else Prepend(t[0], ParseStringBody(t[1..]))
  }

  /** One written character is read back as itself, whatever follows it. */
  lemma EscapeCharParses(c: char, tail: string)
    ensures ParseStringBody(EscapeChar(c) + tail) == Prepend(c, ParseStringBody(tail))
  {
    var t := EscapeChar(c) + tail;
    if c == '"' || c == '\\' || c as int == 8 || c as int == 12 || c == '\n' || c == '\r' || c == '\t' {
      assert t[2..] == tail;
    } else if c as int < 0x20 {
      UnicodeEscapeParses(c, tail);
    } else {
      assert t[1..] == tail;
    }
  }

  /** A control character without a short escape is written `\u00XX` and read back from those digits. */
  lemma UnicodeEscapeParses(c: char, tail: string)
    requires c as int < 0x20
    ensures ParseStringBody("\\u00" + [HexDigit(c as int / 16), HexDigit(c as int % 16)] + tail)
            == Prepend(c, ParseStringBody(tail))
  {
    var hi, lo := c as int / 16, c as int % 16;
    var t := "\\u00" + [HexDigit(hi), HexDigit(lo)] + tail;
    assert t[2..6] == ['0', '0', HexDigit(hi), HexDigit(lo)];
    HexDigitValue(hi);
    HexDigitValue(lo);
    assert Hex4(t[2..6]) == Some(c as int);
    assert t[6..] == tail;
  }

  /** The reader undoes the writer: the escaped text followed by the closing quote reads back as the string. */
  lemma {:induction false} ParseEscaped(s: string, rest: string)
    ensures ParseStringBody(Escape(s) + "\"" + rest) == Some((s, rest))
    decreases |s|
  {
    if s == [] {
      assert Escape(s) + "\"" + rest == "\"" + rest;
    } else {
      var tail := Escape(s[1..]) + "\"" + rest;
      assert Escape(s) + "\"" + rest == EscapeChar(s[0]) + tail;
      ParseEscaped(s[1..], rest);
      EscapeCharParses(s[0], tail);
      assert [s[0]] + s[1..] == s;
    }
  }

  /** `Quote` then reading one string literal gives the string back. */
  lemma QuoteRoundTrip(s: string, rest: string)
    ensures Quote(s) + rest != [] && (Quote(s) + rest)[0] == '"'
    ensures ParseStringBody((Quote(s) + rest)[1..]) == Some((s, rest))
  {
    assert (Quote(s) + rest)[1..] == Escape(s) + "\"" + rest;
    ParseEscaped(s, rest);
  }

  /** Reads `"…", "…", …]` (one or more literals, then the closing bracket): the strings and what follows. */
  function ParseItems(t: string): (r: Option<(seq<string>, string)>)
    ensures r.Some? ==> |r.value.1| < |t|
    decreases |t|
  {
    if t == [] || t[0] != '"' then None
    else
      match ParseStringBody(t[1..])
      case None => None
      case Some((x, rest)) =>
        if rest == [] then None
        else if rest[0] == ']' then Some(([x], rest[1..]))
        else if rest[0] == ',' then
          match ParseItems(rest[1..])
          case None => None
          case Some((xs, after)) => Some(([x] + xs, after))
        else None
  }

  /** `JSON.parse` restricted to an array of strings without white space. */
  function ParseStringArray(t: string): Option<seq<string>>
  {
    if t == "[]" then Some([])
    else if t == [] || t[0] != '[' then None
    else
      match ParseItems(t[1..])
      case Some((xs, after)) => if after == [] then Some(xs) else None
      case None => None
  }

  lemma {:induction false} ParseQuotedItems(xs: seq<string>, rest: string)
    requires xs != []
    ensures ParseItems(Join(QuoteAll(xs), ",") + "]" + rest) == Some((xs, rest))
    decreases |xs|
  {
    if |xs| == 1 {
      assert Join(QuoteAll(xs), ",") == Quote(xs[0]);
      ParseLastItem(xs[0], rest);
      assert [xs[0]] == xs;
    } else {
      var j := Join(QuoteAll(xs[1..]), ",");
      var more := j + "]" + rest;
      JoinQuotedCons(xs);
      assert Quote(xs[0]) + "," + j + "]" + rest == Quote(xs[0]) + "," + more;
      ParseQuotedItems(xs[1..], rest);
      ParseNextItem(xs[0], more);
      assert [xs[0]] + xs[1..] == xs;
    }
  }

  /** The literals of two or more strings: the first, a comma, then the literals of the others. */
  lemma JoinQuotedCons(xs: seq<string>)
    requires |xs| > 1
    ensures Join(QuoteAll(xs), ",") == Quote(xs[0]) + "," + Join(QuoteAll(xs[1..]), ",")
  {
    var qs := QuoteAll(xs);
    assert qs[1..] == QuoteAll(xs[1..]);
    assert Join(qs, ",") == qs[0] + "," + Join(qs[1..], ",");
  }

  /** The last literal, then the closing bracket. */
  lemma ParseLastItem(x: string, rest: string)
    ensures ParseItems(Quote(x) + "]" + rest) == Some(([x], rest))
  {
    var r := "]" + rest;
    var t := Quote(x) + r;
    QuoteRoundTrip(x, r);
    assert r[0] == ']' && r[1..] == rest;
    assert ParseItems(t) == Some(([x], rest));
    assert Quote(x) + "]" + rest == t;
  }

  /** A literal followed by a comma: its string comes first, then whatever the rest reads as. */
  lemma ParseNextItem(x: string, more: string)
    ensures ParseItems(Quote(x) + "," + more)
            == match ParseItems(more)
               case None => None
               case Some((ys, after)) => Some(([x] + ys, after))
  {
    var r := "," + more;
    var t := Quote(x) + r;
    QuoteRoundTrip(x, r);
    assert r[0] == ',' && r[1..] == more;
    assert Quote(x) + "," + more == t;
  }

  /** The reader undoes `JSON.stringify` on every array of strings. */
  lemma StringArrayRoundTrip(xs: seq<string>)
    ensures ParseStringArray(StringArray(xs)) == Some(xs)
  {
    var t := StringArray(xs);
    if xs == [] {
      assert t == "[]";
    } else {
      ParseQuotedItems(xs, "");
      assert t[1..] == Join(QuoteAll(xs), ",") + "]" + "";
      assert t != "[]" by {
        JoinStartsWithFirst(QuoteAll(xs), ",");
        assert t[1] == '"';
      }
    }
  }

  /** Text without quotes, backslashes or control characters is written as is. */
  lemma {:induction false} EscapePlain(s: string)
    requires forall i :: 0 <= i < |s| ==> s[i] != '"' && s[i] != '\\' && s[i] as int >= 0x20
    ensures Escape(s) == s
    decreases |s|
  {
    if s != [] {
      assert forall i :: 0 <= i < |s| - 1 ==> s[1..][i] == s[i + 1];
      EscapePlain(s[1..]);
      assert EscapeChar(s[0]) == [s[0]];
      assert [s[0]] + s[1..] == s;
    }
  }
}
