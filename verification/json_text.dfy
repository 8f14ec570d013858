/**
 * JSON string literals, as defined by section 7 of RFC 8259: an escaper
 * for the text placed inside a literal and a reader that takes a literal
 * apart again. The error frame's payload is a one-member JSON object, and
 * the reader is what a client applies to it.
 */
module JsonText {

  import opened Wrappers

  /** A character that stands for itself inside a literal. */
  predicate IsPlain(c: char)
  {
    c != '"' && c != '\\' && c >= ' '
  }

  predicate AllPlain(s: string)
  {
    forall k :: 0 <= k < |s| ==> IsPlain(s[k])
  }

  lemma PlainConcat(a: string, b: string)
    requires AllPlain(a) && AllPlain(b)
    ensures AllPlain(a + b)
  {
  }

  function HexDigit(n: nat): (c: char)
    requires n < 16
  {
    if n < 10 then ('0' as int + n) as char else ('a' as int + n - 10) as char
  }

  /** The value of a hexadecimal digit, either case. */
  function HexValue(c: char): (v: Option<nat>)
    ensures v.Some? ==> v.value < 16
  {
    if '0' <= c <= '9' then Some(c as int - '0' as int)
    else if 'a' <= c <= 'f' then Some(c as int - 'a' as int + 10)
    else if 'A' <= c <= 'F' then Some(c as int - 'A' as int + 10)
    else None
  }

  lemma HexRoundTrip(n: nat)
    requires n < 16
    ensures HexValue(HexDigit(n)) == Some(n)
  {
  }

  /** The text that stands for `c` inside a literal. */
  function QuoteChar(c: char): (q: string)
  {
    if c == '"' then "\\\""
    else if c == '\\' then "\\\\"
    else if c == '\n' then "\\n"
    else if c == '\r' then "\\r"
    else if c == '\t' then "\\t"
    else if c < ' ' then "\\u00" + [HexDigit(c as int / 16), HexDigit(c as int % 16)]
    else [c]
  }

  /** The text that stands for `s` inside a literal. */
  function Quote(s: string): string
  {
    if |s| == 0 then "" else QuoteChar(s[0]) + Quote(s[1..])
  }

  /** The character a `\u` escape with code `n` reads as; a lone surrogate reads as U+FFFD. */
  function CodeUnit(n: nat): char
    requires n < 0x1_0000
  {
    if 0xD800 <= n < 0xE000 then '\U{FFFD}' else n as char
  }

  /**
   * The escape after a backslash: the character it stands for and how
   * many characters of `t` it takes up.
   */
  function Unescape(t: string): Option<(char, nat)>
  {
    if |t| == 0 then None
    else if t[0] == '"' || t[0] == '\\' || t[0] == '/' then Some((t[0], 1))
    else if t[0] == 'b' then Some(('\U{8}', 1))
    else if t[0] == 'f' then Some(('\U{C}', 1))
    else if t[0] == 'n' then Some(('\n', 1))
    else if t[0] == 'r' then Some(('\r', 1))
    else if t[0] == 't' then Some(('\t', 1))
    else if t[0] == 'u' && |t| >= 5 &&
            HexValue(t[1]).Some? && HexValue(t[2]).Some? && HexValue(t[3]).Some? && HexValue(t[4]).Some? then
      Some((CodeUnit(((HexValue(t[1]).value * 16 + HexValue(t[2]).value) * 16
                      + HexValue(t[3]).value) * 16 + HexValue(t[4]).value), 5))
    else None
  }

  /**
   * Reads the body of a literal whose opening quote has been consumed:
   * its value and the text after the closing quote, or `None` when the
   * text ends first or holds an unescaped control character or a bad escape.
   */
  function ScanString(s: string): Option<(string, string)>
    decreases |s|
  {
    if |s| == 0 then None
    else if s[0] == '"' then Some(("", s[1..]))
    else if s[0] < ' ' then None
    else if s[0] != '\\' then
      match ScanString(s[1..])
      case None => None
      case Some((v, rest)) => Some(([s[0]] + v, rest))
    else
      match Unescape(s[1..])
      case None => None
      case Some((c, n)) =>
        match ScanString(s[1 + n..])
        case None => None
        case Some((v, rest)) => Some(([c] + v, rest))
  }

  lemma ScanQuoteChar(c: char, tail: string)
    ensures ScanString(QuoteChar(c) + tail)
            == match ScanString(tail)
               case None => None
               case Some((v, rest)) => Some(([c] + v, rest))
  {
    var s := QuoteChar(c) + tail;
    if c == '"' || c == '\\' || c == '\n' || c == '\r' || c == '\t' {
      assert s[0] == '\\' && s[2..] == tail;
      assert Unescape(s[1..]) == Some((c, 1));
    } else if c < ' ' {
      var hi, lo := c as int / 16, c as int % 16;
      assert s[0] == '\\' && s[1..6] == "u00" + [HexDigit(hi), HexDigit(lo)] && s[6..] == tail;
      HexRoundTrip(hi);
      HexRoundTrip(lo);
      assert Unescape(s[1..]) == Some((c, 5));
    } else {
      assert s[0] == c && s[1..] == tail;
    }
  }

  /** Reading an escaped text back gives the text, and reading stops at the closing quote. */
  lemma {:induction false} QuoteRoundTrip(s: string, tail: string)
    ensures ScanString(Quote(s) + "\"" + tail) == Some((s, tail))
  {
    if |s| == 0 {
      assert Quote(s) + "\"" + tail == "\"" + tail;
    } else {
      QuoteRoundTrip(s[1..], tail);
      assert Quote(s) + "\"" + tail == QuoteChar(s[0]) + (Quote(s[1..]) + "\"" + tail);
      ScanQuoteChar(s[0], Quote(s[1..]) + "\"" + tail);
      assert [s[0]] + s[1..] == s;
    }
  }

  /**
   * Escaping never shortens a text, and it lengthens every text holding a
   * character that does not stand for itself.
   */
  lemma {:induction false} QuoteLength(s: string)
    ensures |Quote(s)| >= |s|
    ensures !AllPlain(s) ==> |Quote(s)| > |s|
  {
    if |s| > 0 {
      QuoteLength(s[1..]);
      if !AllPlain(s) && IsPlain(s[0]) {
        assert !AllPlain(s[1..]) by {
          var k :| 0 <= k < |s| && !IsPlain(s[k]);
          assert s[1..][k - 1] == s[k];
        }
      }
    }
  }

  /** Escaping changes a text exactly when it holds a character that does not stand for itself. */
  lemma {:induction false} QuoteIsIdentityIff(s: string)
    ensures Quote(s) == s <==> AllPlain(s)
  {
    QuoteLength(s);
    if AllPlain(s) && |s| > 0 {
      QuoteIsIdentityIff(s[1..]);
      assert [s[0]] + s[1..] == s;
    }
  }

  /** A text without raw control characters, in particular without line breaks. */
  predicate NoControl(s: string)
  {
    forall k :: 0 <= k < |s| ==> s[k] >= ' '
  }

  lemma NoControlConcat(a: string, b: string)
    requires NoControl(a) && NoControl(b)
    ensures NoControl(a + b)
  {
  }

  /** An escaped text holds no raw control character. */
  lemma {:induction false} QuoteHasNoControl(s: string)
    ensures NoControl(Quote(s))
  {
    if |s| > 0 {
      QuoteHasNoControl(s[1..]);
      var q := QuoteChar(s[0]);
      assert NoControl(q);
      NoControlConcat(q, Quote(s[1..]));
    }
  }

  /**
   * Reading a literal never yields more characters than it consumes, and
   * consumes exactly one character per character read only when the body
   * is plain text followed directly by the closing quote.
   */
  lemma {:induction false} ScanLength(s: string)
    ensures ScanString(s).Some? ==>
              var (v, rest) := ScanString(s).value;
              |v| + 1 + |rest| <= |s| &&
              (|v| + 1 + |rest| == |s| ==> AllPlain(v) && s == v + "\"" + rest)
    decreases |s|
  {
    if |s| > 0 && s[0] != '"' && s[0] >= ' ' {
      if s[0] != '\\' {
        ScanLength(s[1..]);
        if ScanString(s[1..]).Some? {
          var (v, rest) := ScanString(s[1..]).value;
          assert [s[0]] + (v + "\"" + rest) == ([s[0]] + v) + "\"" + rest;
          assert [s[0]] + s[1..] == s;
        }
      } else if Unescape(s[1..]).Some? {
        var (c, n) := Unescape(s[1..]).value;
        assert n >= 1;
        ScanLength(s[1 + n..]);
      }
    }
  }

  /** A literal's reading ends at the first quote when only plain characters come before it. */
  lemma {:induction false} ScanStopsAtQuote(plain: string, tail: string)
    requires AllPlain(plain)
    ensures ScanString(plain + "\"" + tail) == Some((plain, tail))
  {
    if |plain| == 0 {
      assert plain + "\"" + tail == "\"" + tail;
    } else {
      ScanStopsAtQuote(plain[1..], tail);
      assert (plain + "\"" + tail)[1..] == plain[1..] + "\"" + tail;
      assert [plain[0]] + plain[1..] == plain;
    }
  }

  /** The text that opens an error frame's payload, up to the opening quote of the message. */
  const ErrorObjectOpening: string := "{\"error\": \""

  /**
   * A client's reading of an error frame's payload: the message when the
   * payload is a one-member object `{"error": "<message>"}`, else `None`.
   */
  function ReadErrorObject(payload: string): Option<string>
  {
    if ErrorObjectOpening <= payload then
      match ScanString(payload[|ErrorObjectOpening|..])
      case Some((message, rest)) => if rest == "}" then Some(message) else None
      case None => None
    else None
  }

  /** The error object for `message`: its escaped text inside `{"error": "…"}`. */
  function ErrorObject(message: string): string
  {
    ErrorObjectOpening + Quote(message) + "\"}"
  }

  lemma Behind(opening: string, rest: string)
    ensures opening <= opening + rest && (opening + rest)[|opening|..] == rest
  {
  }

  /**
   * Every error object reads back as exactly its message, and holds no
   * raw control character, so no line break.
   */
  lemma ErrorObjectRoundTrip(message: string)
    ensures ReadErrorObject(ErrorObject(message)) == Some(message)
    ensures NoControl(ErrorObject(message))
  {
    var opening, quoted := ErrorObjectOpening, Quote(message);
    assert "\"}" == "\"" + "}";
    assert ErrorObject(message) == opening + (quoted + "\"" + "}");
    Behind(opening, quoted + "\"" + "}");
    QuoteRoundTrip(message, "}");
    QuoteHasNoControl(message);
    assert NoControl(opening) && NoControl("\"}");
    NoControlConcat(opening, quoted);
    NoControlConcat(opening + quoted, "\"}");
  }
}
