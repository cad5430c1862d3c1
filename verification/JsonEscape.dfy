/** The JSON escaper of spdlog.cpp, and strings as section 7 of RFC 8259 reads them.
    Bytes are characters; the laws hold for every text of characters. */
module JsonEscape {
  import opened Endian

  datatype Option<T> = None | Some(value: T)

  const BACKSPACE := '\U{8}'
  const FORMFEED := '\U{C}'

  /** memory_buf_t */
  class MemoryBuffer {
    var data: string

    constructor ()
      ensures data == ""
    {
      data := "";
    }

    method PushBack(c: char)
      modifies this
      ensures data == old(data) + [c]
    {
      data := data + [c];
    }

    method AppendStringView(s: string)
      modifies this
      ensures data == old(data) + s
    {
      data := data + s;
    }
  }

  // ----- escaping -----

  /** The table of hexadecimal digits. */
  function Hex(n: nat): char
    requires n < 16
  {
    if n < 10 then ('0' as int + n) as char else ('a' as int + (n - 10)) as char
  }

  /** hex[ch >> 4] and hex[ch & 0x0f] of a control character, which is below 32. */
  function ControlHex(c: char): string
    requires c < ' '
  {
    if c as int < 16 then ['0', Hex(c as int)] else ['1', Hex(c as int - 16)]
  }

  function EscapeChar(c: char): string
  {
    if c == '"' then "\\\"" else if c == '\\' then "\\\\"
    else if c == BACKSPACE then "\\b" else if c == FORMFEED then "\\f"
    else if c == '\n' then "\\n" else if c == '\r' then "\\r" else if c == '\t' then "\\t"
    else if c < ' ' then "\\u00" + ControlHex(c)
    else [c]
  }

  /** f of every character, one after another. */
  function FlatMap(f: char -> string, text: string): string
  {
    if text == "" then "" else f(text[0]) + FlatMap(f, text[1..])
  }

  function Escape(text: string): string { FlatMap(EscapeChar, text) }

  lemma {:induction false} FlatMapSnoc(f: char -> string, text: string, c: char)
    ensures FlatMap(f, text + [c]) == FlatMap(f, text) + f(c)
  {
    if text == "" {
      assert FlatMap(f, [c]) == f(c) + FlatMap(f, [c][1..]);
    } else {
      FlatMapSnoc(f, text[1..], c);
      assert (text + [c])[1..] == text[1..] + [c];
    }
  }

  method AppendControl(ch: char, dest: MemoryBuffer)
    requires ch < ' '
    modifies dest
    ensures dest.data == old(dest.data) + ("\\u00" + ControlHex(ch))
  {
    dest.AppendStringView("\\u00");
    dest.PushBack(Hex(ch as int / 16));
    dest.PushBack(Hex(ch as int % 16));
  }

  /** append_json_escaped */
  method AppendJsonEscaped(text: string, dest: MemoryBuffer)
    modifies dest
    ensures dest.data == old(dest.data) + Escape(text)
  {
    for i := 0 to |text|
      invariant dest.data == old(dest.data) + Escape(text[..i])
    {
      var ch := text[i];
      FlatMapSnoc(EscapeChar, text[..i], ch);
      assert text[..i + 1] == text[..i] + [ch];
      match ch
      case '"' => dest.AppendStringView("\\\"");
      case '\\' => dest.AppendStringView("\\\\");
      case '\n' => dest.AppendStringView("\\n");
      case '\r' => dest.AppendStringView("\\r");
      case '\t' => dest.AppendStringView("\\t");
      case _ =>
        if ch == BACKSPACE {
          dest.AppendStringView("\\b");
        } else if ch == FORMFEED {
          dest.AppendStringView("\\f");
        } else if ch < ' ' {
          AppendControl(ch, dest);
        } else {
          dest.PushBack(ch);
        }
    }
    assert text[..|text|] == text;
  }

  // ----- reading JSON strings, after section 7 of RFC 8259 -----

  function HexValue(c: char): Option<nat>
  {
    if '0' <= c <= '9' then Some(c as int - '0' as int)
    else if 'a' <= c <= 'f' then Some(c as int - 'a' as int + 10)
    else if 'A' <= c <= 'F' then Some(c as int - 'A' as int + 10)
    else None
  }

  function HexNumber(s: string): Option<nat>
  {
    if s == "" then Some(0)
    else
      match (HexNumber(s[..|s| - 1]), HexValue(s[|s| - 1]))
      case (Some(h), Some(d)) => Some(Times16(h) + d)
      case _ => None
  }

  function SimpleEscape(c: char): Option<char>
  {
    match c
    case '"' => Some('"')
    case '\\' => Some('\\')
    case '/' => Some('/')
    case 'b' => Some(BACKSPACE)
    case 'f' => Some(FORMFEED)
    case 'n' => Some('\n')
    case 'r' => Some('\r')
    case 't' => Some('\t')
    case _ => None
  }

  function Prepend(c: char, rest: Option<string>): Option<string>
  {
    match rest
    case None => None
    case Some(s) => Some([c] + s)
  }

  /** The text between the quotes of a JSON string; None for what is not one, and
      for \u escapes beyond ASCII, which the escaper does not write. */
  function Unescape(s: string): Option<string>
    decreases |s|
  {
    if s == "" then Some("")
    else if s[0] == '\\' then
      if |s| < 2 then None
      else if s[1] == 'u' then
        if |s| < 6 || HexNumber(s[2..6]).None? || HexNumber(s[2..6]).value >= 0x80 then None
        else Prepend(HexNumber(s[2..6]).value as char, Unescape(s[6..]))
      else if SimpleEscape(s[1]).None? then None
      else Prepend(SimpleEscape(s[1]).value, Unescape(s[2..]))
    else if s[0] == '"' || s[0] < ' ' then None
    else Prepend(s[0], Unescape(s[1..]))
  }

  /** The length of a string up to its closing quote. */
  function StringLength(s: string): (r: Option<nat>)
    ensures r.Some? ==> r.value < |s| && s[r.value] == '"'
    decreases |s|
  {
    if s == "" then None
    else if s[0] == '"' then Some(0)
    else if s[0] == '\\' then
      if |s| < 2 then None else Longer(2, StringLength(s[2..]))
    else if s[0] < ' ' then None
    else Longer(1, StringLength(s[1..]))
  }

  function Longer(k: nat, n: Option<nat>): Option<nat>
  {
    match n
    case None => None
    case Some(m) => Some(k + m)
  }

  // ----- escaping loses nothing and hides everything -----

  lemma ControlNumber(c: char)
    requires c < ' '
    ensures HexNumber("00" + ControlHex(c)) == Some(c as int)
  {
    var h := if c as int < 16 then 0 else 1;
    var hex := ControlHex(c);
    HexAppend("", '0', 0, 0);
    HexAppend("0", '0', 0, 0);
    assert "0" + ['0'] == "00" && "00" + hex == "00" + [hex[0]] + [hex[1]];
    HexAppend("00", hex[0], 0, h);
    HexAppend("00" + [hex[0]], hex[1], h, c as int - Times16(h));
  }

  lemma HexAppend(s: string, c: char, h: nat, d: nat)
    requires HexNumber(s) == Some(h) && HexValue(c) == Some(d)
    ensures HexNumber(s + [c]) == Some(Times16(h) + d)
  {
    assert (s + [c])[..|s|] == s;
  }

  lemma UnescapeStep(c: char, rest: string)
    ensures Unescape(EscapeChar(c) + rest) == Prepend(c, Unescape(rest))
  {
    var s := EscapeChar(c) + rest;
    assert s[|EscapeChar(c)|..] == rest;
    if |EscapeChar(c)| == 6 {
      ControlNumber(c);
      assert s[2..6] == "00" + ControlHex(c);
    }
  }

  lemma {:induction false} FlatMapUnescapes(f: char -> string, text: string)
    requires forall c: char, rest: string {:trigger Unescape(f(c) + rest)} ::
        Unescape(f(c) + rest) == Prepend(c, Unescape(rest))
    ensures Unescape(FlatMap(f, text)) == Some(text)
  {
    if text != "" {
      FlatMapUnescapes(f, text[1..]);
      assert text == [text[0]] + text[1..];
    }
  }

  /** Unescaping gives every text back. */
  lemma EscapeRoundTrip(text: string)
    ensures Unescape(Escape(text)) == Some(text)
  {
    forall c: char, rest: string ensures Unescape(EscapeChar(c) + rest) == Prepend(c, Unescape(rest)) {
      UnescapeStep(c, rest);
    }
    FlatMapUnescapes(EscapeChar, text);
  }

  ghost predicate Printable(s: string)
  {
    forall c | c in s :: c >= ' '
  }

  lemma PrintableConcat(a: string, b: string)
    requires Printable(a) && Printable(b)
    ensures Printable(a + b)
  {}

  lemma {:induction false} FlatMapPrintable(f: char -> string, text: string)
    requires forall c: char {:trigger f(c)} :: Printable(f(c))
    ensures Printable(FlatMap(f, text))
  {
    if text != "" {
      FlatMapPrintable(f, text[1..]);
      PrintableConcat(f(text[0]), FlatMap(f, text[1..]));
    }
  }

  /** There is no control character in an escaped text ... */
  lemma EscapePrintable(text: string)
    ensures Printable(Escape(text))
  {
    FlatMapPrintable(EscapeChar, text);
  }

  lemma PlainStep(s: string, k: nat)
    requires k < |s| && s[k] >= ' ' && s[k] != '"' && s[k] != '\\'
    ensures StringLength(s[k..]) == Longer(1, StringLength(s[k + 1..]))
  {
    assert s[k..][1..] == s[k + 1..];
  }

  lemma UnicodeStep(s: string)
    requires |s| >= 6 && s[0] == '\\'
    requires forall i | 2 <= i < 6 :: s[i] >= ' ' && s[i] != '"' && s[i] != '\\'
    ensures StringLength(s) == Longer(6, StringLength(s[6..]))
  {
    PlainStep(s, 2);
    PlainStep(s, 3);
    PlainStep(s, 4);
    PlainStep(s, 5);
  }

  lemma StringLengthStep(c: char, rest: string)
    ensures StringLength(EscapeChar(c) + rest) == Longer(|EscapeChar(c)|, StringLength(rest))
  {
    var s := EscapeChar(c) + rest;
    if |EscapeChar(c)| == 1 {
      assert s[1..] == rest;
    } else if |EscapeChar(c)| == 2 {
      assert s[2..] == rest;
    } else {
      assert s[..6] == "\\u00" + ControlHex(c);
      UnicodeStep(s);
      assert s[6..] == rest;
    }
  }

  lemma {:induction false} FlatMapDelimits(f: char -> string, text: string, tail: string)
    requires forall c: char, more: string {:trigger StringLength(f(c) + more)} ::
        StringLength(f(c) + more) == Longer(|f(c)|, StringLength(more))
    requires StringLength(tail) == Some(0)
    ensures StringLength(FlatMap(f, text) + tail) == Some(|FlatMap(f, text)|)
  {
    if text == "" {
      assert "" + tail == tail;
    } else {
      FlatMapDelimits(f, text[1..], tail);
      assert f(text[0]) + FlatMap(f, text[1..]) + tail == f(text[0]) + (FlatMap(f, text[1..]) + tail);
    }
  }

  /** ... and no bare quote: a string ends at the quote written after it. */
  lemma EscapeDelimits(text: string, rest: string)
    ensures StringLength(Escape(text) + "\"" + rest) == Some(|Escape(text)|)
  {
    forall c: char, more: string
      ensures StringLength(EscapeChar(c) + more) == Longer(|EscapeChar(c)|, StringLength(more)) {
      StringLengthStep(c, more);
    }
    FlatMapDelimits(EscapeChar, text, "\"" + rest);
    assert Escape(text) + "\"" + rest == Escape(text) + ("\"" + rest);
  }
}
