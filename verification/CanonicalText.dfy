/**
 * The text layer of canonical hashing: compact JSON of nested arrays, strings and booleans, in UTF-8.
 * Printing is proved unambiguous by a decoder that recovers a value from any text that starts with it.
 */
module CanonicalText {
  import opened Basics

  /** The only JSON shapes the typed hash tree is made of. */
  datatype Json = JBool(flag: bool) | JString(text: string) | JArray(items: seq<Json>)

  // ----- hexadecimal digits -----

  function HexDigit(n: nat): (c: char)
    requires n < 16
  {
    if n < 10 then (n + '0' as int) as char else (n - 10 + 'a' as int) as char
  }

  function HexValue(c: char): Option<nat> {
    if '0' <= c <= '9' then Some(c as int - '0' as int)
    else if 'a' <= c <= 'f' then Some(c as int - 'a' as int + 10)
    else None
  }

  // ----- string escapes (RFC 8259, section 7) -----

  /** Quote, backslash and control characters are escaped; everything else stands for itself. */
  function EscapeChar(c: char): string {
    if c == '"' then "\\\"" else if c == '\\' then "\\\\"
    else if c == '\n' then "\\n" else if c == '\r' then "\\r" else if c == '\t' then "\\t"
    else if c as int == 0x0c then "\\f" else if c as int == 0x08 then "\\b"
    else if c as int < 0x20 then ['\\', 'u', '0', '0', HexDigit(c as int / 16), HexDigit(c as int % 16)]
    else [c]
  }

  function Escape(s: string): string {
    if s == "" then "" else EscapeChar(s[0]) + Escape(s[1..])
  }

  function PrintString(s: string): string {
    "\"" + Escape(s) + "\""
  }

  function Print(j: Json): string {
    match j
    case JBool(flag) => if flag then "true" else "false"
    case JString(text) => PrintString(text)
    case JArray(items) => "[" + PrintItems(items) + "]"
  }

  function PrintItems(items: seq<Json>): string {
    if items == [] then ""
    else if |items| == 1 then Print(items[0])
    else Print(items[0]) + "," + PrintItems(items[1..])
  }

  // ----- the decoder -----

  datatype Parsed<+T> = Fail | Got(value: T, rest: string)

  /** One escaped or plain character of a string body; a bare quote or control character is not one. */
  function ParseChar(s: string): (r: Parsed<char>)
    ensures r.Got? ==> |r.rest| < |s|
  {
    if s == "" || s[0] == '"' || s[0] as int < 0x20 then Fail
    else if s[0] != '\\' then Got(s[0], s[1..])
    else if |s| < 2 then Fail
    else
      match s[1]
      case '"' => Got('"', s[2..])
      case '\\' => Got('\\', s[2..])
      case 'n' => Got('\n', s[2..])
      case 'r' => Got('\r', s[2..])
      case 't' => Got('\t', s[2..])
      case 'f' => Got(0x0c as char, s[2..])
      case 'b' => Got(0x08 as char, s[2..])
      case 'u' =>
        if |s| < 6 || s[2] != '0' || s[3] != '0' || HexValue(s[4]).None? || HexValue(s[5]).None? then Fail
        else Got((16 * HexValue(s[4]).value + HexValue(s[5]).value) as char, s[6..])
      case _ => Fail
  }

  function ParseText(s: string): (r: Parsed<string>)
    ensures r.Got? ==> |r.rest| < |s|
    decreases |s|
  {
    if s == "" then Fail
    else if s[0] == '"' then Got("", s[1..])
    else
      match ParseChar(s)
      case Fail => Fail
      case Got(c, rest) =>
        match ParseText(rest)
        case Fail => Fail
        case Got(text, after) => Got([c] + text, after)
  }

  function Parse(s: string): (r: Parsed<Json>)
    ensures r.Got? ==> |r.rest| < |s|
    decreases |s|, 0
  {
    if s == "" then Fail
    else if s[0] == '"' then
      match ParseText(s[1..])
      case Fail => Fail
      case Got(text, rest) => Got(JString(text), rest)
    else if s[0] == '[' then
      if |s| >= 2 && s[1] == ']' then Got(JArray([]), s[2..])
      else
        match ParseItems(s[1..])
        case Fail => Fail
        case Got(items, rest) => Got(JArray(items), rest)
    else if "true" <= s then Got(JBool(true), s[4..])
    else if "false" <= s then Got(JBool(false), s[5..])
    else Fail
  }

  function ParseItems(s: string): (r: Parsed<seq<Json>>)
    ensures r.Got? ==> |r.rest| < |s|
    decreases |s|, 1
  {
    match Parse(s)
    case Fail => Fail
    case Got(item, rest) =>
      if rest == "" then Fail
      else if rest[0] == ']' then Got([item], rest[1..])
      else if rest[0] == ',' then
        match ParseItems(rest[1..])
        case Fail => Fail
        case Got(items, after) => Got([item] + items, after)
      else Fail
  }

  // ----- round trips -----

  lemma ParsesPlain(c: char, rest: string)
    requires c != '"' && c != '\\' && c as int >= 0x20
    ensures ParseChar([c] + rest) == Got(c, rest)
  {
    assert ([c] + rest)[1..] == rest;
  }

  /** A backslash and one letter. */
  lemma ParsesShort(letter: char, rest: string)
    ensures var s := ['\\', letter] + rest;
            |s| >= 2 && s[0] == '\\' && s[1] == letter && s[2..] == rest
  {
  }

  /** A control character without a letter of its own: four hexadecimal digits. */
  lemma ParsesHex(c: char, rest: string)
    requires c as int < 0x20
    ensures ParseChar(['\\', 'u', '0', '0', HexDigit(c as int / 16), HexDigit(c as int % 16)] + rest) == Got(c, rest)
  {
    var s := ['\\', 'u', '0', '0', HexDigit(c as int / 16), HexDigit(c as int % 16)] + rest;
    HexDigitReads(c as int / 16);
    HexDigitReads(c as int % 16);
    assert s[0] == '\\' && s[1] == 'u' && s[2] == '0' && s[3] == '0' && s[6..] == rest;
    assert s[4] == HexDigit(c as int / 16) && s[5] == HexDigit(c as int % 16);
  }

  lemma HexDigitReads(n: int)
    requires 0 <= n < 16
    ensures HexValue(HexDigit(n)) == Some(n)
  {
  }

  lemma ParsesEscapedChar(c: char, rest: string)
    ensures ParseChar(EscapeChar(c) + rest) == Got(c, rest)
  {
    var e := EscapeChar(c);
    if |e| == 1 {
      ParsesPlain(c, rest);
    } else if |e| == 2 {
      assert e == ['\\', e[1]];
      ParsesShort(e[1], rest);
    } else {
      ParsesHex(c, rest);
    }
  }

  lemma EscapedCharStart(c: char)
    ensures EscapeChar(c) != "" && EscapeChar(c)[0] != '"'
  {
  }

  lemma EscapeStep(text: string, tail: string)
    requires text != ""
    ensures Escape(text) + tail == EscapeChar(text[0]) + (Escape(text[1..]) + tail)
  {
  }

  /** Behind a character the rest of a string body is read on its own. */
  lemma ParseTextStep(s: string, c: char, more: string, text: string, rest: string)
    requires s != "" && s[0] != '"' && ParseChar(s) == Got(c, more) && ParseText(more) == Got(text, rest)
    ensures ParseText(s) == Got([c] + text, rest)
  {
  }

  lemma {:induction false} ParsesEscaped(text: string, rest: string)
    ensures ParseText(Escape(text) + ("\"" + rest)) == Got(text, rest)
    decreases |text|
  {
    var tail := "\"" + rest;
    if text == "" {
      assert Escape(text) + tail == tail;
    } else {
      var more := Escape(text[1..]) + tail;
      EscapeStep(text, tail);
      EscapedCharStart(text[0]);
      ParsesEscapedChar(text[0], more);
      ParsesEscaped(text[1..], rest);
      ParseTextStep(EscapeChar(text[0]) + more, text[0], more, text[1..], rest);
      assert [text[0]] + text[1..] == text;
    }
  }

  lemma PrintStart(j: Json)
    ensures Print(j) != ""
    ensures Print(j)[0] != ']'
    ensures Print(j)[0] == '"' <==> j.JString?
    ensures Print(j)[0] == '[' <==> j.JArray?
  {
  }

  lemma PrintItemsStart(items: seq<Json>)
    requires items != []
    ensures PrintItems(items) != "" && PrintItems(items)[0] != ']'
  {
    PrintStart(items[0]);
  }

  lemma ParsesFlag(flag: bool, rest: string)
    ensures Parse(Print(JBool(flag)) + rest) == Got(JBool(flag), rest)
  {
    var s := Print(JBool(flag)) + rest;
    if flag {
      assert s[..4] == "true" && s[4..] == rest;
    } else {
      assert s[..5] == "false" && s[5..] == rest;
      assert s[0] == 'f' && "true"[0] == 't';
    }
  }

  lemma ParsesString(text: string, rest: string)
    ensures Parse(PrintString(text) + rest) == Got(JString(text), rest)
  {
    var s := PrintString(text) + rest;
    assert s[0] == '"' && s[1..] == Escape(text) + ("\"" + rest);
    ParsesEscaped(text, rest);
  }

  lemma ParseArrayStep(body: string, items: seq<Json>, rest: string)
    requires body != "" && body[0] != ']' && ParseItems(body) == Got(items, rest)
    ensures Parse("[" + body) == Got(JArray(items), rest)
  {
    assert ("[" + body)[1..] == body;
  }

  lemma ParsesBracketed(items: seq<Json>, body: string, rest: string)
    requires body != "" && body[0] != ']' && ParseItems(body + ("]" + rest)) == Got(items, rest)
    ensures Parse("[" + body + "]" + rest) == Got(JArray(items), rest)
  {
    ParseArrayStep(body + ("]" + rest), items, rest);
    assert "[" + body + "]" + rest == "[" + (body + ("]" + rest));
  }

  lemma ParsesEmpty(rest: string)
    ensures Parse("[" + "" + "]" + rest) == Got(JArray([]), rest)
  {
    var s := "[" + "" + "]" + rest;
    assert s == "[]" + rest && s[2..] == rest;
  }

  lemma PrintItemsStep(items: seq<Json>, tail: string)
    requires |items| > 1
    ensures PrintItems(items) + tail == Print(items[0]) + ("," + (PrintItems(items[1..]) + tail))
  {
  }

  /** Behind a comma the rest of the items are read on their own. */
  lemma ParseItemsStep(s: string, item: Json, more: string, items: seq<Json>, rest: string)
    requires Parse(s) == Got(item, "," + more) && ParseItems(more) == Got(items, rest)
    ensures ParseItems(s) == Got([item] + items, rest)
  {
    assert ("," + more)[1..] == more;
  }

  lemma ParseItemsEnd(s: string, item: Json, rest: string)
    requires Parse(s) == Got(item, "]" + rest)
    ensures ParseItems(s) == Got([item], rest)
  {
    assert ("]" + rest)[1..] == rest;
  }

  /** A printed value is read back, whatever follows it. */
  lemma {:induction false} ParsesPrinted(j: Json, rest: string)
    ensures Parse(Print(j) + rest) == Got(j, rest)
    decreases j, 0
  {
    match j {
      case JBool(flag) => ParsesFlag(flag, rest);
      case JString(text) => ParsesString(text, rest);
      case JArray(items) =>
        if items == [] {
          ParsesEmpty(rest);
        } else {
          PrintItemsStart(items);
          ParsesItems(items, rest);
          ParsesBracketed(items, PrintItems(items), rest);
        }
    }
  }

  lemma OneItemIsRead(items: seq<Json>, rest: string)
    requires |items| == 1 && Parse(Print(items[0]) + ("]" + rest)) == Got(items[0], "]" + rest)
    ensures ParseItems(PrintItems(items) + ("]" + rest)) == Got(items, rest)
  {
    ParseItemsEnd(Print(items[0]) + ("]" + rest), items[0], rest);
    assert items == [items[0]];
  }

  lemma MoreItemsAreRead(items: seq<Json>, rest: string)
    requires |items| > 1
    requires var more := PrintItems(items[1..]) + ("]" + rest);
             Parse(Print(items[0]) + ("," + more)) == Got(items[0], "," + more) && ParseItems(more) == Got(items[1..], rest)
    ensures ParseItems(PrintItems(items) + ("]" + rest)) == Got(items, rest)
  {
    var more := PrintItems(items[1..]) + ("]" + rest);
    PrintItemsStep(items, "]" + rest);
    ParseItemsStep(Print(items[0]) + ("," + more), items[0], more, items[1..], rest);
    assert [items[0]] + items[1..] == items;
  }

  lemma {:induction false} ParsesItems(items: seq<Json>, rest: string)
    requires items != []
    ensures ParseItems(PrintItems(items) + ("]" + rest)) == Got(items, rest)
    decreases items, 1
  {
    if |items| == 1 {
      ParsesPrinted(items[0], "]" + rest);
      OneItemIsRead(items, rest);
    } else {
      ParsesPrinted(items[0], "," + (PrintItems(items[1..]) + ("]" + rest)));
      ParsesItems(items[1..], rest);
      MoreItemsAreRead(items, rest);
    }
  }

  // ----- UTF-8 (RFC 3629, section 3) -----

  type Byte = n: int | 0 <= n < 256

  function EncodeChar(c: char): seq<Byte> {
    var n := c as int;
    if n < 0x80 then [n]
    else if n < 0x800 then [0xc0 + n / 64, 0x80 + n % 64]
    else if n < 0x10000 then [0xe0 + n / 4096, 0x80 + n / 64 % 64, 0x80 + n % 64]
    else [0xf0 + n / 262144, 0x80 + n / 4096 % 64, 0x80 + n / 64 % 64, 0x80 + n % 64]
  }

  function Utf8(s: string): seq<Byte> {
    if s == "" then [] else EncodeChar(s[0]) + Utf8(s[1..])
  }

  /** The code point a byte sequence starts with, and its width, when the bytes have the layout of one. */
  function CodePointAt(b: seq<Byte>): (int, nat)
    requires b != []
  {
    var lead: int := b[0];
    if lead < 0x80 then (lead, 1)
    else if lead < 0xe0 && |b| >= 2 then (64 * (lead - 0xc0) + Low(b[1]), 2)
    else if lead < 0xf0 && |b| >= 3 then (4096 * (lead - 0xe0) + 64 * Low(b[1]) + Low(b[2]), 3)
    else if |b| >= 4 then (262144 * (lead - 0xf0) + 4096 * Low(b[1]) + 64 * Low(b[2]) + Low(b[3]), 4)
    else (-1, 1)
  }

  /** The payload of a continuation byte. */
  function Low(b: int): int {
    b - 0x80
  }

  predicate IsScalar(n: int) {
    0 <= n < 0xd800 || 0xe000 <= n < 0x110000
  }

  function Utf8Decoded(b: seq<Byte>): Option<string>
    decreases |b|
  {
    if b == [] then Some("")
    else
      var (n, width) := CodePointAt(b);
      if !IsScalar(n) then None
      else
        var rest := Utf8Decoded(b[width..]);
        if rest.None? then None else Some([n as char] + rest.value)
  }

  lemma CharBytesDecode(c: char, rest: seq<Byte>)
    ensures CodePointAt(EncodeChar(c) + rest) == (c as int, |EncodeChar(c)|)
    ensures (EncodeChar(c) + rest)[|EncodeChar(c)|..] == rest
  {
    var e := EncodeChar(c);
    assert forall i :: 0 <= i < |e| ==> (e + rest)[i] == e[i];
    var n := c as int;
    if 0x800 <= n < 0x10000 {
      assert n == (n / 4096) * 4096 + (n / 64 % 64) * 64 + n % 64;
    } else if 0x10000 <= n {
      assert n == (n / 262144) * 262144 + (n / 4096 % 64) * 4096 + (n / 64 % 64) * 64 + n % 64;
    }
  }

  predicate IsContinuation(b: int) {
    0x80 <= b <= 0xbf
  }

  /** One code point in bytes: the ranges and the weights of RFC 3629, section 3, for each width. */
  predicate IsUtf8(n: int, b: seq<Byte>) {
    if |b| == 1 then n < 0x80 && n == b[0]
    else if |b| == 2 then
      var x: int := b[0];
      var y: int := b[1];
      0x80 <= n < 0x800 && 0xc2 <= x <= 0xdf && IsContinuation(y) && n == 64 * (x - 0xc0) + (y - 0x80)
    else if |b| == 3 then
      var x: int := b[0];
      var y: int := b[1];
      var z: int := b[2];
      && 0x800 <= n < 0x10000 && 0xe0 <= x <= 0xef && IsContinuation(y) && IsContinuation(z)
      && n == 4096 * (x - 0xe0) + 64 * (y - 0x80) + (z - 0x80)
    else if |b| == 4 then
      var w: int := b[0];
      var x: int := b[1];
      var y: int := b[2];
      var z: int := b[3];
      && 0x10000 <= n && 0xf0 <= w <= 0xf4 && IsContinuation(x) && IsContinuation(y) && IsContinuation(z)
      && n == 262144 * (w - 0xf0) + 4096 * (x - 0x80) + 64 * (y - 0x80) + (z - 0x80)
    else false
  }

  lemma ThreeParts(n: nat)
    ensures n == 4096 * (n / 4096) + 64 * (n / 64 % 64) + n % 64
  {
  }

  lemma FourParts(n: nat)
    ensures n == 262144 * (n / 262144) + 4096 * (n / 4096 % 64) + 64 * (n / 64 % 64) + n % 64
  {
    ThreeParts(n);
    assert n / 4096 == 64 * (n / 262144) + n / 4096 % 64;
  }

  lemma Utf8Layout(c: char)
    ensures IsUtf8(c as int, EncodeChar(c))
  {
    ThreeParts(c as int);
    FourParts(c as int);
  }

  /** The length rules of the journal count these bytes. */
  lemma {:induction false} Utf8LengthCounts(s: string)
    ensures Utf8Length(s) == |Utf8(s)|
  {
    if s != "" {
      Utf8LengthCounts(s[1..]);
    }
  }

  lemma {:induction false} Utf8RoundTrip(s: string)
    ensures Utf8Decoded(Utf8(s)) == Some(s)
    decreases |s|
  {
    if s != "" {
      CharBytesDecode(s[0], Utf8(s[1..]));
      Utf8RoundTrip(s[1..]);
      assert [s[0]] + s[1..] == s;
    }
  }

  /** The bytes of a value, and the value in some bytes if they are exactly one printed value. */
  function JsonBytes(j: Json): seq<Byte> {
    Utf8(Print(j))
  }

  function DecodeJson(b: seq<Byte>): Option<Json> {
    var text := Utf8Decoded(b);
    if text.None? then None
    else
      match Parse(text.value)
      case Fail => None
      case Got(j, rest) => if rest == "" then Some(j) else None
  }

  lemma DecodesBytes(j: Json)
    ensures DecodeJson(JsonBytes(j)) == Some(j)
  {
    Utf8RoundTrip(Print(j));
    ParsesPrinted(j, "");
    assert Print(j) + "" == Print(j);
  }
}
