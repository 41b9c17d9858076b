/**
 * The canonical text of a value as literal JSON, written down without the tree, the printer, the escaper or the sort:
 * a second definition, which the conversion is proved to meet for every value.
 */
module CanonicalReference {
  import opened Basics
  import opened CanonicalText
  import opened CanonicalTree

  // ----- order -----

  /** A proper prefix comes first; otherwise the smaller character at the first difference does. */
  ghost predicate Precedes(a: string, b: string) {
    exists k: nat :: DiffersAt(a, b, k)
  }

  predicate DiffersAt(a: string, b: string, k: nat) {
    k <= |a| && k < |b| && a[..k] == b[..k] && (k < |a| ==> a[k] < b[k])
  }

  lemma {:induction false} LessDiffers(a: string, b: string) returns (k: nat)
    requires Less(a, b)
    ensures DiffersAt(a, b, k)
    decreases |a|
  {
    k := 0;
    if a != "" && a[0] == b[0] {
      k := LessDiffers(a[1..], b[1..]);
      assert a == [a[0]] + a[1..] && b == [b[0]] + b[1..];
      k := k + 1;
    }
  }

  lemma {:induction false} DifferingIsLess(a: string, b: string, k: nat)
    requires DiffersAt(a, b, k)
    ensures Less(a, b)
    decreases k
  {
    if k > 0 {
      assert a[0] == a[..k][0] == b[..k][0] == b[0];
      assert a[1..][..k - 1] == a[..k][1..] && b[1..][..k - 1] == b[..k][1..];
      DifferingIsLess(a[1..], b[1..], k - 1);
    }
  }

  lemma LessMeans(a: string, b: string)
    ensures Less(a, b) <==> Precedes(a, b)
  {
    if Less(a, b) {
      var k := LessDiffers(a, b);
    }
    if Precedes(a, b) {
      var k: nat :| DiffersAt(a, b, k);
      DifferingIsLess(a, b, k);
    }
  }

  // ----- text -----

  const HEXADECIMAL := "0123456789abcdef"

  /** One character inside a JSON string. */
  function Piece(c: char): string {
    var n := c as int;
    if n == 0x22 then "\\\""
    else if n == 0x5c then "\\\\"
    else if n == 8 then "\\b"
    else if n == 9 then "\\t"
    else if n == 10 then "\\n"
    else if n == 12 then "\\f"
    else if n == 13 then "\\r"
    else if n < 16 then "\\u000" + [HEXADECIMAL[n]]
    else if n < 32 then "\\u001" + [HEXADECIMAL[n - 16]]
    else [c]
  }

  function Pieces(s: string): string {
    if s == "" then "" else Piece(s[0]) + Pieces(s[1..])
  }

  function Quoted(s: string): string {
    "\"" + Pieces(s) + "\""
  }

  function Joined(parts: seq<string>): string {
    if parts == [] then "" else if |parts| == 1 then parts[0] else parts[0] + "," + Joined(parts[1..])
  }

  function Numeral(n: int): string
    decreases if n < 0 then 1 - n else n
  {
    if n < 0 then "-" + Numeral(-n)
    else if n < 10 then ["0123456789"[n]]
    else Numeral(n / 10) + ["0123456789"[n % 10]]
  }

  /** The weight of a hexadecimal digit. */
  function Weight(k: nat): (w: nat)
    ensures w > 0
  {
    if k == 0 then 1 else 16 * Weight(k - 1)
  }

  /** Sixteen hexadecimal digits, the highest first. */
  function Nibbles(n: nat): string {
    seq(16, i requires 0 <= i < 16 => HEXADECIMAL[n / Weight(15 - i) % 16])
  }

  function KeyName(k: Key): string {
    match k
    case TextKey(text) => text
    case IntKey(number) => Numeral(number)
    case BoolKey(flag) => if flag then "True" else "False"
    case NullKey => "None"
  }

  /** The places of all entries, so that their names ascend; then no name occurs twice. */
  ghost predicate IsOrder(order: seq<nat>, entries: seq<(Key, Value)>) {
    && (forall k :: 0 <= k < |order| ==> order[k] < |entries|)
    && (forall i: nat :: i < |entries| ==> i in order)
    && (forall k, l :: 0 <= k < l < |order| ==> Precedes(KeyName(entries[order[k]].0), KeyName(entries[order[l]].0)))
  }

  function Member(name: string, text: string): string {
    "[" + Quoted(name) + "," + text + "]"
  }

  function Members(order: seq<nat>, entries: seq<(Key, Value)>, texts: seq<string>): seq<string>
    requires |texts| == |order| && forall k :: 0 <= k < |order| ==> order[k] < |entries|
  {
    seq(|order|, k requires 0 <= k < |order| => Member(KeyName(entries[order[k]].0), texts[k]))
  }

  ghost predicate AreTextsOf(texts: seq<string>, items: seq<Value>)
    decreases items, 1
  {
    |texts| == |items| && forall k :: 0 <= k < |items| ==> IsTextOf(texts[k], items[k])
  }

  ghost predicate AreMemberTexts(texts: seq<string>, order: seq<nat>, entries: seq<(Key, Value)>)
    requires forall k :: 0 <= k < |order| ==> order[k] < |entries|
    decreases entries, 1
  {
    && |texts| == |order|
    && forall k :: 0 <= k < |order| ==> IsMemberText(texts[k], entries[order[k]])
  }

  ghost predicate IsMemberText(text: string, entry: (Key, Value))
    decreases entry, 1
  {
    IsTextOf(text, entry.1)
  }

  /** The text that a value is hashed as; a value that has none is refused. */
  ghost predicate IsTextOf(s: string, v: Value)
    decreases v, 0
  {
    match v
    case NullV => s == "[\"null\"]"
    case BoolV(flag) => s == if flag then "[\"boolean\",true]" else "[\"boolean\",false]"
    case IntV(number) => s == "[\"integer\"," + Quoted(Numeral(number)) + "]"
    case FloatV(bits) =>
      && bits / 0x10_0000_0000_0000 % 2048 != 2047
      && s == "[\"float64\"," + Quoted(Nibbles(if bits == 0x8000_0000_0000_0000 then 0 else bits)) + "]"
    case TextV(text) => s == "[\"string\"," + Quoted(text) + "]"
    case EnumV(name) => s == "[\"string\"," + Quoted(name) + "]"
    case DateTimeV(utcText) => utcText.Some? && s == "[\"string\"," + Quoted(utcText.value) + "]"
    case MapV(entries) =>
      exists order: seq<nat>, texts: seq<string> ::
        IsOrder(order, entries) && AreMemberTexts(texts, order, entries)
        && s == "[\"object\",[" + Joined(Members(order, entries, texts)) + "]]"
    case ListV(items) => exists texts :: AreTextsOf(texts, items) && s == "[\"array\",[" + Joined(texts) + "]]"
    case TupleV(items) => exists texts :: AreTextsOf(texts, items) && s == "[\"array\",[" + Joined(texts) + "]]"
    case OtherV => false
  }

  // ----- the conversion meets it -----

  lemma {:induction false} EscapesArePieces(s: string)
    ensures Escape(s) == Pieces(s)
    decreases |s|
  {
    if s != "" {
      PieceMeans(s[0]);
      EscapesArePieces(s[1..]);
    }
  }

  lemma PieceMeans(c: char)
    ensures EscapeChar(c) == Piece(c)
  {
  }

  lemma QuotedMeans(s: string)
    ensures PrintString(s) == Quoted(s)
  {
    EscapesArePieces(s);
  }

  lemma {:induction false} NumeralMeans(n: int)
    ensures Decimal(n) == Numeral(n)
    decreases if n < 0 then 1 - n else n
  {
    if n < 0 {
      NumeralMeans(-n);
    } else if n >= 10 {
      NumeralMeans(n / 10);
      DigitMeans(n % 10);
    } else {
      DigitMeans(n);
    }
  }

  lemma DigitMeans(n: nat)
    requires n < 10
    ensures (n + '0' as int) as char == "0123456789"[n]
  {
  }

  lemma {:induction false} HexAt(n: nat, digits: nat, i: nat)
    requires i < digits
    ensures Hex(n, digits)[i] == HexDigit(n / Weight(digits - 1 - i) % 16)
    decreases digits
  {
    if i < digits - 1 {
      HexAt(n / 16, digits - 1, i);
      DivideTwice(n, Weight(digits - 2 - i));
    }
  }

  lemma DivideTwice(n: nat, w: nat)
    requires w > 0
    ensures n / 16 / w == n / (16 * w)
  {
    var q, r := n / 16, n % 16;
    var a, b := q / w, q % w;
    assert n == 16 * (a * w + b) + r == (16 * w) * a + (16 * b + r);
    assert 16 * b + r < 16 * w;
    QuotientIs(n, 16 * w, a, 16 * b + r);
  }

  lemma Scales(d: nat, a: int, b: int)
    requires a <= b
    ensures d * a <= d * b
  {
  }

  lemma QuotientIs(n: nat, d: nat, q: nat, r: nat)
    requires d > 0 && n == d * q + r && r < d
    ensures n / d == q
  {
    var p := n / d;
    if p + 1 <= q {
      Scales(d, p + 1, q);
    }
    if q + 1 <= p {
      Scales(d, q + 1, p);
    }
  }

  lemma HexDigitMeans(n: nat)
    requires n < 16
    ensures HexDigit(n) == HEXADECIMAL[n]
  {
  }

  lemma NibblesMean(n: nat)
    ensures Hex(n, 16) == Nibbles(n)
  {
    forall i | 0 <= i < 16 ensures Hex(n, 16)[i] == Nibbles(n)[i] {
      HexAt(n, 16, i);
      HexDigitMeans(n / Weight(15 - i) % 16);
    }
  }

  lemma KeyNameMeans(k: Key)
    ensures KeyText(k) == KeyName(k)
  {
    if k.IntKey? {
      NumeralMeans(k.number);
    }
  }

  /** The texts of some JSON values, in a row. */
  lemma {:induction false} ItemsAreJoined(items: seq<Json>, texts: seq<string>)
    requires |texts| == |items| && forall i :: 0 <= i < |items| ==> texts[i] == Print(items[i])
    ensures PrintItems(items) == Joined(texts)
    decreases |items|
  {
    if |items| > 1 {
      ItemsAreJoined(items[1..], texts[1..]);
    }
  }

  lemma TaggedText(tag: string, body: Json)
    ensures Print(JArray([JString(tag), body])) == "[" + (PrintString(tag) + ("," + Print(body))) + "]"
  {
    var items := [JString(tag), body];
    assert items[1..] == [body];
    assert PrintItems(items) == Print(items[0]) + "," + PrintItems(items[1..]);
    assert PrintString(tag) + "," + Print(body) == PrintString(tag) + ("," + Print(body));
  }

  lemma {:induction false} PlainText(s: string)
    requires forall i :: 0 <= i < |s| ==> 'a' <= s[i] <= 'z' || '0' <= s[i] <= '9'
    ensures PrintString(s) == "\"" + s + "\""
    decreases |s|
  {
    if s != "" {
      PlainText(s[1..]);
      assert Escape(s[1..]) == PrintString(s[1..])[1..|s|] == s[1..];
      assert s == [s[0]] + s[1..];
    }
  }

  // ----- arrays and objects -----

  lemma Regroup(open: string, quote: string, tag: string, comma: string, body: string, close: string)
    ensures open + (quote + tag + quote + (comma + body)) + close == open + quote + tag + quote + comma + body + close
  {
  }

  lemma Nested(head: string, open: string, inner: string, close: string)
    ensures head + (open + inner + close) + close == head + open + inner + (close + close)
  {
  }

  /** A tag and a body, in brackets. */
  lemma InBrackets(tag: string, body: Json)
    requires forall i :: 0 <= i < |tag| ==> 'a' <= tag[i] <= 'z' || '0' <= tag[i] <= '9'
    ensures Print(JArray([JString(tag), body])) == "[" + "\"" + tag + "\"" + "," + Print(body) + "]"
  {
    TaggedText(tag, body);
    PlainText(tag);
    Regroup("[", "\"", tag, ",", Print(body), "]");
  }

  /** A tag and a list, in brackets. */
  lemma ListInBrackets(tag: string, items: seq<Json>, texts: seq<string>)
    requires forall i :: 0 <= i < |tag| ==> 'a' <= tag[i] <= 'z' || '0' <= tag[i] <= '9'
    requires |texts| == |items| && forall i :: 0 <= i < |items| ==> texts[i] == Print(items[i])
    ensures Print(JArray([JString(tag), JArray(items)])) == "[" + "\"" + tag + "\"" + "," + "[" + Joined(texts) + ("]" + "]")
  {
    ItemsAreJoined(items, texts);
    InBrackets(tag, JArray(items));
    Nested("[" + "\"" + tag + "\"" + ",", "[", Joined(texts), "]");
  }

  lemma ArrayLiteral(inner: string)
    ensures "[" + "\"" + "array" + "\"" + "," + "[" + inner + ("]" + "]") == "[\"array\",[" + inner + "]]"
  {
    assert "[" + "\"" + "array" + "\"" + "," + "[" == "[\"array\",[";
    assert "]" + "]" == "]]";
  }

  lemma ObjectLiteral(inner: string)
    ensures "[" + "\"" + "object" + "\"" + "," + "[" + inner + ("]" + "]") == "[\"object\",[" + inner + "]]"
  {
    assert "[" + "\"" + "object" + "\"" + "," + "[" == "[\"object\",[";
    assert "]" + "]" == "]]";
  }

  lemma ReifiedArray(ts: seq<Tree>)
    ensures Print(Reify(Array(ts))) == Print(JArray([JString("array"), JArray(ReifyElements(ts))]))
  {
  }

  lemma ReifiedObject(ms: seq<(string, Tree)>)
    ensures Print(Reify(Object(ms))) == Print(JArray([JString("object"), JArray(ReifyMembers(ms))]))
  {
  }

  lemma ArrayText(ts: seq<Tree>, texts: seq<string>)
    requires |texts| == |ts| && forall k :: 0 <= k < |ts| ==> texts[k] == Print(Reify(ts[k]))
    ensures Print(Reify(Array(ts))) == "[\"array\",[" + Joined(texts) + "]]"
  {
    ReifyElementsAt(ts);
    ListedArray(ts, texts);
  }

  lemma ListedArray(ts: seq<Tree>, texts: seq<string>)
    requires |texts| == |ReifyElements(ts)| && forall k :: 0 <= k < |texts| ==> texts[k] == Print(ReifyElements(ts)[k])
    ensures Print(Reify(Array(ts))) == "[\"array\",[" + Joined(texts) + "]]"
  {
    ReifiedArray(ts);
    ListInBrackets("array", ReifyElements(ts), texts);
    ArrayLiteral(Joined(texts));
  }

  lemma MemberText(m: (string, Tree))
    ensures Print(ReifyMember(m)) == Member(m.0, Print(Reify(m.1)))
  {
    QuotedMeans(m.0);
    TaggedText(m.0, Reify(m.1));
  }

  lemma PartsArePrinted(ms: seq<(string, Tree)>, parts: seq<string>)
    requires |parts| == |ms| && forall k :: 0 <= k < |ms| ==> parts[k] == Member(ms[k].0, Print(Reify(ms[k].1)))
    ensures |ReifyMembers(ms)| == |ms| && forall k :: 0 <= k < |ms| ==> parts[k] == Print(ReifyMembers(ms)[k])
  {
    ReifyMembersAt(ms);
    forall k | 0 <= k < |ms| ensures parts[k] == Print(ReifyMembers(ms)[k]) {
      MemberText(ms[k]);
    }
  }

  lemma ObjectText(ms: seq<(string, Tree)>, parts: seq<string>)
    requires |parts| == |ms| && forall k :: 0 <= k < |ms| ==> parts[k] == Member(ms[k].0, Print(Reify(ms[k].1)))
    ensures Print(Reify(Object(ms))) == "[\"object\",[" + Joined(parts) + "]]"
  {
    PartsArePrinted(ms, parts);
    ListedObject(ms, parts);
  }

  lemma ListedObject(ms: seq<(string, Tree)>, parts: seq<string>)
    requires |parts| == |ReifyMembers(ms)| && forall k :: 0 <= k < |parts| ==> parts[k] == Print(ReifyMembers(ms)[k])
    ensures Print(Reify(Object(ms))) == "[\"object\",[" + Joined(parts) + "]]"
  {
    ReifiedObject(ms);
    ListInBrackets("object", ReifyMembers(ms), parts);
    ObjectLiteral(Joined(parts));
  }

  lemma ScalarText(tag: string, text: string)
    requires forall i :: 0 <= i < |tag| ==> 'a' <= tag[i] <= 'z' || '0' <= tag[i] <= '9'
    ensures Print(JArray([JString(tag), JString(text)])) == "[" + "\"" + tag + "\"" + "," + Quoted(text) + "]"
  {
    InBrackets(tag, JString(text));
    QuotedMeans(text);
  }

  /** The text of a value that has one. */
  function TextOfValue(v: Value): string
    requires Normal(v).Some?
  {
    Print(Reify(Normal(v).value))
  }

  lemma ScalarLiterals(text: string)
    ensures "[" + "\"" + "integer" + "\"" + "," + Quoted(text) + "]" == "[\"integer\"," + Quoted(text) + "]"
    ensures "[" + "\"" + "float64" + "\"" + "," + Quoted(text) + "]" == "[\"float64\"," + Quoted(text) + "]"
    ensures "[" + "\"" + "string" + "\"" + "," + Quoted(text) + "]" == "[\"string\"," + Quoted(text) + "]"
  {
    assert "[" + "\"" + "integer" + "\"" + "," == "[\"integer\",";
    assert "[" + "\"" + "float64" + "\"" + "," == "[\"float64\",";
    assert "[" + "\"" + "string" + "\"" + "," == "[\"string\",";
  }

  lemma BooleanText(flag: bool)
    ensures Print(JArray([JString("boolean"), JBool(flag)])) == if flag then "[\"boolean\",true]" else "[\"boolean\",false]"
  {
    InBrackets("boolean", JBool(flag));
    assert "[" + "\"" + "boolean" + "\"" + "," == "[\"boolean\",";
    assert "[\"boolean\"," + "true" + "]" == "[\"boolean\",true]";
    assert "[\"boolean\"," + "false" + "]" == "[\"boolean\",false]";
  }

  lemma NullText()
    ensures Print(JArray([JString("null")])) == "[\"null\"]"
  {
    PlainText("null");
    assert PrintItems([JString("null")]) == PrintString("null");
    assert "\"" + "null" + "\"" == "\"null\"";
    assert "[" + "\"null\"" + "]" == "[\"null\"]";
  }

  lemma ScalarsMeet(v: Value, s: string)
    requires !v.MapV? && !v.ListV? && !v.TupleV?
    ensures IsTextOf(s, v) <==> Normal(v).Some? && s == TextOfValue(v)
  {
    match v
    case NullV => NullText();
    case BoolV(flag) => BooleanText(flag);
    case IntV(number) => IntegerMeets(number);
    case FloatV(bits) => FloatMeets(bits);
    case TextV(text) => StringMeets(text);
    case EnumV(name) => StringMeets(name);
    case DateTimeV(utcText) =>
      if utcText.Some? {
        StringMeets(utcText.value);
      }
    case OtherV =>
  }

  lemma StringMeets(text: string)
    ensures Print(Reify(Text(text))) == "[\"string\"," + Quoted(text) + "]"
  {
    ScalarText("string", text);
    ScalarLiterals(text);
  }

  lemma IntegerMeets(number: int)
    ensures Print(Reify(Integer(number))) == "[\"integer\"," + Quoted(Numeral(number)) + "]"
  {
    NumeralMeans(number);
    ScalarText("integer", Numeral(number));
    ScalarLiterals(Numeral(number));
  }

  lemma FloatMeets(bits: Bits64)
    ensures Finite(bits) <==> bits / 0x10_0000_0000_0000 % 2048 != 2047
    ensures Print(Reify(Float64(Unsigned(bits)))) == "[\"float64\"," + Quoted(Nibbles(if bits == 0x8000_0000_0000_0000 then 0 else bits)) + "]"
  {
    NibblesMean(Unsigned(bits));
    ScalarText("float64", Nibbles(Unsigned(bits)));
    ScalarLiterals(Nibbles(Unsigned(bits)));
  }

  // ----- sequences -----

  ghost predicate AllMeet(items: seq<Value>) {
    forall k :: 0 <= k < |items| ==> Meets(items[k])
  }

  /** A value has exactly one text, the one it is converted to, or none. */
  ghost predicate Meets(v: Value) {
    forall s :: IsTextOf(s, v) <==> Normal(v).Some? && s == TextOfValue(v)
  }

  lemma TextsOfItems(items: seq<Value>, texts: seq<string>)
    requires AllMeet(items)
    ensures AreTextsOf(texts, items)
            <==> && NormalItems(items).Some? && |texts| == |items| == |NormalItems(items).value|
                 && forall k :: 0 <= k < |items| ==> texts[k] == Print(Reify(NormalItems(items).value[k]))
  {
    ItemsAt(items);
    if |texts| == |items| {
      forall k | 0 <= k < |items|
        ensures IsTextOf(texts[k], items[k]) <==> Normal(items[k]).Some? && texts[k] == TextOfValue(items[k])
      {
        assert Meets(items[k]);
      }
    }
  }

  ghost predicate IsArrayText(s: string, items: seq<Value>) {
    exists texts :: AreTextsOf(texts, items) && s == "[\"array\",[" + Joined(texts) + "]]"
  }

  lemma SequencesMeet(items: seq<Value>, s: string)
    requires AllMeet(items)
    ensures IsArrayText(s, items) <==> NormalArray(items).Some? && s == Print(Reify(NormalArray(items).value))
  {
    if IsArrayText(s, items) {
      var texts :| AreTextsOf(texts, items) && s == "[\"array\",[" + Joined(texts) + "]]";
      TextsOfItems(items, texts);
      ArrayText(NormalItems(items).value, texts);
    }
    if NormalItems(items).Some? {
      var ts := NormalItems(items).value;
      ItemsAt(items);
      var texts := seq(|items|, k requires 0 <= k < |items| => Print(Reify(ts[k])));
      TextsOfItems(items, texts);
      ArrayText(ts, texts);
    }
  }

  // ----- mappings -----

  /** The members in the order of their entries' names. */
  function Listed(order: seq<nat>, members: seq<(string, Tree)>): seq<(string, Tree)>
    requires forall k :: 0 <= k < |order| ==> order[k] < |members|
  {
    seq(|order|, k requires 0 <= k < |order| => members[order[k]])
  }

  lemma OrderIsDistinct(order: seq<nat>, entries: seq<(Key, Value)>)
    requires IsOrder(order, entries)
    ensures DistinctKeyTexts(entries)
  {
    forall i, j | 0 <= i < j < |entries| ensures KeyText(entries[i].0) != KeyText(entries[j].0) {
      assert i in order && j in order;
      var k :| 0 <= k < |order| && order[k] == i;
      var l :| 0 <= l < |order| && order[l] == j;
      KeyNameMeans(entries[i].0);
      KeyNameMeans(entries[j].0);
      LessMeans(KeyText(entries[i].0), KeyText(entries[j].0));
      LessMeans(KeyText(entries[j].0), KeyText(entries[i].0));
      LessTotal(KeyText(entries[i].0), KeyText(entries[j].0));
    }
  }

  /** Any ascending order of the entries lists the members as sorting does. */
  lemma OrderIsSorted(order: seq<nat>, entries: seq<(Key, Value)>)
    requires IsOrder(order, entries) && NormalEntries(entries).Some?
    ensures |NormalEntries(entries).value| == |entries|
    ensures Listed(order, NormalEntries(entries).value) == Arrange(NormalEntries(entries).value)
  {
    var members := NormalEntries(entries).value;
    OrderIsDistinct(order, entries);
    EntriesAt(entries);
    NamesFromKeys(entries);
    var listed := Listed(order, members);
    ListedIsSorted(order, entries);
    ListedHasAll(order, members);
    ArrangeSorts(members);
    SortedIsUnique(listed, Arrange(members));
  }

  lemma ListedIsSorted(order: seq<nat>, entries: seq<(Key, Value)>)
    requires IsOrder(order, entries) && NormalEntries(entries).Some? && |NormalEntries(entries).value| == |entries|
    ensures StrictlySorted(Listed(order, NormalEntries(entries).value))
  {
    EntriesAt(entries);
    var listed := Listed(order, NormalEntries(entries).value);
    forall k, l | 0 <= k < l < |order| ensures Less(listed[k].0, listed[l].0) {
      KeyNameMeans(entries[order[k]].0);
      KeyNameMeans(entries[order[l]].0);
      LessMeans(listed[k].0, listed[l].0);
    }
  }

  lemma ListedHasAll(order: seq<nat>, members: seq<(string, Tree)>)
    requires (forall k :: 0 <= k < |order| ==> order[k] < |members|) && forall i: nat :: i < |members| ==> i in order
    ensures SameElements(Listed(order, members), members)
  {
    var listed := Listed(order, members);
    forall x ensures x in listed <==> x in members {
      if x in members {
        var i :| 0 <= i < |members| && members[i] == x;
        assert i in order;
        var k :| 0 <= k < |order| && order[k] == i;
        assert listed[k] == x;
      }
    }
  }

  function IndexOf<T(==)>(xs: seq<T>, x: T): (i: nat)
    requires x in xs
    ensures i < |xs| && xs[i] == x
  {
    if xs[0] == x then 0 else 1 + IndexOf(xs[1..], x)
  }

  /** Sorting gives such an order. */
  lemma SortingIsOrder(entries: seq<(Key, Value)>) returns (order: seq<nat>)
    requires DistinctKeyTexts(entries) && NormalEntries(entries).Some?
    ensures IsOrder(order, entries)
  {
    var members := NormalEntries(entries).value;
    EntriesAt(entries);
    NamesFromKeys(entries);
    ArrangeSorts(members);
    var sorted := Arrange(members);
    assert forall k :: 0 <= k < |sorted| ==> sorted[k] in sorted;
    order := seq(|sorted|, k requires 0 <= k < |sorted| => IndexOf(members, sorted[k]));
    forall i: nat | i < |entries| ensures i in order {
      assert members[i] in sorted;
      var k :| 0 <= k < |sorted| && sorted[k] == members[i];
      assert order[k] == i by {
        assert members[order[k]] == members[i];
      }
    }
    SortedNamesPrecede(entries, members, sorted, order);
  }

  lemma SortedNamesPrecede(entries: seq<(Key, Value)>, members: seq<(string, Tree)>, sorted: seq<(string, Tree)>, order: seq<nat>)
    requires |members| == |entries| && |order| == |sorted| && StrictlySorted(sorted)
    requires forall i :: 0 <= i < |entries| ==> members[i].0 == KeyText(entries[i].0)
    requires forall k :: 0 <= k < |order| ==> order[k] < |members| && members[order[k]] == sorted[k]
    ensures forall k, l :: 0 <= k < l < |order| ==> Precedes(KeyName(entries[order[k]].0), KeyName(entries[order[l]].0))
  {
    forall k, l | 0 <= k < l < |order| ensures Precedes(KeyName(entries[order[k]].0), KeyName(entries[order[l]].0)) {
      KeyNameMeans(entries[order[k]].0);
      KeyNameMeans(entries[order[l]].0);
      LessMeans(sorted[k].0, sorted[l].0);
    }
  }

  ghost predicate AllEntriesMeet(entries: seq<(Key, Value)>) {
    forall i :: 0 <= i < |entries| ==> Meets(entries[i].1)
  }

  ghost predicate IsObjectText(s: string, entries: seq<(Key, Value)>) {
    exists order: seq<nat>, texts: seq<string> ::
      IsOrder(order, entries) && AreMemberTexts(texts, order, entries)
      && s == "[\"object\",[" + Joined(Members(order, entries, texts)) + "]]"
  }

  /** Texts under an order are the texts of the members it lists. */
  lemma TextsOfMembers(order: seq<nat>, entries: seq<(Key, Value)>, texts: seq<string>)
    requires IsOrder(order, entries) && AllEntriesMeet(entries)
    ensures AreMemberTexts(texts, order, entries)
            <==> && NormalEntries(entries).Some? && |texts| == |order| && |NormalEntries(entries).value| == |entries|
                 && forall k :: 0 <= k < |order| ==> texts[k] == Print(Reify(NormalEntries(entries).value[order[k]].1))
  {
    EntriesAt(entries);
    if |texts| == |order| {
      forall k | 0 <= k < |order|
        ensures IsMemberText(texts[k], entries[order[k]])
                <==> Normal(entries[order[k]].1).Some? && texts[k] == TextOfValue(entries[order[k]].1)
      {
        assert Meets(entries[order[k]].1);
      }
      if AreMemberTexts(texts, order, entries) {
        forall i: nat | i < |entries| ensures Normal(entries[i].1).Some? {
          assert i in order;
          var k :| 0 <= k < |order| && order[k] == i;
          assert IsMemberText(texts[k], entries[order[k]]);
        }
      }
    }
  }

  lemma MembersText(order: seq<nat>, entries: seq<(Key, Value)>, texts: seq<string>)
    requires IsOrder(order, entries) && NormalEntries(entries).Some? && |texts| == |order|
    requires |NormalEntries(entries).value| == |entries|
    requires forall k :: 0 <= k < |order| ==> texts[k] == Print(Reify(NormalEntries(entries).value[order[k]].1))
    ensures Print(Reify(Object(Arrange(NormalEntries(entries).value))))
            == "[\"object\",[" + Joined(Members(order, entries, texts)) + "]]"
  {
    var members := NormalEntries(entries).value;
    EntriesAt(entries);
    OrderIsSorted(order, entries);
    var listed, parts := Listed(order, members), Members(order, entries, texts);
    forall k | 0 <= k < |order| ensures parts[k] == Member(listed[k].0, Print(Reify(listed[k].1))) {
      KeyNameMeans(entries[order[k]].0);
    }
    ObjectText(listed, parts);
  }

  lemma MappingsMeet(entries: seq<(Key, Value)>, s: string)
    requires AllEntriesMeet(entries)
    ensures IsObjectText(s, entries) <==> Normal(MapV(entries)).Some? && s == TextOfValue(MapV(entries))
  {
    if IsObjectText(s, entries) {
      var order: seq<nat>, texts: seq<string> :|
        IsOrder(order, entries) && AreMemberTexts(texts, order, entries)
        && s == "[\"object\",[" + Joined(Members(order, entries, texts)) + "]]";
      OrderIsDistinct(order, entries);
      TextsOfMembers(order, entries, texts);
      MembersText(order, entries, texts);
    }
    if Normal(MapV(entries)).Some? {
      EntriesAt(entries);
      var order := SortingIsOrder(entries);
      var members := NormalEntries(entries).value;
      var texts := seq(|order|, k requires 0 <= k < |order| => Print(Reify(members[order[k]].1)));
      TextsOfMembers(order, entries, texts);
      MembersText(order, entries, texts);
    }
  }

  /** Every value has exactly the text that the reference gives it, and is refused exactly where the reference gives none. */
  lemma {:induction false} MeetsReference(v: Value)
    ensures Meets(v)
    decreases v
  {
    forall s ensures IsTextOf(s, v) <==> Normal(v).Some? && s == TextOfValue(v) {
      match v
      case MapV(entries) =>
        forall i | 0 <= i < |entries| ensures Meets(entries[i].1) {
          assert v decreases to entries[i];
          MeetsReference(entries[i].1);
        }
        MappingsMeet(entries, s);
      case ListV(items) =>
        forall i | 0 <= i < |items| ensures Meets(items[i]) {
          MeetsReference(items[i]);
        }
        SequencesMeet(items, s);
      case TupleV(items) =>
        forall i | 0 <= i < |items| ensures Meets(items[i]) {
          MeetsReference(items[i]);
        }
        SequencesMeet(items, s);
      case _ => ScalarsMeet(v, s);
    }
  }
}
