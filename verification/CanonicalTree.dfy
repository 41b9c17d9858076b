/**
 * The typed hash tree: what a protocol value becomes before it is printed, and the theorem that two
 * values have equal canonical bytes exactly when they agree.
 */
module CanonicalTree {
  import opened Basics
  import opened CanonicalText

  type Bits64 = n: int | 0 <= n < 0x1_0000_0000_0000_0000

  /** Keys that Python's str() turns into text. */
  datatype Key = TextKey(text: string) | IntKey(number: int) | BoolKey(flag: bool) | NullKey

  datatype Value =
    | NullV
    | BoolV(flag: bool)
    | IntV(number: int)
    | FloatV(bits: Bits64)
    | TextV(text: string)
    | EnumV(name: string)
    | DateTimeV(utcText: Option<string>)
    | MapV(entries: seq<(Key, Value)>)
    | ListV(items: seq<Value>)
    | TupleV(items: seq<Value>)
    | OtherV

  /** Normalised trees; an object's entries are in key order. */
  datatype Tree =
    | Null
    | Boolean(flag: bool)
    | Integer(number: int)
    | Float64(bits: Bits64)
    | Text(text: string)
    | Object(members: seq<(string, Tree)>)
    | Array(elements: seq<Tree>)

  // ----- numbers as text -----

  function Digits(n: nat): (s: string)
    ensures s != "" && '0' <= s[0] <= '9'
  {
    if n < 10 then [(n + '0' as int) as char] else Digits(n / 10) + [(n % 10 + '0' as int) as char]
  }

  function Decimal(n: int): string {
    if n < 0 then "-" + Digits(-n) else Digits(n)
  }

  function ReadDigits(s: string): nat
  {
    if s == "" then 0
    else
      var c := s[|s| - 1];
      10 * ReadDigits(s[..|s| - 1]) + (if '0' <= c <= '9' then c as int - '0' as int else 0)
  }

  function ReadDecimal(s: string): int {
    if s != "" && s[0] == '-' then 0 - ReadDigits(s[1..]) else ReadDigits(s)
  }

  lemma {:induction false} DigitsRead(n: nat)
    ensures ReadDigits(Digits(n)) == n
  {
    if n >= 10 {
      DigitsRead(n / 10);
      assert Digits(n)[..|Digits(n)| - 1] == Digits(n / 10);
    } else {
      assert Digits(n)[..0] == "";
    }
  }

  lemma DecimalRead(n: int)
    ensures ReadDecimal(Decimal(n)) == n
  {
    if n < 0 {
      DigitsRead(-n);
      assert Decimal(n)[1..] == Digits(-n);
    } else {
      DigitsRead(n);
    }
  }

  /** Big-endian hexadecimal of a fixed number of digits. */
  function Hex(n: nat, digits: nat): (s: string)
    ensures |s| == digits
  {
    if digits == 0 then "" else Hex(n / 16, digits - 1) + [HexDigit(n % 16)]
  }

  function ReadHex(s: string): nat {
    if s == "" then 0
    else
      var d := HexValue(s[|s| - 1]);
      16 * ReadHex(s[..|s| - 1]) + (if d.Some? then d.value else 0)
  }

  function Power16(k: nat): nat {
    if k == 0 then 1 else 16 * Power16(k - 1)
  }

  lemma {:induction false} HexRead(n: nat, digits: nat)
    requires n < Power16(digits)
    ensures ReadHex(Hex(n, digits)) == n
  {
    if digits > 0 {
      HexRead(n / 16, digits - 1);
      assert Hex(n, digits)[..digits - 1] == Hex(n / 16, digits - 1);
    }
  }

  lemma SixteenDigitsHold64Bits(n: Bits64)
    ensures n < Power16(16)
  {
    assert Power16(4) == 0x1_0000;
    assert Power16(8) == 0x1_0000_0000;
    assert Power16(12) == 0x1_0000_0000_0000;
  }

  // ----- floats -----

  const NEGATIVE_ZERO: Bits64 := 0x8000_0000_0000_0000

  /** Neither infinite nor not-a-number: the exponent field is not all ones. */
  predicate Finite(bits: Bits64) {
    bits / 0x10_0000_0000_0000 % 0x800 != 0x7ff
  }

  function Unsigned(bits: Bits64): Bits64 {
    if bits == NEGATIVE_ZERO then 0 else bits
  }

  // ----- key order -----

  function KeyText(k: Key): string {
    match k
    case TextKey(text) => text
    case IntKey(number) => Decimal(number)
    case BoolKey(flag) => if flag then "True" else "False"
    case NullKey => "None"
  }

  predicate Less(a: string, b: string) {
    b != "" && (a == "" || a[0] < b[0] || (a[0] == b[0] && Less(a[1..], b[1..])))
  }

  lemma {:induction false} LessTransitive(a: string, b: string, c: string)
    requires Less(a, b) && Less(b, c)
    ensures Less(a, c)
    decreases |a|
  {
    if a != "" && a[0] == b[0] == c[0] {
      LessTransitive(a[1..], b[1..], c[1..]);
    }
  }

  lemma {:induction false} LessTotal(a: string, b: string)
    ensures Less(a, b) || Less(b, a) || a == b
    ensures !(Less(a, b) && Less(b, a)) && (a == b ==> !Less(a, b))
    decreases |a|
  {
    if a != "" && b != "" && a[0] == b[0] {
      LessTotal(a[1..], b[1..]);
      assert a == [a[0]] + a[1..] && b == [b[0]] + b[1..];
    }
  }

  ghost predicate StrictlySorted<T>(xs: seq<(string, T)>) {
    forall i, j :: 0 <= i < j < |xs| ==> Less(xs[i].0, xs[j].0)
  }

  predicate DistinctNames<T>(xs: seq<(string, T)>) {
    forall i, j :: 0 <= i < j < |xs| ==> xs[i].0 != xs[j].0
  }

  function Insert<T>(x: (string, T), xs: seq<(string, T)>): seq<(string, T)> {
    if xs == [] || Less(x.0, xs[0].0) then [x] + xs else [xs[0]] + Insert(x, xs[1..])
  }

  function Arrange<T>(xs: seq<(string, T)>): seq<(string, T)> {
    if xs == [] then [] else Insert(xs[0], Arrange(xs[1..]))
  }

  ghost predicate SameElements<T(!new)>(xs: seq<T>, ys: seq<T>) {
    forall x :: x in xs <==> x in ys
  }

  lemma {:induction false} InsertKeeps<T(!new)>(x: (string, T), xs: seq<(string, T)>)
    ensures forall y :: y in Insert(x, xs) <==> y == x || y in xs
    decreases |xs|
  {
    if xs != [] && !Less(x.0, xs[0].0) {
      InsertKeeps(x, xs[1..]);
      assert xs == [xs[0]] + xs[1..];
    }
  }

  lemma {:induction false} InsertSorts<T(!new)>(x: (string, T), xs: seq<(string, T)>)
    requires StrictlySorted(xs) && forall y :: y in xs ==> y.0 != x.0
    ensures StrictlySorted(Insert(x, xs))
    decreases |xs|
  {
    if xs == [] {
    } else if Less(x.0, xs[0].0) {
      forall j | 0 <= j < |xs| ensures Less(x.0, xs[j].0) {
        if j > 0 {
          LessTransitive(x.0, xs[0].0, xs[j].0);
        }
      }
    } else {
      LessTotal(x.0, xs[0].0);
      assert xs[0] in xs;
      InsertSorts(x, xs[1..]);
      InsertKeeps(x, xs[1..]);
      forall y | y in Insert(x, xs[1..]) ensures Less(xs[0].0, y.0) {
      }
    }
  }

  lemma {:induction false} ArrangeSorts<T(!new)>(xs: seq<(string, T)>)
    requires DistinctNames(xs)
    ensures StrictlySorted(Arrange(xs)) && SameElements(Arrange(xs), xs)
    decreases |xs|
  {
    if xs != [] {
      ArrangeSorts(xs[1..]);
      InsertKeeps(xs[0], Arrange(xs[1..]));
      assert xs == [xs[0]] + xs[1..];
      forall y | y in Arrange(xs[1..]) ensures y.0 != xs[0].0 {
        var k :| 0 <= k < |xs[1..]| && xs[1..][k] == y;
        assert xs[k + 1].0 != xs[0].0;
      }
      InsertSorts(xs[0], Arrange(xs[1..]));
    }
  }

  lemma HeadIsElement<T(!new)>(xs: seq<T>)
    ensures xs != [] ==> xs[0] in xs
  {
  }

  /** There is only one way to put a set of named things in order. */
  lemma {:induction false} SortedIsUnique<T(!new)>(xs: seq<(string, T)>, ys: seq<(string, T)>)
    requires StrictlySorted(xs) && StrictlySorted(ys) && SameElements(xs, ys)
    ensures xs == ys
    decreases |xs|
  {
    HeadIsElement(xs);
    HeadIsElement(ys);
    if xs != [] {
      assert xs[0] in ys && ys[0] in xs;
      LessTotal(xs[0].0, ys[0].0);
      assert xs[0] == ys[0];
      forall x ensures x in xs[1..] <==> x in ys[1..] {
        LessTotal(xs[0].0, xs[0].0);
        assert x in xs[1..] ==> x in xs && Less(xs[0].0, x.0);
        assert x in ys[1..] ==> x in ys && Less(ys[0].0, x.0);
        assert xs == [xs[0]] + xs[1..] && ys == [ys[0]] + ys[1..];
      }
      SortedIsUnique(xs[1..], ys[1..]);
      assert xs == [xs[0]] + xs[1..] && ys == [ys[0]] + ys[1..];
    }
  }

  // ----- normal form -----

  predicate DistinctKeyTexts(entries: seq<(Key, Value)>) {
    forall i, j :: 0 <= i < j < |entries| ==> KeyText(entries[i].0) != KeyText(entries[j].0)
  }

  /** The tree of a value, or nothing where hashing raises. */
  function Normal(v: Value): Option<Tree>
    decreases v, 0
  {
    match v
    case NullV => Some(Null)
    case BoolV(flag) => Some(Boolean(flag))
    case IntV(number) => Some(Integer(number))
    case FloatV(bits) => if Finite(bits) then Some(Float64(Unsigned(bits))) else None
    case TextV(text) => Some(Text(text))
    case EnumV(name) => Some(Text(name))
    case DateTimeV(utcText) => if utcText.Some? then Some(Text(utcText.value)) else None
    case MapV(entries) =>
      if !DistinctKeyTexts(entries) then None
      else
        var members := NormalEntries(entries);
        if members.None? then None else Some(Object(Arrange(members.value)))
    case ListV(items) => NormalArray(items)
    case TupleV(items) => NormalArray(items)
    case OtherV => None
  }

  function NormalArray(items: seq<Value>): Option<Tree>
    decreases items, 2
  {
    var elements := NormalItems(items);
    if elements.None? then None else Some(Array(elements.value))
  }

  function NormalItems(items: seq<Value>): Option<seq<Tree>>
    decreases items, 1
  {
    if items == [] then Some([])
    else
      var first, rest := Normal(items[0]), NormalItems(items[1..]);
      if first.None? || rest.None? then None else Some([first.value] + rest.value)
  }

  function NormalEntries(entries: seq<(Key, Value)>): Option<seq<(string, Tree)>>
    decreases entries, 1
  {
    if entries == [] then Some([])
    else
      var first, rest := NormalEntry(entries[0]), NormalEntries(entries[1..]);
      if first.None? || rest.None? then None else Some([first.value] + rest.value)
  }

  function NormalEntry(entry: (Key, Value)): Option<(string, Tree)>
    decreases entry, 1
  {
    var tree := Normal(entry.1);
    if tree.None? then None else Some((KeyText(entry.0), tree.value))
  }

  lemma {:induction false} ItemsAt(items: seq<Value>)
    ensures NormalItems(items).Some? <==> forall i :: 0 <= i < |items| ==> Normal(items[i]).Some?
    ensures NormalItems(items).Some? ==>
              && |NormalItems(items).value| == |items|
              && forall i :: 0 <= i < |items| ==> NormalItems(items).value[i] == Normal(items[i]).value
    decreases |items|
  {
    if items != [] {
      ItemsAt(items[1..]);
      assert forall i :: 1 <= i < |items| ==> items[i] == items[1..][i - 1];
      assert forall i :: 0 <= i < |items[1..]| ==> items[1..][i] == items[i + 1];
    }
  }

  lemma {:induction false} EntriesAt(entries: seq<(Key, Value)>)
    ensures NormalEntries(entries).Some? <==> forall i :: 0 <= i < |entries| ==> Normal(entries[i].1).Some?
    ensures NormalEntries(entries).Some? ==>
              && |NormalEntries(entries).value| == |entries|
              && forall i :: 0 <= i < |entries| ==>
                   NormalEntries(entries).value[i] == (KeyText(entries[i].0), Normal(entries[i].1).value)
    decreases |entries|
  {
    if entries != [] {
      EntriesAt(entries[1..]);
      assert forall i :: 1 <= i < |entries| ==> entries[i] == entries[1..][i - 1];
      assert forall i :: 0 <= i < |entries[1..]| ==> entries[1..][i] == entries[i + 1];
    }
  }

  // ----- the tree as nested JSON arrays, and back -----

  function Reify(t: Tree): Json
    decreases t, 0
  {
    match t
    case Null => JArray([JString("null")])
    case Boolean(flag) => JArray([JString("boolean"), JBool(flag)])
    case Integer(number) => JArray([JString("integer"), JString(Decimal(number))])
    case Float64(bits) => JArray([JString("float64"), JString(Hex(bits, 16))])
    case Text(text) => JArray([JString("string"), JString(text)])
    case Object(members) => JArray([JString("object"), JArray(ReifyMembers(members))])
    case Array(elements) => JArray([JString("array"), JArray(ReifyElements(elements))])
  }

  function ReifyElements(ts: seq<Tree>): seq<Json>
    decreases ts, 1
  {
    if ts == [] then [] else [Reify(ts[0])] + ReifyElements(ts[1..])
  }

  function ReifyMember(m: (string, Tree)): Json
    decreases m, 1
  {
    JArray([JString(m.0), Reify(m.1)])
  }

  function ReifyMembers(ms: seq<(string, Tree)>): seq<Json>
    decreases ms, 2
  {
    if ms == [] then [] else [ReifyMember(ms[0])] + ReifyMembers(ms[1..])
  }

  lemma {:induction false} ReifyMembersAt(ms: seq<(string, Tree)>)
    ensures |ReifyMembers(ms)| == |ms|
    ensures forall i :: 0 <= i < |ms| ==> ReifyMembers(ms)[i] == ReifyMember(ms[i])
    decreases |ms|
  {
    if ms != [] {
      ReifyMembersAt(ms[1..]);
    }
  }

  lemma {:induction false} ReifyElementsAt(ts: seq<Tree>)
    ensures |ReifyElements(ts)| == |ts|
    ensures forall i :: 0 <= i < |ts| ==> ReifyElements(ts)[i] == Reify(ts[i])
    decreases |ts|
  {
    if ts != [] {
      ReifyElementsAt(ts[1..]);
    }
  }

  /** Reads a tree back from the nested arrays. */
  function Recognise(j: Json): Option<Tree>
    decreases j, 0
  {
    if !j.JArray? || j.items == [] || !j.items[0].JString? then None
    else
      var tag := j.items[0].text;
      if tag == "null" then Some(Null)
      else if |j.items| != 2 then None
      else
        var body := j.items[1];
        if tag == "boolean" && body.JBool? then Some(Boolean(body.flag))
        else if tag == "integer" && body.JString? then Some(Integer(ReadDecimal(body.text)))
        else if tag == "float64" && body.JString? && ReadHex(body.text) < 0x1_0000_0000_0000_0000
        then Some(Float64(ReadHex(body.text)))
        else if tag == "string" && body.JString? then Some(Text(body.text))
        else if tag == "array" && body.JArray? then
          var elements := RecogniseElements(body.items);
          if elements.None? then None else Some(Array(elements.value))
        else if tag == "object" && body.JArray? then
          var members := RecogniseMembers(body.items);
          if members.None? then None else Some(Object(members.value))
        else None
  }

  function RecogniseElements(js: seq<Json>): Option<seq<Tree>>
    decreases js, 1
  {
    if js == [] then Some([])
    else
      var first, rest := Recognise(js[0]), RecogniseElements(js[1..]);
      if first.None? || rest.None? then None else Some([first.value] + rest.value)
  }

  function RecogniseMembers(js: seq<Json>): Option<seq<(string, Tree)>>
    decreases js, 1
  {
    if js == [] then Some([])
    else if !js[0].JArray? || |js[0].items| != 2 || !js[0].items[0].JString? then None
    else
      var first, rest := Recognise(js[0].items[1]), RecogniseMembers(js[1..]);
      if first.None? || rest.None? then None else Some([(js[0].items[0].text, first.value)] + rest.value)
  }

  lemma RecognisesFloat(bits: Bits64)
    ensures Recognise(JArray([JString("float64"), JString(Hex(bits, 16))])) == Some(Float64(bits))
  {
    SixteenDigitsHold64Bits(bits);
    HexRead(bits, 16);
  }

  lemma RecognisesInteger(number: int)
    ensures Recognise(JArray([JString("integer"), JString(Decimal(number))])) == Some(Integer(number))
  {
    DecimalRead(number);
  }

  lemma RecognisesObject(js: seq<Json>, members: seq<(string, Tree)>)
    requires RecogniseMembers(js) == Some(members)
    ensures Recognise(JArray([JString("object"), JArray(js)])) == Some(Object(members))
  {
  }

  lemma RecognisesArray(js: seq<Json>, elements: seq<Tree>)
    requires RecogniseElements(js) == Some(elements)
    ensures Recognise(JArray([JString("array"), JArray(js)])) == Some(Array(elements))
  {
  }

  lemma {:induction false} RecognisesReified(t: Tree)
    ensures Recognise(Reify(t)) == Some(t)
    decreases t, 0
  {
    match t
    case Null =>
    case Boolean(_) =>
    case Integer(number) => RecognisesInteger(number);
    case Float64(bits) => RecognisesFloat(bits);
    case Text(_) =>
    case Object(members) =>
      RecognisesMembers(members);
      RecognisesObject(ReifyMembers(members), members);
    case Array(elements) =>
      RecognisesElements(elements);
      RecognisesArray(ReifyElements(elements), elements);
  }

  lemma {:induction false} RecognisesElements(ts: seq<Tree>)
    ensures RecogniseElements(ReifyElements(ts)) == Some(ts)
    decreases ts, 1
  {
    if ts != [] {
      RecognisesReified(ts[0]);
      RecognisesElements(ts[1..]);
      assert [ts[0]] + ts[1..] == ts;
      assert ReifyElements(ts)[1..] == ReifyElements(ts[1..]);
    }
  }

  lemma {:induction false} RecognisesMember(m: (string, Tree))
    ensures Recognise(Reify(m.1)) == Some(m.1)
    decreases m, 1
  {
    RecognisesReified(m.1);
  }

  lemma {:induction false} RecognisesMembers(ms: seq<(string, Tree)>)
    ensures RecogniseMembers(ReifyMembers(ms)) == Some(ms)
    decreases ms, 1
  {
    if ms != [] {
      RecognisesMember(ms[0]);
      RecognisesMembers(ms[1..]);
      assert ReifyMembers(ms)[1..] == ReifyMembers(ms[1..]);
      assert ms == [(ms[0].0, ms[0].1)] + ms[1..];
    }
  }

  // ----- canonical bytes -----

  function CanonicalBytes(t: Tree): seq<Byte> {
    JsonBytes(Reify(t))
  }

  function Decode(b: seq<Byte>): Option<Tree> {
    var j := DecodeJson(b);
    if j.None? then None else Recognise(j.value)
  }

  /** The decoder recovers the normalised tree from the bytes. */
  lemma DecodesCanonicalBytes(t: Tree)
    ensures Decode(CanonicalBytes(t)) == Some(t)
  {
    DecodesBytes(Reify(t));
    RecognisesReified(t);
  }

  // ----- agreement -----

  function TextOf(v: Value): Option<string> {
    match v
    case TextV(text) => Some(text)
    case EnumV(name) => Some(name)
    case DateTimeV(utcText) => utcText
    case _ => None
  }

  function KeyTexts(es: seq<(Key, Value)>): set<string> {
    set i | 0 <= i < |es| :: KeyText(es[i].0)
  }

  predicate IsSequence(v: Value) {
    v.ListV? || v.TupleV?
  }

  predicate IsZero(bits: Bits64) {
    bits == 0 || bits == NEGATIVE_ZERO
  }

  /**
   * Equal but for key order, list or tuple, enum or datetime for their text, and the sign of zero.
   * In particular an integer never agrees with a float or a boolean.
   */
  ghost predicate Agrees(a: Value, b: Value)
    decreases a
  {
    match a
    case NullV => b.NullV?
    case BoolV(flag) => b == BoolV(flag)
    case IntV(number) => b == IntV(number)
    case FloatV(bits) => b.FloatV? && (b.bits == bits || (IsZero(bits) && IsZero(b.bits)))
    case MapV(es) =>
      && b.MapV? && KeyTexts(es) == KeyTexts(b.entries)
      && forall i, j :: 0 <= i < |es| && 0 <= j < |b.entries| && KeyText(es[i].0) == KeyText(b.entries[j].0)
           ==> Agrees(es[i].1, b.entries[j].1)
    case ListV(xs) =>
      IsSequence(b) && |xs| == |b.items| && forall i :: 0 <= i < |xs| ==> Agrees(xs[i], b.items[i])
    case TupleV(xs) =>
      IsSequence(b) && |xs| == |b.items| && forall i :: 0 <= i < |xs| ==> Agrees(xs[i], b.items[i])
    case OtherV => false
    case _ => TextOf(a).Some? && TextOf(a) == TextOf(b)
  }

  lemma {:induction false} NormalEqualsAgreement(a: Value, b: Value)
    requires Normal(a).Some? && Normal(b).Some?
    ensures Normal(a) == Normal(b) <==> Agrees(a, b)
    decreases a, 1
  {
    if a.MapV? && b.MapV? {
      MapsAgree(a, b);
    } else if IsSequence(a) && IsSequence(b) {
      SequencesAgree(a, b);
    }
  }

  lemma {:induction false} SequencesAgree(a: Value, b: Value)
    requires Normal(a).Some? && Normal(b).Some? && IsSequence(a) && IsSequence(b)
    ensures Normal(a) == Normal(b) <==> Agrees(a, b)
    decreases a, 0
  {
    ItemsAt(a.items);
    ItemsAt(b.items);
    var xs, ys := NormalItems(a.items).value, NormalItems(b.items).value;
    if |a.items| == |b.items| {
      forall i | 0 <= i < |xs| ensures xs[i] == ys[i] <==> Agrees(a.items[i], b.items[i]) {
        NormalEqualsAgreement(a.items[i], b.items[i]);
      }
    }
    assert Normal(a) == Normal(b) <==> xs == ys;
  }

  lemma NamesFromKeys(entries: seq<(Key, Value)>)
    requires DistinctKeyTexts(entries) && NormalEntries(entries).Some?
    ensures DistinctNames(NormalEntries(entries).value)
  {
    EntriesAt(entries);
  }

  function Names<T>(xs: seq<(string, T)>): set<string> {
    set i | 0 <= i < |xs| :: xs[i].0
  }

  /** With distinct names, having the same elements is having the same names, each with the same thing under it. */
  lemma SameElementsByName<T(!new)>(xs: seq<(string, T)>, ys: seq<(string, T)>)
    requires DistinctNames(xs) && DistinctNames(ys)
    ensures SameElements(xs, ys)
            <==> Names(xs) == Names(ys)
                 && forall i, j :: 0 <= i < |xs| && 0 <= j < |ys| && xs[i].0 == ys[j].0 ==> xs[i] == ys[j]
  {
    if SameElements(xs, ys) {
      forall i | 0 <= i < |xs| ensures xs[i].0 in Names(ys) {
        assert xs[i] in ys;
      }
      forall j | 0 <= j < |ys| ensures ys[j].0 in Names(xs) {
        assert ys[j] in xs;
      }
      forall i, j | 0 <= i < |xs| && 0 <= j < |ys| && xs[i].0 == ys[j].0 ensures xs[i] == ys[j] {
        assert xs[i] in ys;
      }
    } else if Names(xs) == Names(ys) {
      var x :| (x in xs) != (x in ys);
      if x in xs {
        var i :| 0 <= i < |xs| && xs[i] == x;
        assert xs[i].0 in Names(ys);
        var j :| 0 <= j < |ys| && ys[j].0 == x.0;
        assert xs[i].0 == ys[j].0 && xs[i] != ys[j];
      } else {
        var j :| 0 <= j < |ys| && ys[j] == x;
        assert ys[j].0 in Names(xs);
        var i :| 0 <= i < |xs| && xs[i].0 == x.0;
        assert xs[i].0 == ys[j].0 && xs[i] != ys[j];
      }
    }
  }

  lemma ArrangedEqualExactlyWhenSame(xs: seq<(string, Tree)>, ys: seq<(string, Tree)>)
    requires DistinctNames(xs) && DistinctNames(ys)
    ensures Arrange(xs) == Arrange(ys) <==> SameElements(xs, ys)
  {
    ArrangeSorts(xs);
    ArrangeSorts(ys);
    if SameElements(xs, ys) {
      assert SameElements(Arrange(xs), Arrange(ys));
      SortedIsUnique(Arrange(xs), Arrange(ys));
    }
  }

  lemma NamesAreKeyTexts(es: seq<(Key, Value)>)
    requires NormalEntries(es).Some?
    ensures Names(NormalEntries(es).value) == KeyTexts(es)
  {
    EntriesAt(es);
    var xs := NormalEntries(es).value;
    forall i | 0 <= i < |es| ensures KeyText(es[i].0) in Names(xs) && xs[i].0 in KeyTexts(es) {
      assert xs[i].0 == KeyText(es[i].0);
    }
  }

  lemma {:induction false} MapsAgree(a: Value, b: Value)
    requires Normal(a).Some? && Normal(b).Some? && a.MapV? && b.MapV?
    ensures Normal(a) == Normal(b) <==> Agrees(a, b)
    decreases a, 0
  {
    var es, fs := a.entries, b.entries;
    var xs, ys := NormalEntries(es).value, NormalEntries(fs).value;
    NamesFromKeys(es);
    NamesFromKeys(fs);
    NamesAreKeyTexts(es);
    NamesAreKeyTexts(fs);
    EntriesAt(es);
    EntriesAt(fs);
    forall i, j | 0 <= i < |es| && 0 <= j < |fs|
      ensures xs[i].1 == ys[j].1 <==> Agrees(es[i].1, fs[j].1)
    {
      NormalEqualsAgreement(es[i].1, fs[j].1);
    }
    SameElementsByName(xs, ys);
    ArrangedEqualExactlyWhenSame(xs, ys);
  }

  /** Two hashable values have equal canonical bytes exactly when they agree. */
  lemma BytesEqualExactlyWhenAgreeing(a: Value, b: Value)
    requires Normal(a).Some? && Normal(b).Some?
    ensures CanonicalBytes(Normal(a).value) == CanonicalBytes(Normal(b).value) <==> Agrees(a, b)
  {
    DecodesCanonicalBytes(Normal(a).value);
    DecodesCanonicalBytes(Normal(b).value);
    NormalEqualsAgreement(a, b);
  }
}
