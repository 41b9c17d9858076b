/** The conversion to nested arrays as the source runs it: duplicate keys refused, then keys in order. */
module CanonicalHash {
  import opened Basics
  import opened CanonicalText
  import opened CanonicalTree
  import opened CanonicalReference

  function Hashed(t: Option<Tree>): Option<Json> {
    if t.None? then None else Some(Reify(t.value))
  }

  function Renamed(entries: seq<(Key, Value)>): seq<(string, Value)> {
    seq(|entries|, i requires 0 <= i < |entries| => (KeyText(entries[i].0), entries[i].1))
  }

  /** Rebuilds a mapping under its keys' text, in the order of the keys, and refuses a repeated one. */
  method ConvertKeys(entries: seq<(Key, Value)>) returns (converted: Option<seq<(string, Value)>>)
    ensures converted == if DistinctKeyTexts(entries) then Some(Renamed(entries)) else None
  {
    var taken: map<string, Value> := map[];
    var pairs: seq<(string, Value)> := [];
    var i := 0;
    while i < |entries|
      invariant 0 <= i <= |entries|
      invariant DistinctKeyTexts(entries[..i])
      invariant pairs == Renamed(entries[..i])
      invariant forall k :: k in taken <==> exists j :: 0 <= j < i && KeyText(entries[j].0) == k
    {
      var key := KeyText(entries[i].0);
      if key in taken {
        var j :| 0 <= j < i && KeyText(entries[j].0) == key;
        return None;
      }
      assert entries[..i + 1] == entries[..i] + [entries[i]];
      taken := taken[key := entries[i].1];
      pairs := pairs + [(key, entries[i].1)];
      i := i + 1;
    }
    assert entries[..i] == entries;
    return Some(pairs);
  }

  ghost predicate AllHash(pairs: seq<(string, Value)>) {
    forall i :: 0 <= i < |pairs| ==> Normal(pairs[i].1).Some?
  }

  ghost function Trees(pairs: seq<(string, Value)>): seq<(string, Tree)>
    requires AllHash(pairs)
  {
    seq(|pairs|, i requires 0 <= i < |pairs| => (pairs[i].0, Normal(pairs[i].1).value))
  }

  lemma AllHashIgnoresOrder(xs: seq<(string, Value)>, ys: seq<(string, Value)>)
    requires SameElements(xs, ys) && AllHash(xs)
    ensures AllHash(ys)
  {
    forall i | 0 <= i < |ys| ensures Normal(ys[i].1).Some? {
      assert ys[i] in xs;
    }
  }

  lemma TreesKeepElements(xs: seq<(string, Value)>, ys: seq<(string, Value)>)
    requires SameElements(xs, ys) && AllHash(xs) && AllHash(ys)
    ensures forall t :: t in Trees(xs) ==> t in Trees(ys)
  {
    forall t | t in Trees(xs) ensures t in Trees(ys) {
      var i :| 0 <= i < |xs| && Trees(xs)[i] == t;
      assert xs[i] in ys;
      var j :| 0 <= j < |ys| && ys[j] == xs[i];
      assert Trees(ys)[j] == t;
    }
  }

  lemma EntriesAreTrees(entries: seq<(Key, Value)>)
    ensures NormalEntries(entries).Some? <==> AllHash(Renamed(entries))
    ensures NormalEntries(entries).Some? ==> NormalEntries(entries).value == Trees(Renamed(entries))
  {
    EntriesAt(entries);
    assert forall i :: 0 <= i < |entries| ==> Renamed(entries)[i].1 == entries[i].1;
  }

  /** Converting the values after sorting the keys gives what sorting the converted entries gives. */
  lemma SortingCommutes(entries: seq<(Key, Value)>)
    requires DistinctKeyTexts(entries)
    ensures NormalEntries(entries).Some? <==> AllHash(Arrange(Renamed(entries)))
    ensures NormalEntries(entries).Some? ==> Trees(Arrange(Renamed(entries))) == Arrange(NormalEntries(entries).value)
  {
    var pairs := Renamed(entries);
    var ordered := Arrange(pairs);
    ArrangeSorts(pairs);
    EntriesAreTrees(entries);
    if AllHash(pairs) {
      AllHashIgnoresOrder(pairs, ordered);
      TreesKeepElements(pairs, ordered);
      TreesKeepElements(ordered, pairs);
      ArrangeSorts(Trees(pairs));
      SortedIsUnique(Trees(ordered), Arrange(Trees(pairs)));
    } else if AllHash(ordered) {
      AllHashIgnoresOrder(ordered, pairs);
    }
  }

  lemma RenamedValuesAreSmaller(entries: seq<(Key, Value)>, v: Value, k: nat)
    requires v == MapV(entries) && DistinctKeyTexts(entries) && k < |Arrange(Renamed(entries))|
    ensures v decreases to Arrange(Renamed(entries))[k].1
  {
    ArrangeSorts(Renamed(entries));
    assert Arrange(Renamed(entries))[k] in Renamed(entries);
    var i :| 0 <= i < |entries| && Renamed(entries)[i] == Arrange(Renamed(entries))[k];
    assert v decreases to entries[i];
    assert entries[i] decreases to entries[i].1;
  }

  /** The nested arrays print as the reference text, and there are none exactly where the reference has none. */
  lemma TreeMeetsReference(v: Value)
    ensures Hashed(Normal(v)).Some? ==> IsTextOf(Print(Hashed(Normal(v)).value), v)
    ensures Hashed(Normal(v)).None? ==> forall s :: !IsTextOf(s, v)
  {
    MeetsReference(v);
  }

  /** The typed tree as nested arrays, or nothing where the source raises. */
  method HashTree(v: Value) returns (r: Option<Json>)
    ensures r == Hashed(Normal(v))
    decreases v
  {
    match v {
      case NullV => r := Some(JArray([JString("null")]));
      case BoolV(flag) => r := Some(JArray([JString("boolean"), JBool(flag)]));
      case IntV(number) => r := Some(JArray([JString("integer"), JString(Decimal(number))]));
      case FloatV(bits) =>
        if !Finite(bits) {
          return None;
        }
        r := Some(JArray([JString("float64"), JString(Hex(Unsigned(bits), 16))]));
      case TextV(text) => r := Some(JArray([JString("string"), JString(text)]));
      case EnumV(name) => r := Some(JArray([JString("string"), JString(name)]));
      case DateTimeV(utcText) =>
        if utcText.None? {
          return None;
        }
        r := Some(JArray([JString("string"), JString(utcText.value)]));
      case MapV(entries) =>
        r := HashMapping(entries, v);
      case ListV(items) =>
        r := HashItems(items, v);
      case TupleV(items) =>
        r := HashItems(items, v);
      case OtherV => r := None;
    }
  }

  /** The members converted so far. */
  ghost predicate Converted(ordered: seq<(string, Value)>, members: seq<Json>) {
    |members| <= |ordered|
    && forall i :: 0 <= i < |members| ==>
         Normal(ordered[i].1).Some? && members[i] == ReifyMember((ordered[i].0, Normal(ordered[i].1).value))
  }

  lemma ConvertedGrows(ordered: seq<(string, Value)>, members: seq<Json>, item: Json)
    requires Converted(ordered, members) && |members| < |ordered|
    requires Hashed(Normal(ordered[|members|].1)) == Some(item)
    ensures Converted(ordered, members + [JArray([JString(ordered[|members|].0), item])])
  {
  }

  lemma MembersAreReified(ordered: seq<(string, Value)>, members: seq<Json>)
    requires Converted(ordered, members) && |members| == |ordered|
    ensures AllHash(ordered) && members == ReifyMembers(Trees(ordered))
  {
    ReifyMembersAt(Trees(ordered));
  }

  /** Converts the members of a mapping in the order of their names. */
  method HashMembers(entries: seq<(Key, Value)>, ordered: seq<(string, Value)>, ghost v: Value) returns (r: Option<seq<Json>>)
    requires v == MapV(entries) && DistinctKeyTexts(entries) && ordered == Arrange(Renamed(entries))
    ensures r == if AllHash(ordered) then Some(ReifyMembers(Trees(ordered))) else None
    decreases v, 0
  {
    var members: seq<Json> := [];
    var k := 0;
    while k < |ordered|
      invariant 0 <= k == |members| <= |ordered|
      invariant Converted(ordered, members)
    {
      RenamedValuesAreSmaller(entries, v, k);
      var item := HashTree(ordered[k].1);
      if item.None? {
        return None;
      }
      ConvertedGrows(ordered, members, item.value);
      members := members + [JArray([JString(ordered[k].0), item.value])];
      k := k + 1;
    }
    MembersAreReified(ordered, members);
    return Some(members);
  }

  method HashMapping(entries: seq<(Key, Value)>, ghost v: Value) returns (r: Option<Json>)
    requires v == MapV(entries)
    ensures r == Hashed(Normal(v))
    decreases v, 1
  {
    var converted := ConvertKeys(entries);
    if converted.None? {
      return None;
    }
    SortingCommutes(entries);
    var members := HashMembers(entries, Arrange(converted.value), v);
    return if members.Some? then Some(JArray([JString("object"), JArray(members.value)])) else None;
  }

  method HashItems(items: seq<Value>, ghost v: Value) returns (r: Option<Json>)
    requires v == ListV(items) || v == TupleV(items)
    ensures r == Hashed(Normal(v))
    decreases v, 0
  {
    ItemsAt(items);
    var elements: seq<Json> := [];
    var k := 0;
    while k < |items|
      invariant 0 <= k == |elements| <= |items|
      invariant forall i :: 0 <= i < k ==> Normal(items[i]).Some? && elements[i] == Reify(Normal(items[i]).value)
    {
      var item := HashTree(items[k]);
      if item.None? {
        return None;
      }
      elements := elements + [item.value];
      k := k + 1;
    }
    ReifyElementsAt(NormalItems(items).value);
    assert elements == ReifyElements(NormalItems(items).value);
    return Some(JArray([JString("array"), JArray(elements)]));
  }

  /** The bytes whose SHA-256 identifies a protocol value. */
  method CanonicalHashBytes(v: Value) returns (b: Option<seq<Byte>>)
    ensures b == if Normal(v).None? then None else Some(CanonicalBytes(Normal(v).value))
    ensures b.Some? ==> exists s :: IsTextOf(s, v) && b.value == Utf8(s)
    ensures b.None? ==> forall s :: !IsTextOf(s, v)
  {
    MeetsReference(v);
    assert Normal(v).Some? ==> IsTextOf(TextOfValue(v), v);
    var tree := HashTree(v);
    if tree.None? {
      return None;
    }
    return Some(Utf8(Print(tree.value)));
  }
}
