/** Rebuilding a lookup result from the flat entry list of a MaxMind database: the list holds a
    value tree in pre-order, containers giving only their number of members. */
module Mmdb {
  import opened Common

  /** One element of the list. `Unhandled` stands for the types the program does not convert. */
  datatype Data =
    | Utf8(text: string)
    | Double(d: real)
    | Float(f: real)
    | Uint16(u: nat)
    | Uint32(u: nat)
    | Int32(i: int)
    | Boolean(b: bool)
    | MapOf(size: nat)
    | ArrayOf(size: nat)
    | Unhandled(kind: nat)

  datatype Json = Null | Bool(b: bool) | Int(i: int) | Num(r: real) | Str(s: string) | Arr(items: seq<Json>)
      | Obj(fields: map<string, Json>)

  function Scalar(d: Data): Json
    requires !d.MapOf? && !d.ArrayOf?
  {
    match d
    case Utf8(t) => Str(t)
    case Double(r) => Num(r)
    case Float(r) => Num(r)
    case Uint16(u) => Int(u)
    case Uint32(u) => Int(u)
    case Int32(i) => Int(i)
    case Boolean(b) => Bool(b)
    case Unhandled(_) => Null
  }

  // ----- what the conversion computes; position |list| is the null pointer

  function Decode(list: seq<Data>, entry: nat): (r: (nat, Json))
    requires entry <= |list|
    ensures r.0 <= |list| && (entry < |list| ==> entry < r.0)
    decreases |list| - entry, 1
  {
    if entry == |list| then (|list|, Null)
    else match list[entry]
      case ArrayOf(n) => var (e, items) := DecodeArray(list, entry + 1, n, []); (e, Arr(items))
      case MapOf(n) => var (e, fields) := DecodeMap(list, entry + 1, n, map[]); (e, Obj(fields))
      case d => (entry + 1, Scalar(d))
  }

  function DecodeArray(list: seq<Data>, entry: nat, size: nat, items: seq<Json>): (r: (nat, seq<Json>))
    requires entry <= |list|
    ensures entry <= r.0 <= |list|
    decreases |list| - entry, 2, size
  {
    if size == 0 || entry == |list| then (entry, items)
    else
      var (e, value) := Decode(list, entry);
      DecodeArray(list, e, size - 1, items + [value])
  }

  /** A key that is not a string ends the whole conversion; a key at the end of the list gets null. */
  function DecodeMap(list: seq<Data>, entry: nat, size: nat, fields: map<string, Json>): (r: (nat, map<string, Json>))
    requires entry <= |list|
    ensures entry <= r.0 <= |list|
    decreases |list| - entry, 2, size
  {
    if size == 0 || entry == |list| then (entry, fields)
    else if !list[entry].Utf8? then (|list|, fields)
    else
      var (e, value) := Decode(list, entry + 1);
      DecodeMap(list, e, size - 1, fields[list[entry].text := value])
  }

  /** The conversion as written, for any list, well formed or not. */
  method MmdbEntryToJson(list: seq<Data>, start: nat) returns (entry: nat, output: Json)
    requires start <= |list|
    ensures (entry, output) == Decode(list, start)
    ensures start == |list| ==> entry == start && output == Null
    ensures start < |list| && !list[start].MapOf? && !list[start].ArrayOf? ==> entry == start + 1
    ensures start < |list| && !list[start].MapOf? && !list[start].ArrayOf? ==>
              match list[start]
              case Utf8(text) => output == Str(text)
              case Double(d) => output == Num(d)
              case Float(f) => output == Num(f)
              case Uint16(u) => output == Int(u)
              case Uint32(u) => output == Int(u)
              case Int32(i) => output == Int(i)
              case Boolean(b) => output == Bool(b)
              case _ => output == Null
    decreases |list| - start
  {
    entry, output := start, Null;
    if start == |list| { return; }
    match list[start] {
      case MapOf(n) =>
        var fields: map<string, Json> := map[];
        var size := n;
        entry := start + 1;
        while size > 0 && entry < |list|
          invariant start < entry <= |list|
          invariant DecodeMap(list, start + 1, n, map[]) == DecodeMap(list, entry, size, fields)
          decreases size
        {
          if !list[entry].Utf8? { return |list|, Obj(fields); }
          var key := list[entry].text;
          var value;
          entry, value := MmdbEntryToJson(list, entry + 1);
          fields := fields[key := value];
          size := size - 1;
        }
        output := Obj(fields);
      case ArrayOf(n) =>
        var items: seq<Json> := [];
        var size := n;
        entry := start + 1;
        while size > 0 && entry < |list|
          invariant start < entry <= |list|
          invariant DecodeArray(list, start + 1, n, []) == DecodeArray(list, entry, size, items)
          decreases size
        {
          var value;
          entry, value := MmdbEntryToJson(list, entry);
          items := items + [value];
          size := size - 1;
        }
        output := Arr(items);
      case d =>
        output := Scalar(d);
        entry := start + 1;
    }
  }

  // ----- value trees and their pre-order lists

  datatype Value = Leaf(d: Data) | List(items: seq<Value>) | Map(members: seq<Member>)

  datatype Member = Member(key: string, value: Value)

  /** Leaves hold no container heads. */
  ghost predicate Proper(v: Value) {
    match v
    case Leaf(d) => !d.MapOf? && !d.ArrayOf?
    case List(items) => forall i :: 0 <= i < |items| ==> Proper(items[i])
    case Map(members) => forall i :: 0 <= i < |members| ==> Proper(members[i].value)
  }

  function Flatten(v: Value): seq<Data> {
    match v
    case Leaf(d) => [d]
    case List(items) => [ArrayOf(|items|)] + FlattenItems(items)
    case Map(members) => [MapOf(|members|)] + FlattenMembers(members)
  }

  function FlattenItems(items: seq<Value>): seq<Data> {
    if items == [] then [] else Flatten(items[0]) + FlattenItems(items[1..])
  }

  function FlattenMembers(members: seq<Member>): seq<Data> {
    if members == [] then []
    else [Utf8(members[0].key)] + (Flatten(members[0].value) + FlattenMembers(members[1..]))
  }

  /** The JSON a tree means; of members with the same key the last one counts. */
  function Meaning(v: Value): Json
    requires Proper(v)
  {
    match v
    case Leaf(d) => Scalar(d)
    case List(items) => Arr(MeaningOfItems(items))
    case Map(members) => Obj(MeaningOfMembers(members, map[]))
  }

  function MeaningOfItems(items: seq<Value>): (r: seq<Json>)
    requires forall i :: 0 <= i < |items| ==> Proper(items[i])
    ensures |r| == |items| && forall i :: 0 <= i < |items| ==> r[i] == Meaning(items[i])
  {
    if items == [] then [] else [Meaning(items[0])] + MeaningOfItems(items[1..])
  }

  function MeaningOfMembers(members: seq<Member>, fields: map<string, Json>): map<string, Json>
    requires forall i :: 0 <= i < |members| ==> Proper(members[i].value)
  {
    if members == [] then fields
    else MeaningOfMembers(members[1..], fields[members[0].key := Meaning(members[0].value)])
  }

  /** With distinct keys every member becomes a field, and nothing else does. */
  lemma {:induction false} DistinctKeysKeepAll(members: seq<Member>, fields: map<string, Json>)
    requires forall i :: 0 <= i < |members| ==> Proper(members[i].value)
    requires forall i, j :: 0 <= i < j < |members| ==> members[i].key != members[j].key
    requires forall i :: 0 <= i < |members| ==> members[i].key !in fields
    ensures var r := MeaningOfMembers(members, fields);
            && (forall i :: 0 <= i < |members| ==>
                members[i].key in r && r[members[i].key] == Meaning(members[i].value))
            && (forall k :: k in fields ==> k in r && r[k] == fields[k])
            && (forall k :: k in r ==> k in fields || exists i :: 0 <= i < |members| && members[i].key == k)
    decreases |members|
  {
    if members != [] {
      var rest := members[1..];
      DistinctKeysKeepAll(rest, fields[members[0].key := Meaning(members[0].value)]);
      assert forall i :: 1 <= i < |members| ==> members[i] == rest[i - 1];
    }
  }

  /** Wherever the pre-order list of a tree stands, converting from there rebuilds the tree's
      meaning and returns the position right after it. */
  lemma {:induction false} Rebuilds(v: Value, list: seq<Data>, at: nat)
    requires Proper(v) && StandsAt(list, at, Flatten(v))
    ensures Decode(list, at) == (at + |Flatten(v)|, Meaning(v))
    decreases v, 1
  {
    assert list[at] == Flatten(v)[0];
    match v {
      case Leaf(d) =>
      case List(items) =>
        StandsSplit(list, at, [ArrayOf(|items|)], FlattenItems(items));
        RebuildsItems(items, list, at + 1, []);
        assert [] + MeaningOfItems(items) == MeaningOfItems(items);
      case Map(members) =>
        StandsSplit(list, at, [MapOf(|members|)], FlattenMembers(members));
        RebuildsMembers(members, list, at + 1, map[]);
    }
  }

  lemma {:induction false} RebuildsItems(items: seq<Value>, list: seq<Data>, at: nat, done: seq<Json>)
    requires forall i :: 0 <= i < |items| ==> Proper(items[i])
    requires StandsAt(list, at, FlattenItems(items))
    ensures DecodeArray(list, at, |items|, done) == (at + |FlattenItems(items)|, done + MeaningOfItems(items))
    decreases items, 0
  {
    if items == [] {
      assert done + [] == done;
    } else {
      StandsSplit(list, at, Flatten(items[0]), FlattenItems(items[1..]));
      Rebuilds(items[0], list, at);
      RebuildsItems(items[1..], list, at + |Flatten(items[0])|, done + [Meaning(items[0])]);
      assert done + [Meaning(items[0])] + MeaningOfItems(items[1..]) == done + MeaningOfItems(items);
    }
  }

  lemma {:induction false} RebuildsMembers(members: seq<Member>, list: seq<Data>, at: nat, fields: map<string, Json>)
    requires forall i :: 0 <= i < |members| ==> Proper(members[i].value)
    requires StandsAt(list, at, FlattenMembers(members))
    ensures DecodeMap(list, at, |members|, fields) ==
              (at + |FlattenMembers(members)|, MeaningOfMembers(members, fields))
    decreases members, 0
  {
    if members != [] {
      var Member(key, value) := members[0];
      var tail := Flatten(value) + FlattenMembers(members[1..]);
      StandsSplit(list, at, [Utf8(key)], tail);
      assert list[at] == [Utf8(key)][0];
      StandsSplit(list, at + 1, Flatten(value), FlattenMembers(members[1..]));
      Rebuilds(value, list, at + 1);
      RebuildsMembers(members[1..], list, at + 1 + |Flatten(value)|, fields[key := Meaning(value)]);
    }
  }

  /** The tree followed by anything at all: the conversion returns the tree and the rest. */
  lemma RoundTrip(v: Value, rest: seq<Data>)
    requires Proper(v)
    ensures var (entry, output) := Decode(Flatten(v) + rest, 0);
            output == Meaning(v) && (Flatten(v) + rest)[entry..] == rest
  {
    Rebuilds(v, Flatten(v) + rest, 0);
  }
}
