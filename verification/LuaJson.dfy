/** Conversions between JSON values and Lua values: what each accepts, and that a JSON value
    comes back unchanged exactly when it is shallow enough and Lua can hold its numbers. */
module LuaJson {
  import opened Common

  const MAX_DEPTH := 256
  const INT64_MAX := 0x7fff_ffff_ffff_ffff

  /** A floating-point number, as a real unless it is an infinity or NaN. */
  datatype Number = Finite(r: real) | NonFinite

  /** `Int` is either integer kind of the JSON library: signed or unsigned 64-bit. */
  datatype Json =
    | Null | Bool(b: bool) | Int(i: int) | Float(x: Number) | Str(s: string)
    | Arr(items: seq<Json>) | Obj(fields: map<string, Json>) | Binary

  datatype Key = IntKey(i: int) | NumberKey(r: real) | StringKey(s: string) | OtherKey(id: int)

  /** A table is its entries and whether it carries the array tag. */
  datatype Lua =
    | Nil | LBool(b: bool) | LInt(i: int) | LFloat(x: Number) | LString(s: string)
    | Light(isNull: bool) | Table(entries: map<Key, Lua>, tagged: bool) | Foreign

  datatype Error = TooDeep | Unsupported | Sparse | BadKey

  // ----- JSON to Lua

  /** No container sits deeper than n levels. */
  ghost predicate Within(j: Json, n: int) {
    match j
    case Arr(items) => n > 0 && forall i :: 0 <= i < |items| ==> Within(items[i], n - 1)
    case Obj(fields) => n > 0 && forall k :: k in fields ==> Within(fields[k], n - 1)
    case _ => true
  }

  ghost predicate HasBinary(j: Json) {
    match j
    case Arr(items) => exists i :: 0 <= i < |items| && HasBinary(items[i])
    case Obj(fields) => exists k :: k in fields && HasBinary(fields[k])
    case Binary => true
    case _ => false
  }

  function LuaInt(i: int): Lua { if i > INT64_MAX then LFloat(Finite(i as real)) else LInt(i) }

  /** The numbers 1..n as keys. */
  function FirstKeys(n: nat): (r: set<Key>)
    ensures |r| == n && forall k :: k in r <==> k.IntKey? && 1 <= k.i <= n
  {
    if n == 0 then {} else FirstKeys(n - 1) + {IntKey(n)}
  }

  function StringKeys(names: set<string>): (r: set<Key>)
    ensures forall k :: k in r <==> k.StringKey? && k.s in names
  {
    set s | s in names :: StringKey(s)
  }

  /** The Lua value of a JSON value; null becomes a sentinel, since nil in a table is no entry at all. */
  function LuaOf(j: Json): Lua {
    match j
    case Null => Light(true)
    case Bool(b) => LBool(b)
    case Int(i) => LuaInt(i)
    case Float(x) => LFloat(x)
    case Str(s) => LString(s)
    case Arr(items) => Table(map k | k in FirstKeys(|items|) :: LuaOf(items[k.i - 1]), true)
    case Obj(fields) => Table(map k | k in StringKeys(fields.Keys) :: LuaOf(fields[k.s]), false)
    case Binary => Nil
  }

  /** The table holds the first n items under the keys 1..n. */
  ghost predicate HoldsItems(entries: map<Key, Lua>, items: seq<Json>, n: nat) {
    && n <= |items|
    && (forall k :: k in entries <==> k.IntKey? && 1 <= k.i <= n)
    && (forall k :: k in entries ==> entries[k] == LuaOf(items[k.i - 1]))
  }

  /** The table holds the named fields under their names. */
  ghost predicate HoldsFields(entries: map<Key, Lua>, fields: map<string, Json>, names: set<string>) {
    && names <= fields.Keys
    && (forall k :: k in entries <==> k.StringKey? && k.s in names)
    && (forall k :: k in entries ==> entries[k] == LuaOf(fields[k.s]))
  }

  lemma ItemsTable(entries: map<Key, Lua>, items: seq<Json>)
    ensures HoldsItems(LuaOf(Arr(items)).entries, items, |items|)
    ensures HoldsItems(entries, items, |items|) ==> LuaOf(Arr(items)) == Table(entries, true)
  {
    var whole := LuaOf(Arr(items)).entries;
    forall k ensures k in whole <==> k.IntKey? && 1 <= k.i <= |items| {}
    if HoldsItems(entries, items, |items|) {
      assert entries.Keys == whole.Keys;
      assert entries == whole;
    }
  }

  lemma FieldsTable(entries: map<Key, Lua>, fields: map<string, Json>)
    ensures HoldsFields(LuaOf(Obj(fields)).entries, fields, fields.Keys)
    ensures HoldsFields(entries, fields, fields.Keys) ==> LuaOf(Obj(fields)) == Table(entries, false)
  {
    var whole := LuaOf(Obj(fields)).entries;
    forall k ensures k in whole <==> k.StringKey? && k.s in fields {}
    if HoldsFields(entries, fields, fields.Keys) {
      assert entries.Keys == whole.Keys;
      assert entries == whole;
    }
  }

  lemma ItemsEntries(items: seq<Json>) returns (entries: map<Key, Lua>)
    ensures LuaOf(Arr(items)) == Table(entries, true) && HoldsItems(entries, items, |items|)
  {
    entries := LuaOf(Arr(items)).entries;
    ItemsTable(entries, items);
  }

  lemma FieldsEntries(fields: map<string, Json>) returns (entries: map<Key, Lua>)
    ensures LuaOf(Obj(fields)) == Table(entries, false) && HoldsFields(entries, fields, fields.Keys)
  {
    entries := LuaOf(Obj(fields)).entries;
    FieldsTable(entries, fields);
  }

  /** The conversion as written: it fills a fresh table and fails on the first bad member. */
  method ToLua(j: Json, depth: nat) returns (r: Result<Lua, Error>)
    ensures r.Ok? <==> Within(j, MAX_DEPTH - depth) && !HasBinary(j)
    ensures match j
            case Null => r == Ok(Light(true))
            case Bool(b) => r == Ok(LBool(b))
            case Int(i) => r == Ok(if i < 0x8000_0000_0000_0000 then LInt(i) else LFloat(Finite(i as real)))
            case Float(x) => r == Ok(LFloat(x))
            case Str(s) => r == Ok(LString(s))
            case _ => true
    ensures r.Ok? ==> r.value == LuaOf(j)
    ensures r == Err(TooDeep) ==> !Within(j, MAX_DEPTH - depth)
    ensures r.Err? && r != Err(TooDeep) ==> r == Err(Unsupported) && HasBinary(j)
    decreases j, 1
  {
    match j {
      case Null => return Ok(Light(true));
      case Bool(b) => return Ok(LBool(b));
      case Int(i) => return Ok(LuaInt(i));
      case Float(x) => return Ok(LFloat(x));
      case Str(s) => return Ok(LString(s));
      case Binary => return Err(Unsupported);
      case Arr(_) => r := ToLuaArray(j, depth);
      case Obj(_) => r := ToLuaObject(j, depth);
    }
  }

  method ToLuaArray(j: Json, depth: nat) returns (r: Result<Lua, Error>)
    requires j.Arr?
    ensures r.Ok? <==> Within(j, MAX_DEPTH - depth) && !HasBinary(j)
    ensures r.Ok? ==> r.value == LuaOf(j)
    ensures r == Err(TooDeep) ==> !Within(j, MAX_DEPTH - depth)
    ensures r.Err? && r != Err(TooDeep) ==> r == Err(Unsupported) && HasBinary(j)
    decreases j, 0
  {
    hide LuaOf;
    if depth >= MAX_DEPTH { return Err(TooDeep); }
    var out: map<Key, Lua> := map[];
    for i := 0 to |j.items|
      invariant HoldsItems(out, j.items, i)
      invariant forall x :: 0 <= x < i ==> Within(j.items[x], MAX_DEPTH - depth - 1) && !HasBinary(j.items[x])
    {
      var item := ToLua(j.items[i], depth + 1);
      if item.Err? { return item; }
      out := out[IntKey(i + 1) := item.value];
    }
    ItemsTable(out, j.items);
    return Ok(Table(out, true));
  }

  method ToLuaObject(j: Json, depth: nat) returns (r: Result<Lua, Error>)
    requires j.Obj?
    ensures r.Ok? <==> Within(j, MAX_DEPTH - depth) && !HasBinary(j)
    ensures r.Ok? ==> r.value == LuaOf(j)
    ensures r == Err(TooDeep) ==> !Within(j, MAX_DEPTH - depth)
    ensures r.Err? && r != Err(TooDeep) ==> r == Err(Unsupported) && HasBinary(j)
    decreases j, 0
  {
    hide LuaOf;
    if depth >= MAX_DEPTH { return Err(TooDeep); }
    var out: map<Key, Lua> := map[];
    var todo := j.fields.Keys;
    while todo != {}
      invariant todo <= j.fields.Keys && HoldsFields(out, j.fields, j.fields.Keys - todo)
      invariant forall k :: k in j.fields && k !in todo ==>
                Within(j.fields[k], MAX_DEPTH - depth - 1) && !HasBinary(j.fields[k])
      decreases todo
    {
      var k :| k in todo;
      var value := ToLua(j.fields[k], depth + 1);
      if value.Err? { return value; }
      out := out[StringKey(k) := value.value];
      todo := todo - {k};
    }
    assert j.fields.Keys - todo == j.fields.Keys;
    FieldsTable(out, j.fields);
    return Ok(Table(out, false));
  }

  // ----- Lua to JSON

  /** Every key is an integer from one up. */
  ghost predicate PositiveKeys(entries: map<Key, Lua>) { forall k :: k in entries ==> k.IntKey? && k.i >= 1 }

  /** The keys are exactly 1..n. */
  ghost predicate Dense(entries: map<Key, Lua>) {
    PositiveKeys(entries) && forall i :: 1 <= i <= |entries| ==> IntKey(i) in entries
  }

  /** What can be encoded: containers within depth; a table is either a dense array or has only string keys. */
  ghost predicate Encodable(l: Lua, depth: nat) {
    match l
    case LFloat(x) => x.Finite?
    case Light(isNull) => isNull
    case Table(entries, _) =>
      && depth < MAX_DEPTH
      && (Dense(entries) || forall k :: k in entries ==> k.StringKey?)
      && forall k :: k in entries ==> Encodable(entries[k], depth + 1)
    case Foreign => false
    case _ => true
  }

  ghost function Names(keys: set<Key>): (r: set<string>)
    ensures forall s :: s in r <==> StringKey(s) in keys
  {
    set k | k in keys && k.StringKey? :: k.s
  }

  ghost function JsonOf(l: Lua): Json {
    match l
    case Nil => Null
    case LBool(b) => Bool(b)
    case LInt(i) => Int(i)
    case LFloat(x) => Float(x)
    case LString(s) => Str(s)
    case Light(_) => Null
    case Table(entries, tagged) =>
      if |entries| == 0 then if tagged then Arr([]) else Obj(map[])
      else if Dense(entries) then Arr(seq(|entries|, i requires 0 <= i < |entries| => JsonOf(entries[IntKey(i + 1)])))
      else Obj(map s | s in Names(entries.Keys) :: JsonOf(entries[StringKey(s)]))
    case Foreign => Null
  }

  lemma SubsetOfSameSize<T>(a: set<T>, b: set<T>)
    requires a <= b && |a| == |b|
    ensures a == b
  {
    assert |b - a| == |b| - |a|;
  }

  lemma SubsetIsSmaller<T>(a: set<T>, b: set<T>)
    requires a <= b
    ensures |a| <= |b|
  {
    assert |b - a| == |b| - |a|;
  }

  /** Keys from one up with a maximum equal to their number leave no gap, and conversely. */
  lemma DenseIffMaxIsCount(entries: map<Key, Lua>, max: int)
    requires PositiveKeys(entries) && entries != map[]
    requires IntKey(max) in entries && forall k :: k in entries ==> k.i <= max
    ensures max == |entries| <==> Dense(entries)
  {
    var all := FirstKeys(max);
    assert entries.Keys <= all;
    SubsetIsSmaller(entries.Keys, all);
    if max == |entries| {
      SubsetOfSameSize(entries.Keys, all);
    }
    if Dense(entries) { DenseKeys(entries); }
  }

  /** The scan over the keys: are they all integers from one up, how many, and which is largest. */
  method ScanKeys(entries: map<Key, Lua>) returns (allIntegers: bool, count: nat, maxIndex: int)
    ensures allIntegers <==> PositiveKeys(entries)
    ensures count == |entries|
    ensures allIntegers && count > 0 ==> (maxIndex == count <==> Dense(entries))
    ensures maxIndex >= 0
  {
    allIntegers, count, maxIndex := true, 0, 0;
    var todo := entries.Keys;
    while todo != {}
      invariant todo <= entries.Keys && count + |todo| == |entries| && maxIndex >= 0
      invariant allIntegers <==> forall k :: k in entries && k !in todo ==> k.IntKey? && k.i >= 1
      invariant allIntegers ==> forall k :: k in entries && k !in todo ==> k.i <= maxIndex
      invariant maxIndex > 0 ==> IntKey(maxIndex) in entries
      invariant allIntegers && count > 0 ==> maxIndex > 0
      decreases todo
    {
      var k :| k in todo;
      count := count + 1;
      if k.IntKey? {
        if k.i < 1 { allIntegers := false; } else if k.i > maxIndex { maxIndex := k.i; }
      } else {
        allIntegers := false;
      }
      todo := todo - {k};
    }
    if allIntegers && count > 0 { DenseIffMaxIsCount(entries, maxIndex); }
  }

  lemma DenseKeys(entries: map<Key, Lua>)
    requires Dense(entries)
    ensures forall k :: k in entries ==> k.IntKey? && 1 <= k.i <= |entries|
  {
    var some := FirstKeys(|entries|);
    assert some <= entries.Keys;
    SubsetOfSameSize(some, entries.Keys);
  }

  /** What a dense table converts to, key by key. */
  lemma ArrayJson(l: Lua, out: seq<Json>)
    requires l.Table? && |l.entries| == |out| > 0 && Dense(l.entries)
    requires forall k :: k in l.entries ==> k.IntKey? && 1 <= k.i <= |out|
    ensures JsonOf(l) == Arr(out) <==> forall k :: k in l.entries ==> out[k.i - 1] == JsonOf(l.entries[k])
  {
    var items := seq(|out|, i requires 0 <= i < |out| => JsonOf(l.entries[IntKey(i + 1)]));
    assert JsonOf(l) == Arr(items);
    SameItems(l.entries, items, out);
  }

  lemma SameItems(entries: map<Key, Lua>, items: seq<Json>, out: seq<Json>)
    requires |items| == |out| == |entries| && Dense(entries)
    requires forall k :: k in entries ==> k.IntKey? && 1 <= k.i <= |out|
    requires forall x {:trigger items[x]} :: 0 <= x < |out| ==> items[x] == JsonOf(entries[IntKey(x + 1)])
    ensures items == out <==> forall k :: k in entries ==> out[k.i - 1] == JsonOf(entries[k])
  {}

  /** What any other table converts to, name by name. */
  lemma ObjectJson(l: Lua, out: map<string, Json>)
    requires l.Table? && |l.entries| > 0 && !Dense(l.entries)
    requires forall s :: s in out <==> StringKey(s) in l.entries
    ensures JsonOf(l) == Obj(out) <==> forall s :: s in out ==> out[s] == JsonOf(l.entries[StringKey(s)])
  {}

  /** The error has its cause in the value: a table too deep, one with a gap in its numbers, one with a name that is no
      string, or something JSON has no value for. */
  ghost predicate Faulty(l: Lua, depth: nat, e: Error) {
    match l
    case LFloat(x) => e == Unsupported && x == NonFinite
    case Light(isNull) => e == Unsupported && !isNull
    case Foreign => e == Unsupported
    case Table(entries, _) =>
      if depth >= MAX_DEPTH then e == TooDeep
      else
        || (e == Sparse && PositiveKeys(entries) && !Dense(entries))
        || (e == BadKey && !PositiveKeys(entries) && exists k :: k in entries && !k.StringKey?)
        || exists k :: k in entries && Faulty(entries[k], depth + 1, e)
    case _ => false
  }

  method ToJson(l: Lua, depth: nat) returns (r: Result<Json, Error>)
    ensures r.Ok? <==> Encodable(l, depth)
    ensures r.Ok? ==> r.value == JsonOf(l)
    ensures r.Err? ==> Faulty(l, depth, r.error)
    ensures l.Nil? || l == Light(true) ==> r == Ok(Null)
    decreases l, 1
  {
    match l {
      case Nil => return Ok(Null);
      case LBool(b) => return Ok(Bool(b));
      case LInt(i) => return Ok(Int(i));
      case LFloat(x) => return if x.Finite? then Ok(Float(x)) else Err(Unsupported);
      case LString(s) => return Ok(Str(s));
      case Light(isNull) => return if isNull then Ok(Null) else Err(Unsupported);
      case Table(_, _) => r := ConvertTable(l, depth);
      case Foreign => return Err(Unsupported);
    }
  }

  method ConvertTable(l: Lua, depth: nat) returns (r: Result<Json, Error>)
    requires l.Table?
    ensures r.Ok? <==> Encodable(l, depth)
    ensures r.Ok? ==> r.value == JsonOf(l)
    ensures r.Err? ==> Faulty(l, depth, r.error)
    decreases l, 0, 1
  {
    if depth >= MAX_DEPTH { return Err(TooDeep); }
    var allIntegers, count, maxIndex := ScanKeys(l.entries);
    if count == 0 {
      return Ok(if l.tagged then Arr([]) else Obj(map[]));
    }
    if !allIntegers {
      r := ConvertObject(l, depth);
    } else if maxIndex != count {
      return Err(Sparse);
    } else {
      r := ConvertArray(l, maxIndex, depth);
    }
  }

  method ConvertArray(l: Lua, maxIndex: nat, depth: nat) returns (r: Result<Json, Error>)
    requires l.Table? && depth < MAX_DEPTH
    requires maxIndex == |l.entries| > 0 && Dense(l.entries)
    ensures r.Ok? <==> Encodable(l, depth)
    ensures r.Ok? ==> r.value == JsonOf(l)
    ensures r.Err? ==> Faulty(l, depth, r.error)
    decreases l, 0, 0
  {
    hide JsonOf;
    DenseKeys(l.entries);
    var out: seq<Json> := [];
    for i := 0 to maxIndex
      invariant |out| == i
      invariant forall k :: k in l.entries && k.i <= i ==>
                Encodable(l.entries[k], depth + 1) && out[k.i - 1] == JsonOf(l.entries[k])
    {
      var item := ToJson(l.entries[IntKey(i + 1)], depth + 1);
      if item.Err? { return item; }
      out := out + [item.value];
    }
    ArrayJson(l, out);
    return Ok(Arr(out));
  }

  method ConvertObject(l: Lua, depth: nat) returns (r: Result<Json, Error>)
    requires l.Table? && depth < MAX_DEPTH
    requires |l.entries| > 0 && !PositiveKeys(l.entries)
    ensures r.Ok? <==> Encodable(l, depth)
    ensures r.Ok? ==> r.value == JsonOf(l)
    ensures r.Err? ==> Faulty(l, depth, r.error)
    decreases l, 0, 0
  {
    hide JsonOf;
    var out: map<string, Json> := map[];
    var todo := l.entries.Keys;
    while todo != {}
      invariant todo <= l.entries.Keys
      invariant forall k :: k in l.entries && k !in todo ==> k.StringKey? && Encodable(l.entries[k], depth + 1)
      invariant forall s :: s in out <==> StringKey(s) in l.entries && StringKey(s) !in todo
      invariant forall s :: s in out ==> out[s] == JsonOf(l.entries[StringKey(s)])
      decreases todo
    {
      var k :| k in todo;
      if !k.StringKey? { return Err(BadKey); }
      var value := ToJson(l.entries[k], depth + 1);
      if value.Err? { return value; }
      out := out[k.s := value.value];
      todo := todo - {k};
    }
    ObjectJson(l, out);
    return Ok(Obj(out));
  }

  // ----- round trips

  /** Lua holds every number of the value: integers in the signed 64-bit range, finite floats, no binary. */
  ghost predicate Fits(j: Json) {
    match j
    case Int(i) => i <= INT64_MAX
    case Float(x) => x.Finite?
    case Arr(items) => forall i :: 0 <= i < |items| ==> Fits(items[i])
    case Obj(fields) => forall k :: k in fields ==> Fits(fields[k])
    case Binary => false
    case _ => true
  }

  /** Both conversions succeed from this depth and give the value back. */
  ghost predicate ComesBack(j: Json, depth: nat) {
    && Within(j, MAX_DEPTH - depth) && !HasBinary(j)
    && Encodable(LuaOf(j), depth)
    && JsonOf(LuaOf(j)) == j
  }

  lemma {:induction false} FittingHasNoBinary(j: Json)
    requires Fits(j)
    ensures !HasBinary(j)
    decreases j
  {
    match j {
      case Arr(items) => forall i | 0 <= i < |items| ensures !HasBinary(items[i]) { FittingHasNoBinary(items[i]); }
      case Obj(fields) => forall k | k in fields ensures !HasBinary(fields[k]) { FittingHasNoBinary(fields[k]); }
      case _ =>
    }
  }

  /** A value comes back exactly when it is shallow enough and Lua can hold its numbers. */
  lemma RoundTrip(j: Json, depth: nat)
    ensures ComesBack(j, depth) <==> Within(j, MAX_DEPTH - depth) && Fits(j)
  {
    if Within(j, MAX_DEPTH - depth) && Fits(j) { FittingComesBack(j, depth); }
    if ComesBack(j, depth) { OnlyFittingComesBack(j, depth); }
  }

  lemma ItemsDense(entries: map<Key, Lua>, items: seq<Json>)
    requires HoldsItems(entries, items, |items|)
    ensures Dense(entries) && |entries| == |items|
    ensures forall k :: k in entries ==> !k.StringKey?
  {
    assert entries.Keys == FirstKeys(|items|);
  }

  lemma EmptyJson(l: Lua)
    requires l.Table? && l.entries.Keys == {}
    ensures JsonOf(l) == if l.tagged then Arr([]) else Obj(map[])
  {}

  lemma {:induction false} FittingComesBack(j: Json, depth: nat)
    requires Within(j, MAX_DEPTH - depth) && Fits(j)
    ensures ComesBack(j, depth)
    decreases j
  {
    hide JsonOf, LuaOf, Encodable, HasBinary;
    FittingHasNoBinary(j);
    match j {
      case Arr(items) =>
        var entries := ItemsEntries(items);
        forall k | k in entries ensures ComesBack(items[k.i - 1], depth + 1) {
          FittingComesBack(items[k.i - 1], depth + 1);
        }
        ArrayComesBack(items, entries, depth);
      case Obj(fields) =>
        var entries := FieldsEntries(fields);
        forall k | k in entries ensures ComesBack(fields[k.s], depth + 1) {
          FittingComesBack(fields[k.s], depth + 1);
        }
        ObjectComesBack(fields, entries, depth);
      case _ =>
        ScalarComesBack(j);
    }
  }

  lemma ArrayComesBack(items: seq<Json>, entries: map<Key, Lua>, depth: nat)
    requires LuaOf(Arr(items)) == Table(entries, true) && HoldsItems(entries, items, |items|)
    requires depth < MAX_DEPTH && forall k :: k in entries ==> ComesBack(items[k.i - 1], depth + 1)
    ensures Encodable(LuaOf(Arr(items)), depth) && JsonOf(LuaOf(Arr(items))) == Arr(items)
  {
    hide JsonOf, LuaOf, Within, HasBinary, Dense;
    ItemsDense(entries, items);
    if items == [] { EmptyJson(Table(entries, true)); } else { ArrayJson(Table(entries, true), items); }
  }

  lemma ObjectComesBack(fields: map<string, Json>, entries: map<Key, Lua>, depth: nat)
    requires LuaOf(Obj(fields)) == Table(entries, false) && HoldsFields(entries, fields, fields.Keys)
    requires depth < MAX_DEPTH && forall k :: k in entries ==> ComesBack(fields[k.s], depth + 1)
    ensures Encodable(LuaOf(Obj(fields)), depth) && JsonOf(LuaOf(Obj(fields))) == Obj(fields)
  {
    hide JsonOf, LuaOf, Within, HasBinary, Dense;
    FieldsJson(entries, fields);
  }

  lemma ScalarComesBack(j: Json)
    requires !j.Arr? && !j.Obj?
    ensures Fits(j) ==> JsonOf(LuaOf(j)) == j && forall depth: nat :: Encodable(LuaOf(j), depth)
    ensures JsonOf(LuaOf(j)) == j && Encodable(LuaOf(j), 0) && !HasBinary(j) ==> Fits(j)
    ensures forall depth: nat :: Encodable(LuaOf(j), depth) == Encodable(LuaOf(j), 0)
  {}

  lemma FieldsJson(entries: map<Key, Lua>, fields: map<string, Json>)
    requires HoldsFields(entries, fields, fields.Keys)
    ensures JsonOf(Table(entries, false)) == Obj(fields) <==> forall k :: k in entries ==>
              fields[k.s] == JsonOf(entries[k])
  {
    hide JsonOf, LuaOf;
    if fields == map[] {
      assert entries.Keys == {};
      EmptyJson(Table(entries, false));
    } else {
      var s :| s in fields;
      assert StringKey(s) in entries;
      ObjectJson(Table(entries, false), fields);
      forall k | k in entries ensures k == StringKey(k.s) && k.s in fields {}
    }
  }

  lemma {:induction false} OnlyFittingComesBack(j: Json, depth: nat)
    requires ComesBack(j, depth)
    ensures Fits(j)
    decreases j
  {
    hide JsonOf, LuaOf, Dense;
    match j {
      case Arr(items) =>
        var entries := ItemsEntries(items);
        ItemsDense(entries, items);
        if items != [] { ArrayJson(LuaOf(j), items); }
        forall i | 0 <= i < |items| ensures Fits(items[i]) {
          assert IntKey(i + 1) in entries;
          OnlyFittingComesBack(items[i], depth + 1);
        }
      case Obj(fields) =>
        var entries := FieldsEntries(fields);
        FieldsJson(entries, fields);
        forall s | s in fields ensures Fits(fields[s]) {
          assert StringKey(s) in entries;
          OnlyFittingComesBack(fields[s], depth + 1);
        }
      case _ =>
        ScalarComesBack(j);
    }
  }

  // ----- the parser's limit

  /** The parser's callback: a container may not start at nesting level MAX_DEPTH or deeper. */
  ghost predicate ParserAccepts(j: Json, level: nat) {
    match j
    case Arr(items) => level < MAX_DEPTH && forall i :: 0 <= i < |items| ==> ParserAccepts(items[i], level + 1)
    case Obj(fields) => level < MAX_DEPTH && forall k :: k in fields ==> ParserAccepts(fields[k], level + 1)
    case _ => true
  }

  /** The parser's limit and the converters' are the same, so what parses never hits theirs. */
  lemma {:induction false} ParserLimitIsConverterLimit(j: Json, level: nat)
    ensures ParserAccepts(j, level) <==> Within(j, MAX_DEPTH - level)
    decreases j
  {
    match j {
      case Arr(items) =>
        forall i | 0 <= i < |items| ensures ParserAccepts(items[i], level + 1) <==>
            Within(items[i], MAX_DEPTH - level - 1) {
          ParserLimitIsConverterLimit(items[i], level + 1);
        }
      case Obj(fields) =>
        forall k | k in fields ensures ParserAccepts(fields[k], level + 1) <==>
            Within(fields[k], MAX_DEPTH - level - 1) {
          ParserLimitIsConverterLimit(fields[k], level + 1);
        }
      case _ =>
    }
  }
}
