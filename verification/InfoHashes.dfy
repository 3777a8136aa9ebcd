/** Torrents by info hash, with two secondary indexes from one half of a hybrid hash to its key:
    what the indexes keep, when a lookup by half agrees with a plain scan, and when it cannot. */
module InfoHashes {
  import opened Common

  /** A v1 and a v2 half; zero is the half that is absent. */
  datatype InfoHash = InfoHash(v1: nat, v2: nat)

  predicate Compatible(a: InfoHash, b: InfoHash) {
    (a.v1 == 0 || b.v1 == 0 || a.v1 == b.v1) && (a.v2 == 0 || b.v2 == 0 || a.v2 == b.v2)
  }

  predicate SharesHalf(a: InfoHash, b: InfoHash) { (a.v1 != 0 && a.v1 == b.v1) || (a.v2 != 0 && a.v2 == b.v2) }

  // ----- the indexes as values

  datatype Index = Index(keys: set<InfoHash>, v1: map<nat, InfoHash>, v2: map<nat, InfoHash>)

  const EMPTY := Index({}, map[], map[])

  /** The first key to bring a half keeps it. */
  function AddHalf(m: map<nat, InfoHash>, half: nat, key: InfoHash): map<nat, InfoHash> {
    if half == 0 || half in m then m else m[half := key]
  }

  function RemoveHalf(m: map<nat, InfoHash>, half: nat, key: InfoHash): map<nat, InfoHash> {
    if half != 0 && half in m && m[half] == key then m - {half} else m
  }

  function Emplace(ix: Index, key: InfoHash): Index {
    if key in ix.keys then ix
    else Index(ix.keys + {key}, AddHalf(ix.v1, key.v1, key), AddHalf(ix.v2, key.v2, key))
  }

  function Erase(ix: Index, key: InfoHash): Index {
    if key !in ix.keys then ix
    else Index(ix.keys - {key}, RemoveHalf(ix.v1, key.v1, key), RemoveHalf(ix.v2, key.v2, key))
  }

  /** Taking a key out and putting the new one in; the item is gone when the new key is taken. */
  function Rekey(ix: Index, prev: InfoHash, curr: InfoHash): Index {
    if prev !in ix.keys then ix else Emplace(Erase(ix, prev), curr)
  }

  function FindByHalf(ix: Index, hash: InfoHash): Option<InfoHash> {
    if hash.v1 != 0 && hash.v1 in ix.v1 && Compatible(hash, ix.v1[hash.v1]) then Some(ix.v1[hash.v1])
    else if hash.v2 != 0 && hash.v2 in ix.v2 && Compatible(hash, ix.v2[hash.v2]) then Some(ix.v2[hash.v2])
    else None
  }

  // ----- what holds of them

  /** Every index entry leads from a half to a present key with that half. */
  ghost predicate Sound(ix: Index) {
    && (forall h :: h in ix.v1 ==> h != 0 && ix.v1[h] in ix.keys && ix.v1[h].v1 == h)
    && (forall h :: h in ix.v2 ==> h != 0 && ix.v2[h] in ix.keys && ix.v2[h].v2 == h)
  }

  /** And every half of every key leads back to that key. */
  ghost predicate Exact(ix: Index) {
    && Sound(ix)
    && (forall k :: k in ix.keys && k.v1 != 0 ==> k.v1 in ix.v1 && ix.v1[k.v1] == k)
    && (forall k :: k in ix.keys && k.v2 != 0 ==> k.v2 in ix.v2 && ix.v2[k.v2] == k)
  }

  ghost predicate NoSharedHalf(keys: set<InfoHash>) {
    forall a, b :: a in keys && b in keys && SharesHalf(a, b) ==> a == b
  }

  /** A scan over all keys for a compatible one sharing a half. */
  ghost predicate Scan(keys: set<InfoHash>, hash: InfoHash) {
    exists k :: k in keys && Compatible(hash, k) && SharesHalf(hash, k)
  }

  /** Two hashes are compatible when no half that both have differs, and a scan looks for such a one that has a half in
      common. */
  lemma ScanMeans(keys: set<InfoHash>, hash: InfoHash)
    ensures Scan(keys, hash) <==> exists k ::
              && k in keys
              && !(hash.v1 != 0 && k.v1 != 0 && hash.v1 != k.v1) && !(hash.v2 != 0 && k.v2 != 0 && hash.v2 != k.v2)
              && ((hash.v1 != 0 && hash.v1 == k.v1) || (hash.v2 != 0 && hash.v2 == k.v2))
  {
    assert forall k :: Compatible(hash, k) <==>
             !(hash.v1 != 0 && k.v1 != 0 && hash.v1 != k.v1) && !(hash.v2 != 0 && k.v2 != 0 && hash.v2 != k.v2);
  }

  /** A key found by half is a scan hit; in an exact index one is found whenever the scan has a hit. */
  lemma FindIsScan(ix: Index, hash: InfoHash)
    requires Sound(ix)
    ensures FindByHalf(ix, hash).Some? ==>
              var k := FindByHalf(ix, hash).value; k in ix.keys && Compatible(hash, k) && SharesHalf(hash, k)
    ensures Exact(ix) ==> (FindByHalf(ix, hash).Some? <==> Scan(ix.keys, hash))
  {}

  /** Inserting stays exact precisely when the new key shares no half with another. */
  lemma EmplaceKeeps(ix: Index, key: InfoHash)
    requires Sound(ix)
    ensures Sound(Emplace(ix, key))
    ensures key !in ix.keys ==>
              (Exact(Emplace(ix, key)) <==> Exact(ix) && forall k :: k in ix.keys ==> !SharesHalf(k, key))
  {
    var after := Emplace(ix, key);
    if key !in ix.keys {
      if Exact(after) {
        forall k | k in ix.keys ensures !SharesHalf(k, key) { assert k in after.keys && key in after.keys; }
        forall k | k in ix.keys
          ensures (k.v1 != 0 ==> k.v1 in ix.v1 && ix.v1[k.v1] == k) && (k.v2 != 0 ==> k.v2 in ix.v2 && ix.v2[k.v2] == k)
        { assert k in after.keys; }
      }
    }
  }

  lemma EraseKeeps(ix: Index, key: InfoHash)
    requires Sound(ix)
    ensures Sound(Erase(ix, key)) && (Exact(ix) ==> Exact(Erase(ix, key)))
  {}

  lemma RekeyKeeps(ix: Index, prev: InfoHash, curr: InfoHash)
    requires Sound(ix)
    ensures Sound(Rekey(ix, prev, curr))
    ensures Exact(ix) && (forall k :: k in ix.keys && k != prev ==> !SharesHalf(k, curr)) ==>
              Exact(Rekey(ix, prev, curr))
  {
    if prev in ix.keys {
      EraseKeeps(ix, prev);
      EmplaceKeeps(Erase(ix, prev), curr);
    }
  }

  lemma ExactSharesNothing(ix: Index)
    requires Exact(ix)
    ensures NoSharedHalf(ix.keys)
  {}

  // ----- any sequence of operations

  datatype Op = DoEmplace(key: InfoHash) | DoErase(key: InfoHash) | DoRekey(prev: InfoHash, curr: InfoHash)

  function Do(ix: Index, op: Op): Index {
    match op
    case DoEmplace(key) => Emplace(ix, key)
    case DoErase(key) => Erase(ix, key)
    case DoRekey(prev, curr) => Rekey(ix, prev, curr)
  }

  function DoAll(ix: Index, ops: seq<Op>): Index
    decreases |ops|
  { if ops == [] then ix else Do(DoAll(ix, ops[..|ops| - 1]), ops[|ops| - 1]) }

  /** No two keys share a half after any of the operations. */
  ghost predicate NeverShares(ix: Index, ops: seq<Op>) {
    forall n :: 0 <= n <= |ops| ==> NoSharedHalf(DoAll(ix, ops[..n]).keys)
  }

  /** From the empty map the indexes are always sound, and exact if no two keys ever share a half. */
  lemma {:induction false} RunsKeep(ops: seq<Op>)
    ensures Sound(DoAll(EMPTY, ops))
    ensures NeverShares(EMPTY, ops) ==> Exact(DoAll(EMPTY, ops))
    decreases |ops|
  {
    if ops != [] {
      var init, op := ops[..|ops| - 1], ops[|ops| - 1];
      RunsKeep(init);
      var ix := DoAll(EMPTY, init);
      StepKeeps(ix, op);
      if NeverShares(EMPTY, ops) {
        forall n | 0 <= n <= |init| ensures NoSharedHalf(DoAll(EMPTY, init[..n]).keys) { assert init[..n] == ops[..n]; }
        assert ops[..|ops|] == ops;
      }
    }
  }

  lemma StepKeeps(ix: Index, op: Op)
    requires Sound(ix)
    ensures Sound(Do(ix, op)) && (Exact(ix) && NoSharedHalf(Do(ix, op).keys) ==> Exact(Do(ix, op)))
  {
    match op {
      case DoEmplace(key) => EmplaceKeeps(ix, key);
      case DoErase(key) => EraseKeeps(ix, key);
      case DoRekey(prev, curr) =>
        if prev in ix.keys {
          EraseKeeps(ix, prev);
          EmplaceKeeps(Erase(ix, prev), curr);
        }
    }
  }

  /** So after any operations without shared halves, looking up by half is scanning. */
  lemma LookupIsScan(ops: seq<Op>, hash: InfoHash)
    requires NeverShares(EMPTY, ops)
    ensures FindByHalf(DoAll(EMPTY, ops), hash).Some? <==> Scan(DoAll(EMPTY, ops).keys, hash)
  {
    RunsKeep(ops);
    FindIsScan(DoAll(EMPTY, ops), hash);
  }

  /** As long as no two keys share a half, lookup is scanning exactly when the indexes are exact: what keeps them
      exact, and only that, keeps the lookup right. */
  lemma LookupIsScanIffExact(ix: Index)
    requires Sound(ix) && NoSharedHalf(ix.keys)
    ensures (forall h :: FindByHalf(ix, h).Some? <==> Scan(ix.keys, h)) <==> Exact(ix)
  {
    if Exact(ix) {
      forall h ensures FindByHalf(ix, h).Some? <==> Scan(ix.keys, h) { FindIsScan(ix, h); }
    }
    if forall h :: FindByHalf(ix, h).Some? <==> Scan(ix.keys, h) {
      forall k | k in ix.keys && k.v1 != 0 ensures k.v1 in ix.v1 && ix.v1[k.v1] == k {
        assert Scan(ix.keys, InfoHash(k.v1, 0)) && FindByHalf(ix, InfoHash(k.v1, 0)).Some?;
      }
      forall k | k in ix.keys && k.v2 != 0 ensures k.v2 in ix.v2 && ix.v2[k.v2] == k {
        assert Scan(ix.keys, InfoHash(0, k.v2)) && FindByHalf(ix, InfoHash(0, k.v2)).Some?;
      }
    }
  }

  /** Once two keys did share a half, the index stays short even after one of them is gone. */
  lemma SharedHalfIsForgotten(a: nat, b: nat, c: nat)
    requires a != 0 && b != 0 && c != 0 && b != c
    ensures var ix := DoAll(EMPTY, [DoEmplace(InfoHash(a, b)), DoEmplace(InfoHash(a, c)), DoErase(InfoHash(a, b))]);
            && NoSharedHalf(ix.keys) && Scan(ix.keys, InfoHash(a, 0)) && FindByHalf(ix, InfoHash(a, 0)) == None
  {
    var x, y := InfoHash(a, b), InfoHash(a, c);
    var ops := [DoEmplace(x), DoEmplace(y), DoErase(x)];
    assert ops[..2][..1][..0] == [] && ops[..2][..1] == [DoEmplace(x)] && ops[..2] == [DoEmplace(x), DoEmplace(y)];
    assert DoAll(EMPTY, ops[..2][..1]) == Emplace(EMPTY, x);
    assert DoAll(EMPTY, ops[..2]) == Emplace(Emplace(EMPTY, x), y);
    var ix := DoAll(EMPTY, ops);
    assert ix == Erase(Emplace(Emplace(EMPTY, x), y), x);
    assert ix.keys == {y};
  }

  // ----- the class

  class InfoHashMap<T> {
    var items: map<InfoHash, T>
    var v1: map<nat, InfoHash>
    var v2: map<nat, InfoHash>

    ghost function View(): Index
      reads this
    { Index(items.Keys, v1, v2) }

    ghost predicate Valid()
      reads this
    { Sound(View()) }

    constructor ()
      ensures Valid() && View() == EMPTY && items == map[]
    { items, v1, v2 := map[], map[], map[]; }

    /** The key an item is found under by either half. */
    method KeyByHalf(hash: InfoHash) returns (key: Option<InfoHash>)
      ensures key == FindByHalf(View(), hash)
    {
      if hash.v1 != 0 {
        if hash.v1 in v1 && Compatible(hash, v1[hash.v1]) { return Some(v1[hash.v1]); }
      }
      if hash.v2 != 0 {
        if hash.v2 in v2 && Compatible(hash, v2[hash.v2]) { return Some(v2[hash.v2]); }
      }
      return None;
    }

    method AddHalves(key: InfoHash)
      modifies this`v1, this`v2
      ensures v1 == AddHalf(old(v1), key.v1, key) && v2 == AddHalf(old(v2), key.v2, key)
    {
      if key.v1 != 0 && key.v1 !in v1 { v1 := v1[key.v1 := key]; }
      if key.v2 != 0 && key.v2 !in v2 { v2 := v2[key.v2 := key]; }
    }

    method RemoveHalves(key: InfoHash)
      modifies this`v1, this`v2
      ensures v1 == RemoveHalf(old(v1), key.v1, key) && v2 == RemoveHalf(old(v2), key.v2, key)
    {
      if key.v1 in v1 && key.v1 != 0 && v1[key.v1] == key { v1 := v1 - {key.v1}; }
      if key.v2 in v2 && key.v2 != 0 && v2[key.v2] == key { v2 := v2 - {key.v2}; }
    }

    /** Inserts a fresh item unless the key is there. */
    method TryEmplace(key: InfoHash, item: T) returns (inserted: bool)
      requires Valid()
      modifies this
      ensures Valid() && View() == Emplace(old(View()), key)
      ensures inserted <==> key !in old(items)
      ensures items == if inserted then old(items)[key := item] else old(items)
    {
      EmplaceKeeps(View(), key);
      inserted := key !in items;
      if inserted {
        items := items[key := item];
        AddHalves(key);
      }
    }

    /** Writes through an iterator: the keys stay as they are. */
    method Put(key: InfoHash, item: T)
      requires key in items
      modifies this`items
      ensures items == old(items)[key := item] && View() == old(View())
    {
      items := items[key := item];
    }

    method Remove(key: InfoHash)
      requires Valid() && key in items
      modifies this
      ensures Valid() && View() == Erase(old(View()), key) && items == old(items) - {key}
    {
      EraseKeeps(View(), key);
      RemoveHalves(key);
      items := items - {key};
    }

    /** Moves an item to another key; it is dropped when that key is taken. */
    method Move(prev: InfoHash, curr: InfoHash) returns (moved: bool)
      requires Valid()
      modifies this
      ensures Valid() && View() == Rekey(old(View()), prev, curr)
      ensures moved <==> prev in old(items) && (curr == prev || curr !in old(items))
      ensures items == if prev !in old(items) then old(items)
                       else if moved then (old(items) - {prev})[curr := old(items)[prev]]
                       else old(items) - {prev}
    {
      RekeyKeeps(View(), prev, curr);
      if prev !in items { return false; }
      var item := items[prev];
      items := items - {prev};
      RemoveHalves(prev);
      if curr in items { return false; }
      items := items[curr := item];
      AddHalves(curr);
      return true;
    }
  }
}
