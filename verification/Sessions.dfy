/** A session's mirror of libtorrent's torrents: adding, alerts, re-keying and the repair procedure,
    with a ledger of what was announced about every torrent. */
module Sessions {
  import opened Common
  import opened InfoHashes

  datatype State = Loading | Adding | Current

  /** A tracked torrent. `id` names the tracked object across re-keys; `data` is the client data it
      owns, zero for none; `handle` is the libtorrent handle of its status, zero for none. */
  datatype Torrent = Torrent(
    id: nat, state: State, data: nat, handle: nat, hashes: InfoHash, announced: bool, saved: bool)

  /** A libtorrent handle and what it reports. */
  datatype Handle = Handle(id: nat, hash: InfoHash, userdata: nat, hasMetadata: bool)

  // ----- the ledger

  /** The events a listener is due, and the silent promotion of a torrent loaded from storage; a torrent that is
      Current already is added again. */
  datatype Entry = Added(id: nat) | Promoted(id: nat) | AddedAgain(id: nat) | Removed(id: nat)

  ghost function Ins(log: seq<Entry>, id: nat): nat { multiset(log)[Added(id)] + multiset(log)[Promoted(id)] }

  /** The torrents added again, one by one. */
  ghost function AddedAgainIn(log: seq<Entry>): seq<nat> {
    if log == [] then []
    else AddedAgainIn(log[..|log| - 1]) + if log[|log| - 1].AddedAgain? then [log[|log| - 1].id] else []
  }

  lemma {:induction false} NoneAddedAgain(before: seq<Entry>, after: seq<Entry>)
    requires before <= after && forall i :: |before| <= i < |after| ==> !after[i].AddedAgain?
    ensures AddedAgainIn(after) == AddedAgainIn(before)
    decreases |after|
  {
    if |before| < |after| {
      NoneAddedAgain(before, after[..|after| - 1]);
    } else {
      assert before == after;
    }
  }

  ghost function Outs(log: seq<Entry>, id: nat): nat { multiset(log)[Removed(id)] }

  type Tracked = map<InfoHash, Torrent>

  ghost predicate HasId(m: Tracked, id: nat) { exists k :: k in m && m[k].id == id }

  /** Announced or promoted, and not yet removed. */
  ghost predicate Open(log: seq<Entry>, id: nat) { Ins(log, id) == 1 && Outs(log, id) == 0 }

  ghost predicate Closed(log: seq<Entry>, id: nat) { Ins(log, id) == Outs(log, id) <= 1 }

  /** Every tracked object has its own id. Its entry is open while it is Current, and it has none before;
      an id no longer tracked is closed, unless a re-key onto a taken key dropped it while Current. */
  ghost predicate Ledger(m: Tracked, next: nat, log: seq<Entry>, lost: set<nat>) {
    && (forall k :: k in m ==> m[k].id < next && m[k].id !in lost)
    && (forall j, k :: j in m && k in m && m[j].id == m[k].id ==> j == k)
    && (forall k :: k in m ==>
        if m[k].state == Current then Open(log, m[k].id) else Ins(log, m[k].id) == Outs(log, m[k].id) == 0)
    && (forall id :: id in lost ==> id < next && Open(log, id))
    && (forall id: nat :: id !in lost && !HasId(m, id) ==> Closed(log, id))
    && (forall id: nat :: id >= next ==> Ins(log, id) == Outs(log, id) == 0)
  }

  /** So for every torrent ever tracked, announcements and promotions minus removals is one exactly while it is
      Current, or lost, and zero otherwise, leaving aside the times it was added again, which `Run` counts. */
  lemma LedgerBalances(m: Tracked, next: nat, log: seq<Entry>, lost: set<nat>, id: nat)
    requires Ledger(m, next, log, lost)
    ensures Ins(log, id) - Outs(log, id)
         == if id in lost || exists k :: k in m && m[k].id == id && m[k].state == Current then 1 else 0
    ensures Ins(log, id) <= 1 && Outs(log, id) <= 1
  {}

  lemma LogAppend(log: seq<Entry>, e: Entry)
    ensures forall id: nat ::
              Ins(log + [e], id) == Ins(log, id) + if e.id == id && (e.Added? || e.Promoted?) then 1 else 0
    ensures forall id: nat :: Outs(log + [e], id) == Outs(log, id) + if e.id == id && e.Removed? then 1 else 0
  {}

  lemma LedgerInsert(m: Tracked, next: nat, log: seq<Entry>, lost: set<nat>, key: InfoHash, t: Torrent)
    requires Ledger(m, next, log, lost) && key !in m && t.id == next && t.state != Current
    ensures Ledger(m[key := t], next + 1, log, lost)
  {
    hide Ins, Outs;
    assert m[key := t][key] == t;
    forall id: nat | HasId(m, id) ensures HasId(m[key := t], id) {
      var k :| k in m && m[k].id == id;
      assert k in m[key := t] && m[key := t][k].id == id;
    }
  }

  /** A torrent that becomes Current is announced or promoted in the same step. */
  lemma LedgerEnter(m: Tracked, next: nat, log: seq<Entry>, lost: set<nat>, key: InfoHash, t: Torrent, e: Entry)
    requires Ledger(m, next, log, lost) && key in m && m[key].state != Current
    requires t.id == m[key].id == e.id && t.state == Current && (e.Added? || e.Promoted?)
    ensures Ledger(m[key := t], next, log + [e], lost)
  {
    hide Ins, Outs, Open, Closed;
    EntryOpens(log, e);
    SameIds(m, m[key := t], key, key);
  }

  lemma EntryOpens(log: seq<Entry>, e: Entry)
    requires (e.Added? || e.Promoted?) && Ins(log, e.id) == Outs(log, e.id) == 0
    ensures Open(log + [e], e.id)
    ensures forall id: nat :: id != e.id ==> Ins(log + [e], id) == Ins(log, id)
    ensures forall id: nat :: id != e.id ==> Outs(log + [e], id) == Outs(log, id)
    ensures forall id: nat :: id != e.id ==> (Open(log + [e], id) <==> Open(log, id))
    ensures forall id: nat :: id != e.id ==> (Closed(log + [e], id) <==> Closed(log, id))
  {}

  /** Replacing an object by one with its id, possibly under another key, keeps the ids. */
  lemma SameIds(m: Tracked, m': Tracked, prev: InfoHash, curr: InfoHash)
    requires prev in m && curr in m' && m'[curr].id == m[prev].id && m'.Keys == m.Keys - {prev} + {curr}
    requires forall k :: k in m && k != prev ==> k in m' && m'[k].id == m[k].id
    ensures forall id: nat :: HasId(m', id) <==> HasId(m, id)
  {}

  lemma LedgerUpdate(m: Tracked, next: nat, log: seq<Entry>, lost: set<nat>, key: InfoHash, t: Torrent)
    requires Ledger(m, next, log, lost) && key in m && t.id == m[key].id
    requires t.state == Current <==> m[key].state == Current
    ensures Ledger(m[key := t], next, log, lost)
  {
    hide Ins, Outs;
    SameIds(m, m[key := t], key, key);
  }

  /** Adding again what is Current already leaves the rest of the ledger as it was. */
  lemma LedgerRepeat(m: Tracked, next: nat, log: seq<Entry>, lost: set<nat>, id: nat)
    requires Ledger(m, next, log, lost)
    ensures Ledger(m, next, log + [AddedAgain(id)], lost)
  {
    hide Ins, Outs;
    LogAppend(log, AddedAgain(id));
  }

  lemma LedgerMove(m: Tracked, next: nat, log: seq<Entry>, lost: set<nat>, prev: InfoHash, curr: InfoHash, t: Torrent)
    requires Ledger(m, next, log, lost) && prev in m && (curr == prev || curr !in m)
    requires t.id == m[prev].id && t.state == m[prev].state
    ensures Ledger((m - {prev})[curr := t], next, log, lost)
  {
    hide Ins, Outs;
    SameIds(m, (m - {prev})[curr := t], prev, curr);
  }

  lemma WithoutKey(m: Tracked, next: nat, log: seq<Entry>, lost: set<nat>, key: InfoHash)
    requires Ledger(m, next, log, lost) && key in m
    ensures forall id: nat :: HasId(m - {key}, id) <==> HasId(m, id) && id != m[key].id
  {
    forall id: nat ensures HasId(m - {key}, id) <==> HasId(m, id) && id != m[key].id {
      if HasId(m, id) && id != m[key].id {
        var k :| k in m && m[k].id == id;
        assert k in m - {key} && (m - {key})[k].id == id;
      }
    }
  }

  lemma LedgerDrop(m: Tracked, next: nat, log: seq<Entry>, lost: set<nat>, key: InfoHash)
    requires Ledger(m, next, log, lost) && key in m
    ensures m[key].state != Current ==> Ledger(m - {key}, next, log, lost)
    ensures m[key].state == Current ==> Ledger(m - {key}, next, log + [Removed(m[key].id)], lost)
    ensures m[key].state == Current ==> Ledger(m - {key}, next, log, lost + {m[key].id})
  {
    hide Ins, Outs;
    WithoutKey(m, next, log, lost, key);
    LogAppend(log, Removed(m[key].id));
  }

  // ----- the session

  datatype AddResult = Accepted | Refused | Threw

  function Moved(m: Tracked, prev: InfoHash, curr: InfoHash): Tracked {
    if prev !in m then m
    else if curr == prev || curr !in m then (m - {prev})[curr := m[prev].(hashes := curr)]
    else m - {prev}
  }

  /** A torrent moved from `prev` to `curr` with its metadata announced. */
  function Announced(m: Tracked, prev: InfoHash, curr: InfoHash): Tracked
    requires prev in m
  { (m - {prev})[curr := m[prev].(hashes := curr, announced := true)] }

  /** Whether a re-key would drop a torrent that is Current. */
  predicate DropsCurrent(m: Tracked, prev: InfoHash, curr: InfoHash) {
    prev in m && m[prev].state == Current && curr != prev && curr in m
  }

  /** What a successful add announces, the tracked set being already re-keyed. */
  function AddAnnounced(m: Tracked, next: nat, found: bool, hash: InfoHash): seq<Entry> {
    if hash !in m then [Added(next)]
    else match m[hash].state
         case Current => if found then [] else [AddedAgain(m[hash].id)]
         case Loading => [if found then Promoted(m[hash].id) else Added(m[hash].id)]
         case Adding => [Added(m[hash].id)]
  }

  /** What a successful add leaves under the handle's hash: what was Current and found stays as it was. */
  function AlertLeaves(m: Tracked, next: nat, found: bool, th: Handle): Torrent {
    if th.hash !in m then Torrent(next, Current, th.userdata, th.id, th.hash, th.hasMetadata, th.hasMetadata)
    else if found && m[th.hash].state == Current then m[th.hash]
    else Entered(m[th.hash], th)
  }

  /** What a handle's torrent is afterwards: Current, and unless it was that already and found, the handle's own, with
      all else as it was; a torrent that was not tracked takes over the handle's client data. */
  ghost predicate Settled(m: Tracked, next: nat, found: bool, th: Handle, t: Torrent) {
    && t.state == Current
    && if th.hash in m && found && m[th.hash].state == Current then t == m[th.hash]
       else
         && t.handle == th.id && t.hashes == th.hash
         && if th.hash in m then
              var was := m[th.hash];
              t.id == was.id && t.data == was.data && t.announced == was.announced && t.saved == was.saved
            else t.id == next && t.data == th.userdata && t.announced == t.saved == th.hasMetadata
  }

  /** A re-key takes a torrent to a free hash, which is then its own, with all else as it was, and drops it at a taken
      one; no other torrent changes. */
  lemma MovedMeans(m: Tracked, prev: InfoHash, curr: InfoHash, k: InfoHash)
    requires prev in m && curr != prev
    ensures Moved(m, prev, curr).Keys == m.Keys - {prev} + {curr}
    ensures k in m && k != prev ==> Moved(m, prev, curr)[k] == m[k]
    ensures curr !in m ==>
              var t, was := Moved(m, prev, curr)[curr], m[prev];
              && t.hashes == curr && t.id == was.id && t.state == was.state && t.data == was.data
              && t.handle == was.handle && t.announced == was.announced && t.saved == was.saved
  {}

  /** Among what was logged meanwhile. */
  ghost predicate Says(before: seq<Entry>, after: seq<Entry>, e: Entry) {
    exists i :: |before| <= i < |after| && after[i] == e
  }

  /** Meanwhile the removals of the Current ones among the torrents that went were logged, and nothing else. */
  ghost predicate LogsRemovals(m: Tracked, gone: set<InfoHash>, before: seq<Entry>, after: seq<Entry>) {
    && before <= after
    && (forall i :: |before| <= i < |after| ==>
          after[i].Removed? && WentCurrent(m, gone, after[i].id))
    && (forall k :: k in m && k in gone && m[k].state == Current ==> Says(before, after, Removed(m[k].id)))
  }

  /** Meanwhile entries of tracked torrents among these were logged, and nothing else. */
  ghost predicate LogsEntries(m: Tracked, live: set<InfoHash>, before: seq<Entry>, after: seq<Entry>) {
    && before <= after
    && forall i :: |before| <= i < |after| ==>
         (after[i].Added? || after[i].Promoted?) && exists k :: k in live && k in m && m[k].id == after[i].id
  }

  /** What a repair from one tracked set to another may log: entries of what is tracked after it, and removals
      of what was Current before it and is no longer tracked under its hash. */
  ghost predicate LogsRepair(m: Tracked, m': Tracked, before: seq<Entry>, after: seq<Entry>) {
    && before <= after
    && forall i :: |before| <= i < |after| ==>
         if after[i].Removed? then exists k :: k in m && k !in m' && m[k].state == Current && m[k].id == after[i].id
         else (after[i].Added? || after[i].Promoted?) && exists k :: k in m' && m'[k].id == after[i].id
  }

  lemma LogsMoreEntries(m: Tracked, m': Tracked, live: set<InfoHash>, hash: InfoHash,
                        before: seq<Entry>, between: seq<Entry>, after: seq<Entry>)
    requires LogsEntries(m, live, before, between) && between <= after
    requires forall k :: k in live && k in m ==> k in m' && m'[k].id == m[k].id
    requires forall i :: |between| <= i < |after| ==>
              (after[i].Added? || after[i].Promoted?) && hash in m' && m'[hash].id == after[i].id
    ensures LogsEntries(m', live + {hash}, before, after)
  {
    forall i | |before| <= i < |after|
      ensures (after[i].Added? || after[i].Promoted?) && exists k ::
                k in live + {hash} && k in m' && m'[k].id == after[i].id
    {
      if i < |between| {
        assert after[i] == between[i];
        var k :| k in live && k in m && m[k].id == between[i].id;
        assert k in live + {hash} && k in m';
      } else {
        assert hash in live + {hash};
      }
    }
  }

  lemma LogsBoth(m: Tracked, mid: Tracked, m': Tracked, live: set<InfoHash>,
                 before: seq<Entry>, between: seq<Entry>, after: seq<Entry>)
    requires LogsEntries(mid, live, before, between) && LogsRemovals(mid, mid.Keys - live, between, after)
    requires m'.Keys == live && forall k :: k in live ==> k in mid && m'[k] == mid[k]
    requires forall k :: k in mid && k !in live ==> k in m && mid[k] == m[k]
    ensures LogsRepair(m, m', before, after)
  {
    forall i | |before| <= i < |between| ensures exists k :: k in m' && m'[k].id == after[i].id {
      assert after[i] == between[i];
      var k :| k in live && k in mid && mid[k].id == between[i].id;
      assert k in m' && m'[k].id == after[i].id;
    }
    forall i | |between| <= i < |after|
      ensures exists k :: k in m && k !in m' && m[k].state == Current && m[k].id == after[i].id
    {
      assert after[i].Removed?;
      var k :| k in mid && k in mid.Keys - live && mid[k].state == Current && mid[k].id == after[i].id;
      assert k in m && k !in m';
    }
    forall i | |before| <= i < |between| ensures after[i].Added? || after[i].Promoted? {
      assert after[i] == between[i];
    }
  }

  lemma LogsNothing(m: Tracked, log: seq<Entry>)
    ensures LogsRemovals(m, {}, log, log)
  {}

  ghost predicate WentCurrent(m: Tracked, gone: set<InfoHash>, id: nat) {
    exists k :: k in m && k in gone && m[k].state == Current && m[k].id == id
  }

  lemma LogsOneMore(m: Tracked, gone: set<InfoHash>, before: seq<Entry>, after: seq<Entry>, k: InfoHash)
    requires LogsRemovals(m, gone, before, after) && k in m
    ensures m[k].state == Current ==> LogsRemovals(m, gone + {k}, before, after + [Removed(m[k].id)])
    ensures m[k].state != Current ==> LogsRemovals(m, gone + {k}, before, after)
  {
    forall i | |before| <= i < |after| ensures WentCurrent(m, gone + {k}, after[i].id) {
      assert after[i].Removed?;
      var j :| j in m && j in gone && m[j].state == Current && m[j].id == after[i].id;
      assert j in gone + {k};
    }
    if m[k].state == Current {
      var more := after + [Removed(m[k].id)];
      assert k in gone + {k} && WentCurrent(m, gone + {k}, more[|after|].id);
      forall j | j in m && j in gone + {k} && m[j].state == Current ensures Says(before, more, Removed(m[j].id)) {
        if j == k {
          assert more[|after|] == Removed(m[j].id);
        } else {
          var i :| |before| <= i < |after| && after[i] == Removed(m[j].id);
          assert more[i] == Removed(m[j].id);
        }
      }
    }
  }

  class Session {
    const torrents: InfoHashMap<Torrent>
    var dirty: map<InfoHash, bool>
    var nextId: nat
    ghost var log: seq<Entry>
    ghost var lost: set<nat>

    ghost predicate Valid()
      reads this, torrents
    { torrents.Valid() && Ledger(torrents.items, nextId, log, lost) }

    constructor ()
      ensures Valid() && fresh(torrents) && torrents.View() == EMPTY && torrents.items == map[] && log == []
                && lost == {}
    {
      torrents := new InfoHashMap();
      dirty, nextId, log, lost := map[], 0, [], {};
    }

    /** Adds a torrent for libtorrent to take; refused when it is tracked already, under either half. `throws` says
        whether handing it to libtorrent does. */
    method Add(hash: InfoHash, state: State, data: nat, hasInfo: bool, throws: bool) returns (r: AddResult)
      requires Valid() && state != Current
      modifies this, torrents
      ensures Valid() && log == old(log) && lost == old(lost) && dirty == old(dirty)
      ensures r.Refused? <==> hash in old(torrents.items) || FindByHalf(old(torrents.View()), hash).Some?
      ensures r.Threw? <==> !r.Refused? && throws
      ensures r.Accepted? ==>
                var t := Torrent(old(nextId), state, data, 0, hash, hasInfo, hasInfo);
                torrents.items == old(torrents.items)[hash := t]
      ensures !r.Accepted? ==> torrents.items == old(torrents.items)
    {
      hide Ledger;
      var half := torrents.KeyByHalf(hash);
      if half.Some? { return Refused; }
      var t := Torrent(nextId, state, data, 0, hash, hasInfo, hasInfo);
      ghost var before := torrents.items;
      var inserted := torrents.TryEmplace(hash, t);
      if !inserted { return Refused; }
      LedgerInsert(before, nextId, log, lost, hash, t);
      nextId := nextId + 1;
      if throws {
        LedgerDrop(torrents.items, nextId, log, lost, hash);
        torrents.Remove(hash);
        assert torrents.items == before;
        return Threw;
      }
      return Accepted;
    }

    /** Mirrors a torrent libtorrent has: a fresh object adopts the handle's client data. */
    method Track(th: Handle) returns (inserted: bool)
      requires torrents.Valid()
      modifies this`nextId, torrents
      ensures torrents.Valid() && torrents.View() == Emplace(old(torrents.View()), th.hash)
      ensures inserted <==> th.hash !in old(torrents.items)
      ensures nextId == old(nextId) + if inserted then 1 else 0
      ensures var added := Torrent(old(nextId), Current, th.userdata, th.id, th.hash, th.hasMetadata, th.hasMetadata);
              torrents.items == old(torrents.items)[th.hash :=
                if inserted then added
                else old(torrents.items)[th.hash].(state := Current, handle := th.id, hashes := th.hash)]
    {
      var t := Torrent(nextId, Current, th.userdata, th.id, th.hash, th.hasMetadata, th.hasMetadata);
      inserted := torrents.TryEmplace(th.hash, t);
      if inserted {
        nextId := nextId + 1;
      } else {
        torrents.Put(th.hash, torrents.items[th.hash].(state := Current, handle := th.id, hashes := th.hash));
      }
    }

    /** Moves a torrent to its new hash, and the mark of a pending save with it. */
    method UpdateInfoHashes(prev: InfoHash, curr: InfoHash)
      requires Valid()
      modifies this`dirty, this`lost, torrents
      ensures Valid() && torrents.View() == Rekey(old(torrents.View()), prev, curr)
      ensures torrents.items == Moved(old(torrents.items), prev, curr)
      ensures lost == old(lost) + if DropsCurrent(old(torrents.items), prev, curr)
                then {old(torrents.items)[prev].id} else {}
      ensures var moved := prev in old(torrents.items) && (curr == prev || curr !in old(torrents.items));
              var left := old(dirty) - {prev};
              dirty == if moved && prev in old(dirty)
                       then left[curr := (curr in left && left[curr]) || old(dirty)[prev]]
                       else old(dirty)
    {
      hide Ledger;
      ghost var m := torrents.items;
      if prev in m {
        LedgerDrop(m, nextId, log, lost, prev);
        if curr == prev || curr !in m { LedgerMove(m, nextId, log, lost, prev, curr, m[prev].(hashes := curr)); }
      }
      var moved := torrents.Move(prev, curr);
      if !moved {
        if prev in m && m[prev].state == Current { lost := lost + {m[prev].id}; }
        return;
      }
      torrents.Put(curr, torrents.items[curr].(hashes := curr));
      assert torrents.items == Moved(m, prev, curr);
      if prev in dirty {
        var force := dirty[prev];
        dirty := dirty - {prev};
        dirty := dirty[curr := (curr in dirty && dirty[curr]) || force];
      }
    }

    /** Untracks; only a Current torrent is announced as removed. */
    method UntrackTorrent(hash: InfoHash)
      requires Valid()
      modifies this`log, torrents
      ensures Valid() && torrents.View() == Erase(old(torrents.View()), hash)
      ensures torrents.items == old(torrents.items) - {hash}
      ensures log == if hash in old(torrents.items) && old(torrents.items)[hash].state == Current
                     then old(log) + [Removed(old(torrents.items)[hash].id)] else old(log)
    {
      hide Ledger;
      if hash in torrents.items {
        LedgerDrop(torrents.items, nextId, log, lost, hash);
        var t := torrents.items[hash];
        torrents.Remove(hash);
        if t.state == Current { log := log + [Removed(t.id)]; }
      } else {
        assert torrents.items - {hash} == torrents.items;
      }
    }

    /** A torrent still being added or loaded becomes Current, announced unless it came from storage. */
    method Enter(th: Handle)
      requires Valid() && th.hash in torrents.items && torrents.items[th.hash].state != Current
      modifies this`log, torrents`items
      ensures Valid() && torrents.View() == old(torrents.View())
      ensures var t := old(torrents.items)[th.hash];
              && torrents.items == old(torrents.items)[th.hash := Entered(t, th)]
              && log == old(log) + [if t.state == Loading then Promoted(t.id) else Added(t.id)]
              && Settled(old(torrents.items), nextId, true, th, torrents.items[th.hash])
    {
      hide Ledger;
      var t := Entered(torrents.items[th.hash], th);
      ghost var e := if torrents.items[th.hash].state == Loading then Promoted(t.id) else Added(t.id);
      LedgerEnter(torrents.items, nextId, log, lost, th.hash, t, e);
      torrents.Put(th.hash, t);
      log := log + [e];
    }

    /** A torrent libtorrent has and nobody asked for is tracked, Current and announced. */
    method Adopt(th: Handle)
      requires Valid() && th.hash !in torrents.items
      modifies this`nextId, this`log, torrents
      ensures Valid() && torrents.View() == Emplace(old(torrents.View()), th.hash)
      ensures torrents.items == old(torrents.items)[th.hash :=
                Torrent(old(nextId), Current, th.userdata, th.id, th.hash, th.hasMetadata, th.hasMetadata)]
      ensures log == old(log) + [Added(old(nextId))] && nextId == old(nextId) + 1
    {
      hide Ledger;
      ghost var m := torrents.items;
      var inserted := Track(th);
      ghost var t := torrents.items[th.hash];
      LedgerInsert(m, nextId - 1, log, lost, th.hash, t.(state := Adding));
      LedgerEnter(m[th.hash := t.(state := Adding)], nextId, log, lost, th.hash, t, Added(t.id));
      assert m[th.hash := t.(state := Adding)][th.hash := t] == torrents.items;
      log := log + [Added(t.id)];
    }

    // ----- alerts

    /** An add failed: a torrent still waiting for it is dropped without announcement. */
    method OnAddFailed(key: InfoHash)
      requires Valid()
      modifies torrents
      ensures Valid()
      ensures torrents.items == if key in old(torrents.items) && old(torrents.items)[key].state != Current
                                then old(torrents.items) - {key} else old(torrents.items)
    {
      hide Ledger;
      if key in torrents.items && torrents.items[key].state != Current {
        LedgerDrop(torrents.items, nextId, log, lost, key);
        torrents.Remove(key);
      }
    }

    /** An add of something that is not tracked under the hash it was asked for: what the handle's hash leads to
        is announced whatever its state was, so a Current torrent is added again. */
    method Announce(th: Handle)
      requires Valid() && th.hash in torrents.items
      modifies this`log, torrents`items
      ensures Valid() && torrents.View() == old(torrents.View())
      ensures var t := old(torrents.items)[th.hash];
              && torrents.items == old(torrents.items)[th.hash := Entered(t, th)]
              && log == old(log) + [if t.state == Current then AddedAgain(t.id) else Added(t.id)]
              && Settled(old(torrents.items), nextId, false, th, torrents.items[th.hash])
    {
      hide Ledger;
      var t := Entered(torrents.items[th.hash], th);
      if torrents.items[th.hash].state == Current {
        LedgerUpdate(torrents.items, nextId, log, lost, th.hash, t);
        LedgerRepeat(torrents.items[th.hash := t], nextId, log, lost, t.id);
        log := log + [AddedAgain(t.id)];
      } else {
        LedgerEnter(torrents.items, nextId, log, lost, th.hash, t, Added(t.id));
        log := log + [Added(t.id)];
      }
      torrents.Put(th.hash, t);
    }

    /** An add succeeded, `key` being the hash it was asked for and the handle's the one it got. Whatever
        was tracked, the handle's hash is Current after. It is announced unless it was found under the key and
        was Current already or came from storage. A Current torrent is lost exactly when re-keying it finds
        the hash taken, and added again exactly when only the handle's hash is tracked. */
    method OnAddTorrentAlert(key: InfoHash, th: Handle)
      requires Valid()
      modifies this, torrents
      ensures Valid()
      ensures th.hash in torrents.items && torrents.items[th.hash].state == Current
      ensures lost == old(lost) + if DropsCurrent(old(torrents.items), key, th.hash)
                then {old(torrents.items)[key].id} else {}
      ensures var m := if key == th.hash then old(torrents.items) else Moved(old(torrents.items), key, th.hash);
              && torrents.items == m[th.hash := AlertLeaves(m, old(nextId), key in old(torrents.items), th)]
              && log == old(log) + AddAnnounced(m, old(nextId), key in old(torrents.items), th.hash)
              && Settled(m, old(nextId), key in old(torrents.items), th, torrents.items[th.hash])
    {
      hide Ledger;
      var found := key in torrents.items;
      if found && key != th.hash {
        UpdateInfoHashes(key, th.hash);
      }
      if !found {
        if th.hash in torrents.items { Announce(th); } else { Adopt(th); }
      } else if torrents.items[th.hash].state != Current {
        Enter(th);
      } else {
        assert torrents.items == torrents.items[th.hash := torrents.items[th.hash]];
      }
    }

    /** Metadata arrived: a torrent known by its handle only is re-keyed to the hash it has now, which is
        never taken, and the news is passed on once for every tracked torrent. */
    method OnMetadataReceivedAlert(th: Handle, valid: bool) returns (announce: bool)
      requires Valid() && th.id != 0
      modifies this`dirty, this`lost, torrents
      ensures Valid() && lost == old(lost)
      ensures !valid ==> !announce && torrents.items == old(torrents.items)
      ensures valid ==> var m := old(torrents.items);
                if th.hash in m then torrents.items == m[th.hash := m[th.hash].(announced := true)]
                    && announce == !m[th.hash].announced
                else if forall k :: k in m ==> m[k].handle != th.id then torrents.items == m && announce
                else exists k ::
                    k in m && m[k].handle == th.id && announce == !m[k].announced
                    && torrents.items == Announced(m, k, th.hash)
    {
      hide Ledger;
      if !valid { return false; }
      ghost var m := torrents.items;
      ghost var from := th.hash;
      if th.hash !in torrents.items {
        var sameHandle := set k | k in torrents.items && torrents.items[k].handle == th.id;
        if sameHandle != {} {
          var k :| k in sameHandle;
          from := k;
          UpdateInfoHashes(k, th.hash);
        } else {
          assert forall k :: k in m ==> k !in sameHandle;
        }
      }
      if th.hash !in torrents.items { return true; }
      var t := torrents.items[th.hash];
      LedgerUpdate(torrents.items, nextId, log, lost, th.hash, t.(announced := true));
      torrents.Put(th.hash, t.(announced := true));
      announce := !t.announced;
      assert from != th.hash ==> torrents.items == Announced(m, from, th.hash);
    }

    /** Untracks the given torrents one by one. */
    method UntrackAll(gone: set<InfoHash>)
      requires Valid() && gone <= torrents.items.Keys
      modifies this`log, torrents
      ensures Valid() && torrents.items == old(torrents.items) - gone
      ensures LogsRemovals(old(torrents.items), gone, old(log), log)
      ensures old(Exact(torrents.View())) ==> Exact(torrents.View())
    {
      hide Ledger, Exact, Erase, LogsRemovals;
      var todo := gone;
      ghost var m := torrents.items;
      LogsNothing(m, log);
      assert gone - todo == {};
      while todo != {}
        invariant Valid() && todo <= gone && torrents.items == m - (gone - todo)
        invariant LogsRemovals(m, gone - todo, old(log), log)
        invariant old(Exact(torrents.View())) ==> Exact(torrents.View())
        decreases todo
      {
        var hash :| hash in todo;
        EraseKeeps(torrents.View(), hash);
        LogsOneMore(m, gone - todo, old(log), log, hash);
        UntrackTorrent(hash);
        assert gone - (todo - {hash}) == gone - todo + {hash};
        todo := todo - {hash};
      }
      assert gone - todo == gone;
    }

    /** Untracks every Current torrent whose handle is no longer valid; those still being added stay. */
    method UntrackInvalidTorrents(validHandles: set<nat>)
      requires Valid()
      modifies this`log, torrents
      ensures Valid()
      ensures torrents.items == map k | k in old(torrents.items)
                && (old(torrents.items)[k].state == Current ==> old(torrents.items)[k].handle in validHandles) ::
                    old(torrents.items)[k]
      ensures LogsRemovals(old(torrents.items), old(torrents.items).Keys - torrents.items.Keys, old(log), log)
    {
      hide Ledger, LogsRemovals;
      var gone := set k | k in torrents.items && torrents.items[k].state == Current
          && torrents.items[k].handle !in validHandles;
      UntrackAll(gone);
      assert old(torrents.items).Keys - torrents.items.Keys == gone;
    }

    // ----- reconciling

    /** Client data to the key of the torrent that owns it. */
    method BuildOwners() returns (owners: map<nat, InfoHash>)
      ensures OwnersOf(owners, torrents.items)
    {
      owners := map[];
      var todo := torrents.items.Keys;
      while todo != {}
        invariant todo <= torrents.items.Keys
        invariant forall u :: u in owners ==>
                  u != 0 && owners[u] in torrents.items && torrents.items[owners[u]].data == u
        invariant forall k :: k in torrents.items && k !in todo && torrents.items[k].data != 0 ==>
                  torrents.items[k].data in owners
        decreases todo
      {
        var k :| k in todo;
        var data := torrents.items[k].data;
        if data != 0 && data !in owners { owners := owners[data := k]; }
        todo := todo - {k};
      }
    }

    /** Re-keys the owner of the handle's client data to the handle's hash, which nothing is tracked under. */
    method MoveOwner(th: Handle, owners: map<nat, InfoHash>)
      requires Valid() && th.hash !in torrents.items && FitsFor(owners, torrents.items, th.userdata)
      modifies this`dirty, this`lost, torrents
      ensures Valid() && lost == old(lost)
      ensures torrents.items == if th.userdata in owners
                then Moved(old(torrents.items), owners[th.userdata], th.hash) else old(torrents.items)
      ensures Exact(old(torrents.View())) && OnlyOwnerShares(old(torrents.items), th) ==>
                Exact(torrents.View()) && forall k :: k in torrents.items && k != th.hash ==> !SharesHalf(k, th.hash)
    {
      hide Ledger, Exact, Erase, Emplace;
      if th.userdata in owners {
        RekeyKeeps(torrents.View(), owners[th.userdata], th.hash);
        UpdateInfoHashes(owners[th.userdata], th.hash);
      }
    }

    /** Makes one live torrent tracked under its hash and Current. The owner map is built at the first
        handle that needs it and is not kept up to date. */
    method ReconcileOne(th: Handle, known: Option<map<nat, InfoHash>>) returns (owners: Option<map<nat, InfoHash>>)
      requires Valid()
      requires th.hash !in torrents.items && known.Some? ==> FitsFor(known.value, torrents.items, th.userdata)
      modifies this, torrents
      ensures Valid() && lost == old(lost)
      ensures Reconciled(old(torrents.items), torrents.items, th)
      ensures Exact(old(torrents.View())) && OnlyOwnerShares(old(torrents.items), th) ==> Exact(torrents.View())
      ensures DistinctData(old(torrents.items)) ==> DistinctData(torrents.items)
      ensures owners == known || (known.None? && owners.Some? && OwnersOf(owners.value, old(torrents.items)))
      ensures th.hash !in old(torrents.items) ==> owners.Some?
      ensures var m := if th.hash in old(torrents.items) || th.userdata !in owners.value then old(torrents.items)
                       else Moved(old(torrents.items), owners.value[th.userdata], th.hash);
              && log == old(log) + AddAnnounced(m, old(nextId), true, th.hash)
              && th.hash in torrents.items && Settled(m, old(nextId), true, th, torrents.items[th.hash])
              && forall p :: |old(log)| <= p < |log| ==>
                  log[p].id == torrents.items[th.hash].id && (log[p].Added? || log[p].Promoted?)
    {
      hide Ledger, Exact, Emplace, FitsFor, OnlyOwnerShares, SharesHalf, DistinctData, Reconciled, OwnersOf;
      owners := known;
      ghost var m := torrents.items;
      if th.hash !in torrents.items {
        if owners.None? {
          var built := BuildOwners();
          owners := Some(built);
          OwnersFit(built, m, th.userdata);
        }
        MoveOwner(th, owners.value);
        MovedOrAdopted(m, th, owners.value, nextId);
      } else {
        AlreadyTracked(m, th);
      }
      if th.hash in torrents.items {
        if torrents.items[th.hash].state != Current { Enter(th); }
      } else {
        EmplaceKeeps(torrents.View(), th.hash);
        Adopt(th);
      }
    }

    /** Drops every torrent that is not live: a Current one is announced as removed, one still being added is not. */
    method DropGone(live: set<InfoHash>)
      requires Valid()
      modifies this`log, torrents
      ensures Valid() && torrents.items == map k | k in old(torrents.items) && k in live :: old(torrents.items)[k]
      ensures LogsRemovals(old(torrents.items), old(torrents.items).Keys - live, old(log), log)
      ensures Exact(old(torrents.View())) ==> Exact(torrents.View())
    {
      hide Ledger, Exact, Erase, LogsRemovals;
      ghost var m := torrents.items;
      ghost var all := torrents.items.Keys - live;
      var gone := torrents.items.Keys - live;
      LogsNothing(m, log);
      assert all - gone == {};
      while gone != {}
        invariant Valid() && gone <= all
        invariant torrents.items == map k | k in m && (k in live || k in gone) :: m[k]
        invariant LogsRemovals(m, all - gone, old(log), log)
        invariant Exact(old(torrents.View())) ==> Exact(torrents.View())
        decreases gone
      {
        var hash :| hash in gone;
        EraseKeeps(torrents.View(), hash);
        LogsOneMore(m, all - gone, old(log), log, hash);
        if torrents.items[hash].state == Current {
          UntrackTorrent(hash);
        } else {
          LedgerDrop(torrents.items, nextId, log, lost, hash);
          torrents.Remove(hash);
        }
        assert all - (gone - {hash}) == all - gone + {hash};
        gone := gone - {hash};
      }
      assert all - gone == all;
    }

    /** Makes every live torrent tracked under its hash and Current, announcing or promoting those that were not. */
    method ReconcileLive(handles: seq<Handle>) returns (live: set<InfoHash>)
      requires Valid() && Consistent(torrents.items, handles)
      modifies this, torrents
      ensures Valid() && lost == old(lost)
      ensures live == Hashes(handles, |handles|) && |live| == |handles|
      ensures AllCurrent(torrents.items, live) && OthersStay(old(torrents.items), torrents.items, live)
      ensures LogsEntries(torrents.items, live, old(log), log)
      ensures Exact(old(torrents.View())) && NoClash(old(torrents.items), handles) ==> Exact(torrents.View())
    {
      hide Ledger, Exact, Consistent, NoClash, OwnersHold, Reconciled, LogsEntries, AddAnnounced, AllCurrent,
           OthersStay, Hashes;
      live := {};
      var owners: Option<map<nat, InfoHash>> := None;
      ghost var m := torrents.items;
      ghost var clean := Exact(torrents.View()) && NoClash(m, handles);
      NothingReconciled(m, handles, log);
      for i := 0 to |handles|
        invariant Valid() && lost == old(lost) && Consistent(torrents.items, handles)
        invariant OwnersHold(owners, torrents.items, handles, i)
        invariant live == Hashes(handles, i) && |live| == i
        invariant AllCurrent(torrents.items, live) && OthersStay(m, torrents.items, live)
        invariant LogsEntries(torrents.items, live, old(log), log)
        invariant clean ==> Exact(torrents.View()) && NoClash(torrents.items, handles)
      {
        ghost var before, known, logged := torrents.items, owners, log;
        OwnerKnown(owners, before, handles, i);
        if clean { ClashesOnly(before, handles, i); }
        owners := ReconcileOne(handles[i], owners);
        if known != owners { OwnersHoldWhenBuilt(owners.value, before, handles, i); }
        KeepsConsistent(before, torrents.items, handles, i);
        KeepsOwners(owners, before, torrents.items, handles, i);
        if clean { KeepsNoClash(before, torrents.items, handles, i); }
        OneMoreReconciled(m, before, torrents.items, handles, i, old(log), logged, log);
        live := live + {handles[i].hash};
      }
    }

    /** The repair: afterwards the tracked torrents are exactly the live ones and all Current, the ledger
        still balances, nothing was lost on a taken key, and an exact index stays exact unless halves clash.
        It announces or promotes only what it makes Current and removes only what it drops. */
    method ReconcileTorrents(handles: seq<Handle>)
      requires Valid() && Consistent(torrents.items, handles)
      modifies this, torrents
      ensures Valid() && lost == old(lost)
      ensures torrents.items.Keys == Hashes(handles, |handles|)
      ensures forall k :: k in torrents.items ==> torrents.items[k].state == Current
      ensures LogsRepair(old(torrents.items), torrents.items, old(log), log)
      ensures Exact(old(torrents.View())) && NoClash(old(torrents.items), handles) ==> Exact(torrents.View())
    {
      hide Ledger, Exact, NoClash, LogsEntries, LogsRemovals, LogsRepair, Hashes;
      ghost var m := torrents.items;
      var live := ReconcileLive(handles);
      ghost var mid, logged := torrents.items, log;
      SizeShortcut(live, torrents.items.Keys);
      LogsNothing(mid, log);
      assert |torrents.items| == |handles| ==> mid.Keys - live == {};
      if |torrents.items| != |handles| {
        DropGone(live);
        assert torrents.items.Keys == live;
      }
      LogsBoth(m, mid, torrents.items, live, old(log), logged, log);
    }
  }

  /** The hashes of the first handles. */
  ghost function Hashes(handles: seq<Handle>, n: nat): set<InfoHash>
    requires n <= |handles|
  {
    if n == 0 then {} else Hashes(handles, n - 1) + {handles[n - 1].hash}
  }

  lemma {:induction false} HashesAre(handles: seq<Handle>, n: nat, k: InfoHash)
    requires n <= |handles|
    ensures k in Hashes(handles, n) <==> exists x :: 0 <= x < n && handles[x].hash == k
    decreases n
  {
    if n > 0 { HashesAre(handles, n - 1, k); }
  }

  ghost predicate AllCurrent(m: Tracked, live: set<InfoHash>) {
    forall k :: k in live ==> k in m && m[k].state == Current
  }

  /** What is tracked beside these was tracked before. */
  ghost predicate OthersStay(m: Tracked, m': Tracked, live: set<InfoHash>) {
    forall k :: k in m' && k !in live ==> k in m && m'[k] == m[k]
  }

  lemma NothingReconciled(m: Tracked, handles: seq<Handle>, log: seq<Entry>)
    ensures Hashes(handles, 0) == {} && OthersStay(m, m, {}) && AllCurrent(m, {}) && LogsEntries(m, {}, log, log)
    ensures OwnersHold(None, m, handles, 0)
  {}

  lemma OwnerKnown(owners: Option<map<nat, InfoHash>>, m: Tracked, handles: seq<Handle>, i: nat)
    requires OwnersHold(owners, m, handles, i) && i < |handles|
    ensures handles[i].hash !in m && owners.Some? ==> FitsFor(owners.value, m, handles[i].userdata)
  {}

  lemma ClashesOnly(m: Tracked, handles: seq<Handle>, i: nat)
    requires NoClash(m, handles) && i < |handles|
    ensures OnlyOwnerShares(m, handles[i]) && DistinctData(m)
  {}

  lemma LiveStays(m: Tracked, m': Tracked, handles: seq<Handle>, i: nat)
    requires i < |handles| && Consistent(m, handles) && Reconciled(m, m', handles[i])
    ensures handles[i].hash !in Hashes(handles, i) && handles[i].hash in m' && m'[handles[i].hash].state == Current
    ensures forall k :: k in Hashes(handles, i) && k in m ==> k in m' && m'[k] == m[k]
    ensures forall k :: k in m' && k != handles[i].hash ==> k in m && m'[k] == m[k]
  {
    HashesAre(handles, i, handles[i].hash);
    forall k | k in Hashes(handles, i) && k in m ensures k in m' && m'[k] == m[k] {
      HashesAre(handles, i, k);
      var x :| 0 <= x < i && handles[x].hash == k;
      KeepsConsistent(m, m', handles, i);
    }
  }

  /** The account of a repair, carried over one more handle. */
  lemma OneMoreReconciled(m: Tracked, between: Tracked, m': Tracked, handles: seq<Handle>, i: nat,
                          log: seq<Entry>, logged: seq<Entry>, log': seq<Entry>)
    requires i < |handles| && Consistent(between, handles) && Reconciled(between, m', handles[i])
    requires |Hashes(handles, i)| == i && AllCurrent(between, Hashes(handles, i))
              && OthersStay(m, between, Hashes(handles, i))
    requires LogsEntries(between, Hashes(handles, i), log, logged) && logged <= log'
    requires forall p :: |logged| <= p < |log'| ==>
              (log'[p].Added? || log'[p].Promoted?) && handles[i].hash in m' && m'[handles[i].hash].id == log'[p].id
    ensures |Hashes(handles, i + 1)| == i + 1 && Hashes(handles, i + 1) == Hashes(handles, i) + {handles[i].hash}
    ensures AllCurrent(m', Hashes(handles, i + 1)) && OthersStay(m, m', Hashes(handles, i + 1))
    ensures LogsEntries(m', Hashes(handles, i + 1), log, log')
  {
    hide LogsEntries, Consistent, Reconciled;
    var live := Hashes(handles, i);
    assert Hashes(handles, i + 1) == live + {handles[i].hash};
    LiveStays(between, m', handles, i);
    LogsMoreEntries(between, m', live, handles[i].hash, log, logged, log');
  }

  lemma OwnersFit(owners: map<nat, InfoHash>, m: Tracked, u: nat)
    requires OwnersOf(owners, m)
    ensures FitsFor(owners, m, u)
  {}

  function Entered(t: Torrent, th: Handle): Torrent { t.(state := Current, handle := th.id, hashes := th.hash) }

  /** The three ways a handle is reconciled: already tracked, moved from its owner's key, or adopted. */
  lemma AlreadyTracked(m: Tracked, th: Handle)
    requires th.hash in m
    ensures m[th.hash].state == Current ==> Reconciled(m, m, th)
    ensures Reconciled(m, m[th.hash := Entered(m[th.hash], th)], th)
    ensures DistinctData(m) ==> DistinctData(m[th.hash := Entered(m[th.hash], th)])
  {}

  lemma MovedOrAdopted(m: Tracked, th: Handle, owners: map<nat, InfoHash>, id: nat)
    requires th.hash !in m && FitsFor(owners, m, th.userdata)
    ensures th.userdata in owners ==>
              var m' := Moved(m, owners[th.userdata], th.hash);
              && th.hash in m' && (m'[th.hash].state == Current ==> Reconciled(m, m', th))
              && Reconciled(m, m'[th.hash := Entered(m'[th.hash], th)], th)
              && (DistinctData(m) ==> DistinctData(m') && DistinctData(m'[th.hash := Entered(m'[th.hash], th)]))
    ensures th.userdata !in owners ==>
              var m' := m[th.hash := Torrent(id, Current, th.userdata, th.id, th.hash, th.hasMetadata, th.hasMetadata)];
              Reconciled(m, m', th) && (DistinctData(m) ==> DistinctData(m'))
  {}

  lemma OwnersHoldWhenBuilt(owners: map<nat, InfoHash>, m: Tracked, handles: seq<Handle>, i: nat)
    requires OwnersOf(owners, m)
    ensures OwnersHold(Some(owners), m, handles, i)
  {}

  /** The owner map of a tracked set, and what is left of it for one handle's client data later on. */
  ghost predicate OwnersOf(owners: map<nat, InfoHash>, m: Tracked) { forall u :: FitsFor(owners, m, u) }

  ghost predicate FitsFor(owners: map<nat, InfoHash>, m: Tracked, u: nat) {
    && (u in owners ==> u != 0 && owners[u] in m && m[owners[u]].data == u)
    && (u != 0 && u !in owners ==> forall k :: k in m ==> m[k].data != u)
  }

  /** Reconciling a handle touches its hash and, when the hash was not tracked, the owner of its client data. */
  ghost predicate Reconciled(m: Tracked, m': Tracked, th: Handle) {
    && th.hash in m' && m'[th.hash].state == Current
    && (m'[th.hash].data == if th.hash in m then m[th.hash].data else th.userdata)
    && (forall k :: k in m' && k != th.hash ==> k in m && m'[k] == m[k])
    && (forall k :: k in m && k != th.hash && k !in m' ==>
        th.hash !in m && th.userdata != 0 && m[k].data == th.userdata)
  }

  /** Only the owner of the handle's client data, re-keyed to its hash, may share a half with it. */
  ghost predicate OnlyOwnerShares(m: Tracked, th: Handle) {
    && (forall k :: k in m && k != th.hash && SharesHalf(k, th.hash) ==>
        th.hash !in m && th.userdata != 0 && m[k].data == th.userdata)
    && DistinctData(m)
  }

  /** Client data is owned by one torrent only. */
  ghost predicate DistinctData(m: Tracked) { forall j, k :: j in m && k in m && m[j].data == m[k].data != 0 ==> j == k }

  /** What a list of handles and the tracked set have in common before reconciling: hashes are distinct,
      so is client data, and a torrent tracked under a live hash owns that handle's client data. */
  predicate Consistent(m: Tracked, handles: seq<Handle>) {
    && (forall x, y :: 0 <= x < y < |handles| ==> handles[x].hash != handles[y].hash)
    && (forall x, y :: 0 <= x < y < |handles| && handles[x].userdata != 0 ==>
        handles[x].userdata != handles[y].userdata)
    && (forall x :: 0 <= x < |handles| && handles[x].hash in m ==> m[handles[x].hash].data == handles[x].userdata)
  }

  /** No half is shared, except with a torrent about to be re-keyed to the hash. */
  ghost predicate NoClash(m: Tracked, handles: seq<Handle>) {
    && DistinctData(m)
    && (forall x :: 0 <= x < |handles| ==> OnlyOwnerShares(m, handles[x]))
    && (forall x, y :: 0 <= x < |handles| && 0 <= y < |handles| && x != y ==>
        !SharesHalf(handles[x].hash, handles[y].hash))
  }

  /** A map built at some handle still answers for the handles to come. */
  ghost predicate OwnersHold(owners: Option<map<nat, InfoHash>>, m: Tracked, handles: seq<Handle>, i: nat) {
    owners.Some? ==>
      forall x :: i <= x < |handles| && handles[x].hash !in m ==> FitsFor(owners.value, m, handles[x].userdata)
  }

  lemma KeepsConsistent(m: Tracked, m': Tracked, handles: seq<Handle>, i: nat)
    requires Consistent(m, handles) && i < |handles| && Reconciled(m, m', handles[i])
    ensures Consistent(m', handles)
    ensures forall x :: 0 <= x < |handles| && x != i && handles[x].hash in m ==>
              handles[x].hash in m' && m'[handles[x].hash] == m[handles[x].hash]
  {}

  lemma KeepsOwners(owners: Option<map<nat, InfoHash>>, m: Tracked, m': Tracked, handles: seq<Handle>, i: nat)
    requires Consistent(m, handles) && i < |handles| && Reconciled(m, m', handles[i])
              && OwnersHold(owners, m, handles, i)
    ensures OwnersHold(owners, m', handles, i + 1)
  {}

  lemma KeepsNoClash(m: Tracked, m': Tracked, handles: seq<Handle>, i: nat)
    requires NoClash(m, handles) && i < |handles| && Reconciled(m, m', handles[i]) && DistinctData(m')
    ensures NoClash(m', handles)
  {}

  /** The sizes are equal exactly when nothing is left over, as the live hashes are all tracked. */
  lemma SizeShortcut(live: set<InfoHash>, keys: set<InfoHash>)
    requires live <= keys
    ensures |keys| == |live| <==> keys == live
  {
    assert keys == live + (keys - live);
    assert |keys| == |live| + |keys - live|;
  }

  // ----- whole runs

  datatype Step =
    | AddTorrent(hash: InfoHash, state: State, data: nat, hasInfo: bool, throws: bool)
    | AddFailed(key: InfoHash)
    | AddSucceeded(key: InfoHash, th: Handle)
    | TorrentRemoved(hash: InfoHash)
    | MetadataReceived(th: Handle, valid: bool)
    | Sweep(validHandles: set<nat>)
    | Reconcile(handles: seq<Handle>)

  /** What a step loses: only an add alert whose torrent is Current and finds the handle's hash taken. */
  ghost function LostBy(m: Tracked, step: Step): set<nat> {
    if step.AddSucceeded? && DropsCurrent(m, step.key, step.th.hash) then {m[step.key].id} else {}
  }

  /** What a step adds again: only an add alert for a hash not tracked whose handle's hash is, and is Current. */
  ghost function AddedAgainBy(m: Tracked, step: Step): seq<nat> {
    if step.AddSucceeded? && step.key !in m && step.th.hash in m
        && m[step.th.hash].state == Current then [m[step.th.hash].id] else []
  }

  ghost function LostOver(trace: seq<Tracked>, steps: seq<Step>, n: nat): set<nat>
    requires n <= |steps| && n <= |trace|
  { if n == 0 then {} else LostOver(trace, steps, n - 1) + LostBy(trace[n - 1], steps[n - 1]) }

  ghost function AddedAgainOver(trace: seq<Tracked>, steps: seq<Step>, n: nat): seq<nat>
    requires n <= |steps| && n <= |trace|
  { if n == 0 then [] else AddedAgainOver(trace, steps, n - 1) + AddedAgainBy(trace[n - 1], steps[n - 1]) }

  lemma {:induction false} SameOver(trace: seq<Tracked>, more: seq<Tracked>, steps: seq<Step>, n: nat)
    requires n <= |steps| && n <= |trace| && trace <= more
    ensures LostOver(trace, steps, n) == LostOver(more, steps, n)
              && AddedAgainOver(trace, steps, n) == AddedAgainOver(more, steps, n)
    decreases n
  {
    if n > 0 { SameOver(trace, more, steps, n - 1); }
  }

  lemma {:induction false} NothingOver(trace: seq<Tracked>, steps: seq<Step>, n: nat)
    requires n <= |steps| && n <= |trace|
    requires forall i :: 0 <= i < |steps| && steps[i].AddSucceeded? ==> steps[i].key == steps[i].th.hash
    ensures LostOver(trace, steps, n) == {} && AddedAgainOver(trace, steps, n) == []
    decreases n
  {
    if n > 0 { NothingOver(trace, steps, n - 1); }
  }

  /** What a step makes of the tracked torrents. */
  ghost predicate Took(m: Tracked, step: Step, m': Tracked) {
    match step
    case AddTorrent(hash, _, _, _, _) => m' == m || (hash !in m && m'.Keys == m.Keys + {hash} && m' - {hash} == m)
    case AddFailed(key) => m' == if key in m && m[key].state != Current then m - {key} else m
    case AddSucceeded(key, th) => th.hash in m' && m'[th.hash].state == Current
    case TorrentRemoved(hash) => m' == m - {hash}
    case MetadataReceived(th, valid) => valid && th.id != 0 && th.hash in m ==> th.hash in m' && m'[th.hash].announced
    case Sweep(validHandles) =>
      m' == map k | k in m && (m[k].state == Current ==> m[k].handle in validHandles) :: m[k]
    case Reconcile(handles) =>
      Consistent(m, handles) ==> m'.Keys == Hashes(handles, |handles|) && AllCurrent(m', m'.Keys)
  }

  method TakeStep(session: Session, step: Step)
    requires session.Valid()
    modifies session, session.torrents
    ensures Took(old(session.torrents.items), step, session.torrents.items)
    ensures session.Valid() && session.lost == old(session.lost) + LostBy(old(session.torrents.items), step)
    ensures AddedAgainIn(session.log) ==
              AddedAgainIn(old(session.log)) + AddedAgainBy(old(session.torrents.items), step)
  {
    hide Ledger, AddedAgainIn;
    ghost var log := session.log;
    NoneAddedAgain(log, log);
    match step {
      case AddTorrent(hash, state, data, hasInfo, throws) =>
        if state != Current { var r := session.Add(hash, state, data, hasInfo, throws); }
      case AddFailed(key) => session.OnAddFailed(key);
      case AddSucceeded(key, th) =>
        ghost var m, next := session.torrents.items, session.nextId;
        session.OnAddTorrentAlert(key, th);
        AlertAddsAgain(m, step, next, log, session.log);
      case TorrentRemoved(hash) =>
        session.UntrackTorrent(hash);
        NoneAddedAgain(log, session.log);
      case MetadataReceived(th, valid) =>
        if th.id != 0 { var announce := session.OnMetadataReceivedAlert(th, valid); }
      case Sweep(validHandles) =>
        session.UntrackInvalidTorrents(validHandles);
        NoneAddedAgain(log, session.log);
      case Reconcile(handles) =>
        if Consistent(session.torrents.items, handles) {
          session.ReconcileTorrents(handles);
          NoneAddedAgain(log, session.log);
        }
    }
  }

  lemma AlertAddsAgain(m: Tracked, step: Step, id: nat, before: seq<Entry>, after: seq<Entry>)
    requires step.AddSucceeded?
    requires var moved := if step.key == step.th.hash then m else Moved(m, step.key, step.th.hash);
             after == before + AddAnnounced(moved, id, step.key in m, step.th.hash)
    ensures AddedAgainIn(after) == AddedAgainIn(before) + AddedAgainBy(m, step)
  {
    assert after[..|before|] == before;
    assert |after| == |before| || after[..|after| - 1] == before;
  }

  /** Any sequence of user adds, alerts, sweeps and repairs keeps the indexes sound and the ledger balanced, and each
      step makes of the tracked torrents what it is for. What was
      lost and what was added again is exactly what the add alerts did whose guards held in the states they met:
      nothing at all when every alert comes under the hash it was asked for. */
  method Run(session: Session, steps: seq<Step>) returns (ghost trace: seq<Tracked>)
    requires session.Valid()
    modifies session, session.torrents
    ensures session.Valid()
    ensures |trace| == |steps| + 1 && trace[0] == old(session.torrents.items)
              && trace[|steps|] == session.torrents.items
    ensures forall i :: 0 <= i < |steps| ==> Took(trace[i], steps[i], trace[i + 1])
    ensures session.lost == old(session.lost) + LostOver(trace, steps, |steps|)
    ensures AddedAgainIn(session.log) == AddedAgainIn(old(session.log)) + AddedAgainOver(trace, steps, |steps|)
    ensures (forall i :: 0 <= i < |steps| && steps[i].AddSucceeded? ==> steps[i].key == steps[i].th.hash) ==>
              session.lost == old(session.lost) && AddedAgainIn(session.log) == AddedAgainIn(old(session.log))
  {
    hide Ledger, AddedAgainIn, LostBy, AddedAgainBy, Took;
    trace := [session.torrents.items];
    for i := 0 to |steps|
      invariant session.Valid()
      invariant |trace| == i + 1 && trace[0] == old(session.torrents.items) && trace[i] == session.torrents.items
      invariant forall k :: 0 <= k < i ==> Took(trace[k], steps[k], trace[k + 1])
      invariant session.lost == old(session.lost) + LostOver(trace, steps, i)
      invariant AddedAgainIn(session.log) == AddedAgainIn(old(session.log)) + AddedAgainOver(trace, steps, i)
    {
      TakeStep(session, steps[i]);
      ghost var before := trace;
      trace := trace + [session.torrents.items];
      SameOver(before, trace, steps, i);
    }
    if forall i :: 0 <= i < |steps| && steps[i].AddSucceeded? ==> steps[i].key == steps[i].th.hash {
      NothingOver(trace, steps, |steps|);
    }
  }

  // ----- what becomes of an added torrent

  /** A torrent waiting for its add alert gets it, outlives a sweep that finds the handle valid, and is re-keyed when
      its metadata brings a hash of its own: it is the same torrent under the new hash, Current and announced. */
  method FromAddToMetadata(session: Session, th: Handle, validHandles: set<nat>, hash: InfoHash)
    requires session.Valid() && th.hash in session.torrents.items
    requires session.torrents.items[th.hash].state != Current && th.id != 0 && th.id in validHandles
    requires hash !in session.torrents.items
    requires forall k :: k in session.torrents.items && k != th.hash ==> session.torrents.items[k].handle != th.id
    modifies session, session.torrents
    ensures session.Valid() && hash in session.torrents.items && th.hash !in session.torrents.items
    ensures var t, was := session.torrents.items[hash], old(session.torrents.items)[th.hash];
            && t.id == was.id && t.state == Current && t.handle == th.id && t.hashes == hash
            && t.data == was.data && t.announced && t.saved == was.saved
    ensures session.lost == old(session.lost)
  {
    hide Ledger, AddAnnounced, FindByHalf, Emplace, Rekey, LogsRemovals;
    session.OnAddTorrentAlert(th.hash, th);
    ghost var entered := session.torrents.items;
    session.UntrackInvalidTorrents(validHandles);
    assert th.hash in session.torrents.items && session.torrents.items[th.hash] == entered[th.hash];
    var announce := session.OnMetadataReceivedAlert(Handle(th.id, hash, th.userdata, true), true);
  }

  // ----- two runs that end badly

  ghost predicate Unused(session: Session)
    reads session, session.torrents
  {
    session.Valid() && session.torrents.items == map[] && session.torrents.View() == EMPTY && session.log == []
        && session.lost == {}
  }

  /** A magnet nobody asked Porla for gains its other half with the metadata, and then a second add alert comes under
      its old hash: the torrent is announced twice and never removed. */
  method AddedTwice(session: Session, a: nat, b: nat)
    requires Unused(session) && a != 0 && b != 0
    modifies session, session.torrents
    ensures session.log == [Added(old(session.nextId)), AddedAgain(old(session.nextId))]
  {
    hide Ledger;
    var magnet, hybrid := InfoHash(a, 0), InfoHash(a, b);
    session.OnAddTorrentAlert(magnet, Handle(1, magnet, 0, false));
    assert session.log == [Added(old(session.nextId))];
    var announce := session.OnMetadataReceivedAlert(Handle(1, hybrid, 0, true), true);
    session.OnAddTorrentAlert(magnet, Handle(1, hybrid, 0, true));
  }

  /** Magnets for the two halves of one hybrid torrent are Current. The second gains the full hash when an alert for
      the first comes with it, and the first is dropped while Current. */
  method LostToItsOtherHalf(session: Session, a: nat, b: nat)
    requires Unused(session) && a != 0 && b != 0
    modifies session, session.torrents
    ensures session.lost == {old(session.nextId)} && session.torrents.items.Keys == {InfoHash(a, b)}
  {
    hide Ledger, AddAnnounced, FindByHalf, Emplace, Rekey;
    var first, second, hybrid := InfoHash(a, 0), InfoHash(0, b), InfoHash(a, b);
    session.OnAddTorrentAlert(first, Handle(1, first, 0, false));
    assert session.torrents.items.Keys == {first};
    session.OnAddTorrentAlert(second, Handle(2, second, 0, false));
    assert session.torrents.items.Keys == {first, second};
    var announce := session.OnMetadataReceivedAlert(Handle(2, hybrid, 0, true), true);
    assert session.torrents.items.Keys == {first, hybrid};
    session.OnAddTorrentAlert(first, Handle(1, hybrid, 0, true));
  }
}
