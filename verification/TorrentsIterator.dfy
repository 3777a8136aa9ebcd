/** The iterator scripts walk a session with: every call takes up the ordered map after the last hash
    seen, and torrents come and go between the calls. */
module TorrentsIterator {
  import opened Common
  import opened InfoHashes

  /** The order of the map: by the v1 half, then by the v2 half. */
  predicate Less(a: InfoHash, b: InfoHash) { a.v1 < b.v1 || (a.v1 == b.v1 && a.v2 < b.v2) }

  /** Of two hashes one is less, never both, and what is less than a lesser one is less: the order is by the v1 half,
      and among hashes with the same one by the v2 half. */
  lemma LessOrders(a: InfoHash, b: InfoHash, c: InfoHash)
    ensures a != b ==> (Less(a, b) <==> !Less(b, a))
    ensures !Less(a, a) && (Less(a, b) && Less(b, c) ==> Less(a, c))
    ensures a.v1 < b.v1 ==> Less(a, b)
    ensures a.v1 == b.v1 && a.v2 < b.v2 ==> Less(a, b)
  {}

  predicate Above(k: InfoHash, last: Option<InfoHash>) { last.None? || Less(last.value, k) }

  /** A tracked torrent: whether its state is Current, and its status. */
  datatype Item<S> = Item(current: bool, status: S)

  type Snapshot<S> = map<InfoHash, Item<S>>

  predicate Matches<S>(query: Option<S -> bool>, status: S) { query.None? || query.value(status) }

  predicate Wanted<S>(m: Snapshot<S>, query: Option<S -> bool>, k: InfoHash) {
    k in m && m[k].current && Matches(query, m[k].status)
  }

  ghost predicate Least(k: InfoHash, keys: set<InfoHash>) {
    k in keys && forall j :: j in keys && j != k ==> Less(k, j)
  }

  /** The first key after the given one in the order of the map. */
  method UpperBound(keys: set<InfoHash>, last: Option<InfoHash>) returns (first: Option<InfoHash>)
    ensures first.None? ==> forall k :: k in keys ==> !Above(k, last)
    ensures first.Some? ==> Least(first.value, set k | k in keys && Above(k, last))
  {
    ghost var above := set k | k in keys && Above(k, last);
    first := None;
    var left := keys;
    while left != {}
      invariant left <= keys
      invariant first.None? ==> forall k :: k in keys - left ==> !Above(k, last)
      invariant first.Some? ==> Least(first.value, above - left)
      decreases |left|
    {
      var k :| k in left;
      ghost var before := above - left;
      left := left - {k};
      if Above(k, last) {
        assert above - left == before + {k};
        if first.None? || Less(k, first.value) { first := Some(k); }
      } else {
        assert above - left == before;
      }
    }
    assert above - left == above;
  }

  class TorrentsIterator<S> {
    const query: Option<S -> bool>
    var last: Option<InfoHash>

    constructor (query: Option<S -> bool>)
      ensures this.query == query && last == None
    {
      this.query, last := query, None;
    }

    /** The next wanted torrent; the last hash also moves over Current torrents the query leaves out.
        Without a session there is nothing to return and nothing moves. */
    method Next(session: Option<Snapshot<S>>) returns (next: Option<(InfoHash, S)>)
      modifies this
      ensures session.None? ==> next == None && last == old(last)
      ensures next.Some? ==>
                var (k, status) := next.value;
                && last == Some(k) && Above(k, old(last))
                && Wanted(session.value, query, k) && status == session.value[k].status
                && session.value[k].current && (query.Some? ==> query.value(status))
                && forall j :: Wanted(session.value, query, j) && Above(j, old(last)) && j != k ==> Less(k, j)
      ensures session.Some? && next.None? ==>
                && (forall j :: Wanted(session.value, query, j) ==> !Above(j, old(last)))
                && (forall j :: j in session.value && session.value[j].current ==> !Above(j, last))
                && (last == old(last) || (last.Some? && last.value in session.value
                    && session.value[last.value].current))
      ensures last == old(last) || (last.Some? && Above(last.value, old(last)))
    {
      if session.None? { return None; }
      var m := session.value;
      var cursor := last;
      var at := UpperBound(m.Keys, cursor);
      while at.Some?
        invariant at.None? ==> forall k :: k in m ==> !Above(k, cursor)
        invariant at.Some? ==> Least(at.value, set k | k in m.Keys && Above(k, cursor))
        invariant cursor == old(last) || (cursor.Some? && Above(cursor.value, old(last)))
        invariant forall k :: k in m && Above(k, old(last)) && !Above(k, cursor) ==> !Wanted(m, query, k)
        invariant forall k :: k in m && m[k].current && Above(k, old(last)) && !Above(k, cursor) ==> !Above(k, last)
        invariant last == old(last) || (last.Some? && Above(last.value, old(last)) && !Above(last.value, cursor))
        invariant last == old(last) || (last.value in m && m[last.value].current)
        decreases set k | k in m.Keys && Above(k, cursor)
      {
        var hash := at.value;
        ghost var above := set k | k in m.Keys && Above(k, cursor);
        if m[hash].current {
          last := Some(hash);
          if Matches(query, m[hash].status) { return Some((hash, m[hash].status)); }
        }
        cursor := Some(hash);
        assert (set k | k in m.Keys && Above(k, cursor)) == above - {hash};
        at := UpperBound(m.Keys, cursor);
      }
      return None;
    }
  }

  /** The torrent stays tracked, Current and matching up to and including call `n`. */
  ghost predicate Steady<S>(sessions: seq<Option<Snapshot<S>>>, query: Option<S -> bool>, k: InfoHash, n: int) {
    forall i :: 0 <= i <= n && i < |sessions| ==> sessions[i].Some? && Wanted(sessions[i].value, query, k)
  }

  ghost predicate Yields<S>(out: seq<Option<(InfoHash, S)>>, i: int, k: InfoHash) {
    0 <= i < |out| && out[i].Some? && out[i].value.0 == k
  }

  /** Call after call, each on whatever the session then holds: the hashes returned strictly increase,
      each was wanted at its call, and a torrent that stays until the iterator first returns nothing has
      been returned before that, once. */
  method Walk<S>(query: Option<S -> bool>, sessions: seq<Option<Snapshot<S>>>) returns (out: seq<Option<(InfoHash, S)>>)
    ensures |out| == |sessions|
    ensures forall i, j :: 0 <= i < j < |out| && out[i].Some? && out[j].Some? ==> Less(out[i].value.0, out[j].value.0)
    ensures forall i :: 0 <= i < |out| && out[i].Some? ==>
              && sessions[i].Some? && Wanted(sessions[i].value, query, out[i].value.0)
              && out[i].value.1 == sessions[i].value[out[i].value.0].status
              && sessions[i].value[out[i].value.0].current && (query.Some? ==> query.value(out[i].value.1))
    ensures forall k, n: nat :: n < |out| && out[n].None? && Steady(sessions, query, k, n) ==>
              exists i :: 0 <= i < n && Yields(out, i, k) && forall j :: Yields(out, j, k) ==> j == i
  {
    var it := new TorrentsIterator(query);
    out := [];
    for c := 0 to |sessions|
      invariant |out| == c && it.query == query
      invariant forall i :: 0 <= i < c && out[i].Some? ==> it.last.Some? && !Less(it.last.value, out[i].value.0)
      invariant forall i, j :: 0 <= i < j < c && out[i].Some? && out[j].Some? ==> Less(out[i].value.0, out[j].value.0)
      invariant forall i :: 0 <= i < c && out[i].Some? ==>
                  && sessions[i].Some? && Wanted(sessions[i].value, query, out[i].value.0)
                  && out[i].value.1 == sessions[i].value[out[i].value.0].status
      invariant forall k :: Steady(sessions, query, k, c - 1) && !Above(k, it.last) ==> exists i :: Yields(out, i, k)
      invariant forall k, n: nat :: n < c && out[n].None? && Steady(sessions, query, k, n) ==>
                exists i :: i < n && Yields(out, i, k)
    {
      ghost var was := it.last;
      ghost var before := out;
      var next := it.Next(sessions[c]);
      out := out + [next];
      assert forall i, k :: Yields(before, i, k) ==> Yields(out, i, k);
      forall k | Steady(sessions, query, k, c) && !Above(k, it.last) ensures exists i :: Yields(out, i, k) {
        assert Steady(sessions, query, k, c - 1) && Wanted(sessions[c].value, query, k);
        if Above(k, was) { assert Yields(out, c, k); }
      }
      forall k | next.None? && Steady(sessions, query, k, c) ensures exists i :: i < c && Yields(out, i, k) {
        assert Steady(sessions, query, k, c - 1) && Wanted(sessions[c].value, query, k);
        var i :| Yields(before, i, k);
        assert Yields(out, i, k);
      }
    }
  }
}
