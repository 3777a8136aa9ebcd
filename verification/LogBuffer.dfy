/** The in-memory log: a byte-bounded buffer of numbered entries, paging by cursor,
    and what a reader polling between writes is guaranteed to see. */
module LogBuffer {
  import opened Common

  const MAX_MESSAGE_SIZE := 8 * 1024

  datatype Value = Empty | Bool(b: bool) | Int(i: int) | Double(r: real) | Str(s: string)

  datatype Entry = Entry(seqNo: nat, ts: int, level: nat, component: Option<string>, properties: seq<(string, Value)>,
      message: string)

  /** What a query asks for, apart from where it starts and how much it returns. */
  datatype Selection = Selection(component: Option<string>, minLevel: nat, pluginId: Option<int>)

  datatype Query = Query(after: Option<nat>, limit: nat, selection: Selection)

  datatype Page = Page(entries: seq<Entry>, cursor: nat)

  // ----- sizes and truncation

  /** The fixed part of an entry and of one of its properties, in bytes. */
  datatype Sizes = Sizes(entry: nat, property: nat)

  function Cut(s: string): string { if |s| > MAX_MESSAGE_SIZE then s[..MAX_MESSAGE_SIZE] else s }

  function CutProperties(ps: seq<(string, Value)>): seq<(string, Value)> {
    seq(|ps|, i requires 0 <= i < |ps| => if ps[i].1.Str? then (ps[i].0, Str(Cut(ps[i].1.s))) else ps[i])
  }

  /** What is kept of a pushed entry. */
  function Stored(e: Entry, seqNo: nat): Entry {
    e.(seqNo := seqNo, message := Cut(e.message), properties := CutProperties(e.properties))
  }

  /** A text kept whole when it is short enough, else as its first 8192 characters. */
  ghost predicate Kept(kept: string, text: string) {
    kept <= text && |kept| == if |text| <= 8192 then |text| else 8192
  }

  /** An entry is kept field by field, its texts shortened, under its number. */
  ghost predicate KeptAs(e: Entry, kept: Entry, seqNo: nat) {
    && kept.seqNo == seqNo && kept.ts == e.ts && kept.level == e.level && kept.component == e.component
    && Kept(kept.message, e.message) && |kept.properties| == |e.properties|
    && forall i :: 0 <= i < |e.properties| ==> KeptProperty(e.properties[i], kept.properties[i])
  }

  ghost predicate KeptProperty(p: (string, Value), kept: (string, Value)) {
    && kept.0 == p.0
    && if p.1.Str? then kept.1.Str? && Kept(kept.1.s, p.1.s) else kept.1 == p.1
  }

  lemma StoredIsKept(e: Entry, seqNo: nat)
    ensures KeptAs(e, Stored(e, seqNo), seqNo)
  {}

  function PropertiesSize(ps: seq<(string, Value)>, n: nat, sizes: Sizes): nat
    requires n <= |ps|
  {
    if n == 0 then 0
    else
      var text := if ps[n - 1].1.Str? then |ps[n - 1].1.s| else 0;
      PropertiesSize(ps, n - 1, sizes) + sizes.property + |ps[n - 1].0| + text
  }

  function SizeOf(e: Entry, sizes: Sizes): nat {
    sizes.entry + |e.message| + PropertiesSize(e.properties, |e.properties|, sizes)
  }

  /** An entry takes its fixed part and its message; every property its fixed part, its name and, if it is a text, that
      text. */
  lemma SizeCounts(e: Entry, name: string, value: Value, sizes: Sizes)
    ensures e.properties == [] ==> SizeOf(e, sizes) == sizes.entry + |e.message|
    ensures SizeOf(e.(properties := e.properties + [(name, value)]), sizes) ==
              SizeOf(e, sizes) + sizes.property + |name| + if value.Str? then |value.s| else 0
  {
    PrefixSize(e.properties, e.properties + [(name, value)], |e.properties|, sizes);
  }

  lemma {:induction false} PrefixSize(ps: seq<(string, Value)>, qs: seq<(string, Value)>, n: nat, sizes: Sizes)
    requires n <= |ps| && ps <= qs
    ensures PropertiesSize(ps, n, sizes) == PropertiesSize(qs, n, sizes)
    decreases n
  {
    if n > 0 { PrefixSize(ps, qs, n - 1, sizes); }
  }

  /** The sizes of es[lo..hi] together. */
  function TotalSize(es: seq<Entry>, lo: nat, hi: nat, sizes: Sizes): nat
    requires lo <= hi <= |es|
    decreases hi - lo
  {
    if lo == hi then 0 else SizeOf(es[lo], sizes) + TotalSize(es, lo + 1, hi, sizes)
  }

  lemma {:induction false} TotalSizeAppend(es: seq<Entry>, lo: nat, e: Entry, sizes: Sizes)
    requires lo <= |es|
    ensures TotalSize(es + [e], lo, |es| + 1, sizes) == TotalSize(es, lo, |es|, sizes) + SizeOf(e, sizes)
    decreases |es| - lo
  {
    if lo < |es| { TotalSizeAppend(es, lo + 1, e, sizes); }
  }

  lemma TotalSizeFirst(es: seq<Entry>, lo: nat, hi: nat, sizes: Sizes)
    requires lo < hi <= |es|
    ensures TotalSize(es, lo, hi, sizes) == SizeOf(es[lo], sizes) + TotalSize(es, lo + 1, hi, sizes)
  {}

  // ----- filtering

  function PluginIdOf(ps: seq<(string, Value)>): Option<Value> {
    if ps == [] then None else if ps[0].0 == "plugin_id" then Some(ps[0].1) else PluginIdOf(ps[1..])
  }

  predicate Included(q: Selection, e: Entry) {
    && e.level >= q.minLevel
    && (q.component.Some? ==> e.component == q.component)
    && (q.pluginId.Some? ==> PluginIdOf(e.properties) == Some(Int(q.pluginId.value)))
  }

  /** The first property of the name is this one. */
  ghost predicate FirstNamed(ps: seq<(string, Value)>, name: string, value: Value) {
    exists i :: 0 <= i < |ps| && ps[i] == (name, value) && forall j :: 0 <= j < i ==> ps[j].0 != name
  }

  /** A selection asks for a level, for a component when it names one, and for the number of a plugin when it names
      one, which is the entry's first property of that name. */
  lemma SelectionMeans(q: Selection, e: Entry)
    ensures Included(q, e) <==>
              && e.level >= q.minLevel
              && (q.component == None || e.component == q.component)
              && (q.pluginId == None || FirstNamed(e.properties, "plugin_id", Int(q.pluginId.value)))
  {
    forall value ensures PluginIdOf(e.properties) == Some(value) <==> FirstNamed(e.properties, "plugin_id", value) {
      PluginIdIsFirst(e.properties, value);
    }
  }

  lemma {:induction false} PluginIdIsFirst(ps: seq<(string, Value)>, value: Value)
    ensures PluginIdOf(ps) == Some(value) <==> FirstNamed(ps, "plugin_id", value)
    decreases |ps|
  {
    if ps != [] && ps[0].0 != "plugin_id" {
      PluginIdIsFirst(ps[1..], value);
      if FirstNamed(ps[1..], "plugin_id", value) {
        var i :| 0 <= i < |ps| - 1 && ps[1..][i] == ("plugin_id", value)
                 && forall j :: 0 <= j < i ==> ps[1..][j].0 != "plugin_id";
        assert ps[i + 1] == ("plugin_id", value);
        assert forall j :: 0 <= j < i + 1 ==> j == 0 || ps[j] == ps[1..][j - 1];
      }
      if FirstNamed(ps, "plugin_id", value) {
        var i :| 0 <= i < |ps| && ps[i] == ("plugin_id", value) && forall j :: 0 <= j < i ==> ps[j].0 != "plugin_id";
        assert ps[1..][i - 1] == ("plugin_id", value);
        assert forall j :: 0 <= j < i - 1 ==> ps[1..][j] == ps[j + 1];
      }
    } else if ps != [] {
      assert ps[0].0 == "plugin_id";
      if ps[0].1 == value { assert ps[0] == ("plugin_id", value); }
    }
  }

  /** The places of the included entries of es[lo..hi], in order. */
  function Filter(q: Selection, es: seq<Entry>, lo: nat, hi: nat): (r: seq<nat>)
    requires lo <= hi <= |es|
    ensures forall k :: 0 <= k < |r| ==> lo <= r[k] < hi
    decreases hi - lo
  {
    if lo == hi then [] else Filter(q, es, lo, hi - 1) + if Included(q, es[hi - 1]) then [hi - 1] else []
  }

  lemma {:induction false} FilterSplit(q: Selection, es: seq<Entry>, lo: nat, mid: nat, hi: nat)
    requires lo <= mid <= hi <= |es|
    ensures Filter(q, es, lo, hi) == Filter(q, es, lo, mid) + Filter(q, es, mid, hi)
    decreases hi - mid
  {
    if mid < hi { FilterSplit(q, es, lo, mid, hi - 1); }
  }

  lemma FilterNothing(q: Selection, es: seq<Entry>, lo: nat)
    requires lo <= |es|
    ensures Filter(q, es, lo, lo) == []
  {}

  lemma FilterLast(q: Selection, es: seq<Entry>, lo: nat, hi: nat)
    requires lo <= hi < |es|
    ensures Filter(q, es, lo, hi + 1) == if Included(q, es[hi])
              then Filter(q, es, lo, hi) + [hi] else Filter(q, es, lo, hi)
  {}

  lemma FilterFirst(q: Selection, es: seq<Entry>, lo: nat, hi: nat)
    requires lo < hi <= |es|
    ensures Filter(q, es, lo, hi) == if Included(q, es[lo])
              then [lo] + Filter(q, es, lo + 1, hi) else Filter(q, es, lo + 1, hi)
  {
    FilterSplit(q, es, lo, lo + 1, hi);
    FilterNothing(q, es, lo);
    FilterLast(q, es, lo, lo);
  }

  ghost predicate Ascending(r: seq<nat>) { forall i, j :: 0 <= i < j < |r| ==> r[i] < r[j] }

  /** Filtering keeps exactly the places of included entries, ascending. */
  lemma {:induction false} FilterMeaning(q: Selection, es: seq<Entry>, lo: nat, hi: nat)
    requires lo <= hi <= |es|
    ensures Ascending(Filter(q, es, lo, hi))
    ensures forall i :: i in Filter(q, es, lo, hi) <==> lo <= i < hi && Included(q, es[i])
    decreases hi - lo
  {
    if lo < hi { FilterMeaning(q, es, lo, hi - 1); }
  }

  /** `out` lists the entries of `es` at the given places. */
  ghost predicate Shows(out: seq<Entry>, es: seq<Entry>, places: seq<nat>) {
    |out| == |places| && forall k :: 0 <= k < |out| ==> places[k] < |es| && out[k] == es[places[k]]
  }

  lemma ShowsConcat(a: seq<Entry>, b: seq<Entry>, es: seq<Entry>, at: seq<nat>, bt: seq<nat>)
    requires Shows(a, es, at) && Shows(b, es, bt)
    ensures Shows(a + b, es, at + bt)
  {}

  lemma ShowsNothing(es: seq<Entry>)
    ensures Shows([], es, [])
  {}

  lemma ShowsSize(a: seq<Entry>, es: seq<Entry>, at: seq<nat>)
    requires Shows(a, es, at)
    ensures |a| == |at|
  {}

  lemma ShowsOne(a: seq<Entry>, e: Entry, es: seq<Entry>, at: seq<nat>, p: nat)
    requires Shows(a, es, at) && p < |es| && e == es[p]
    ensures Shows(a + [e], es, at + [p]) && Shows([e] + a, es, [p] + at)
  {}

  /** Entries are numbered from one without gaps. */
  ghost predicate Numbered(history: seq<Entry>) { forall i :: 0 <= i < |history| ==> history[i].seqNo == i + 1 }

  lemma NumberedAppend(history: seq<Entry>, e: Entry)
    requires Numbered(history) && e.seqNo == |history| + 1
    ensures Numbered(history + [e])
  {}

  function Newest(places: seq<nat>, limit: nat): (r: seq<nat>)
    ensures |r| == if |places| < limit then |places| else limit
    ensures r == places[|places| - |r|..]
  {
    if |places| <= limit then places else places[|places| - limit..]
  }

  /** A limit of zero is no limit when paging forward. */
  function Oldest(places: seq<nat>, limit: nat): (r: seq<nat>)
    ensures r <= places
  {
    if limit > 0 && |places| >= limit then places[..limit] else places
  }

  lemma NewestSplit(q: Selection, es: seq<Entry>, lo: nat, mid: nat, hi: nat, limit: nat)
    requires lo <= mid <= hi <= |es| && |Filter(q, es, mid, hi)| <= limit
    requires mid == lo || |Filter(q, es, mid, hi)| == limit
    ensures Newest(Filter(q, es, lo, hi), limit) == Filter(q, es, mid, hi)
  {
    FilterSplit(q, es, lo, mid, hi);
  }

  lemma OldestSplit(q: Selection, es: seq<Entry>, lo: nat, mid: nat, hi: nat, limit: nat)
    requires lo < mid <= hi <= |es| && |Filter(q, es, lo, mid)| == limit && Included(q, es[mid - 1])
    ensures Oldest(Filter(q, es, lo, hi), limit) == Filter(q, es, lo, mid)
    ensures CursorAfter(Filter(q, es, lo, hi), limit, hi) == mid
  {}

  /** Fewer candidates than the limit are all on the page. */
  lemma OldestAll(places: seq<nat>, limit: nat, lastSeq: nat)
    requires limit > 0 ==> |places| < limit
    ensures Oldest(places, limit) == places && CursorAfter(places, limit, lastSeq) == lastSeq
  {}

  /** Where the next page starts: only a full page keeps the cursor back. */
  function CursorAfter(places: seq<nat>, limit: nat, lastSeq: nat): nat {
    if limit > 0 && |places| >= limit then places[limit - 1] + 1 else lastSeq
  }

  /** `entries` is what is left of the history once `gone` entries are dropped from its front. */
  ghost predicate Suffix(entries: seq<Entry>, history: seq<Entry>, gone: nat) {
    gone + |entries| == |history| && forall j {:trigger entries[j]} :: 0 <= j < |entries| ==>
        entries[j] == history[gone + j]
  }

  function Later(a: nat, b: nat): nat { if a < b then b else a }

  class Buffer {
    const capacity: nat
    const sizes: Sizes
    var entries: seq<Entry>
    var lastSeq: nat
    var size: nat
    ghost var history: seq<Entry>  // everything ever pushed
    ghost var evicted: nat         // how many of them are gone

    /** The entries are the longest recent run of the numbered history that fits, or the last entry alone. */
    ghost predicate Valid()
      reads this
    {
      && lastSeq == |history| && Numbered(history)
      && Suffix(entries, history, evicted)
      && (history != [] ==> evicted < |history|)
      && size == TotalSize(history, evicted, |history|, sizes)
      && (size <= capacity || |entries| == 1)
      && (evicted > 0 ==> TotalSize(history, evicted - 1, |history|, sizes) > capacity)
    }

    constructor (capacity: nat, sizes: Sizes)
      ensures Valid() && history == [] && this.capacity == capacity && this.sizes == sizes
    {
      this.capacity, this.sizes := capacity, sizes;
      entries, lastSeq, size, history, evicted := [], 0, 0, [], 0;
    }

    /** Numbers the entry, appends it and evicts from the front. */
    method Push(entry: Entry)
      requires Valid()
      modifies this
      ensures Valid() && history == old(history) + [Stored(entry, old(lastSeq) + 1)] && evicted >= old(evicted)
      ensures KeptAs(entry, history[|old(history)|], |history|)
    {
      hide TotalSize, SizeOf, CutProperties, Cut, KeptAs;
      var e := Stored(entry, lastSeq + 1);
      StoredIsKept(entry, lastSeq + 1);
      ghost var grown := history + [e];
      NumberedAppend(history, e);
      TotalSizeAppend(history, evicted, e, sizes);
      if evicted > 0 { TotalSizeAppend(history, evicted - 1, e, sizes); }
      lastSeq := lastSeq + 1;
      size := size + SizeOf(e, sizes);
      entries := entries + [e];
      history := grown;
      while size > capacity && |entries| > 1
        invariant history == grown && lastSeq == |grown|
        invariant old(evicted) <= evicted < |grown| && Suffix(entries, grown, evicted)
        invariant size == TotalSize(grown, evicted, |grown|, sizes)
        invariant evicted > 0 ==> TotalSize(grown, evicted - 1, |grown|, sizes) > capacity
        decreases |entries|
      {
        TotalSizeFirst(grown, evicted, |grown|, sizes);
        size := size - SizeOf(entries[0], sizes);
        entries := entries[1..];
        evicted := evicted + 1;
      }
    }

    /** The places a query may return, in order. */
    ghost function Candidates(query: Query): seq<nat>
      requires Valid()
      reads this
    {
      var from := if query.after.Some? then Later(evicted, query.after.value) else evicted;
      if from <= lastSeq then Filter(query.selection, history, from, lastSeq) else []
    }

    /** A page: without a cursor the newest candidates, else the oldest ones. */
    method List(query: Query) returns (page: Page)
      requires Valid()
      ensures query.after.None? ==>
                Shows(page.entries, history, Newest(Candidates(query), query.limit)) && page.cursor == lastSeq
      ensures query.after.Some? ==> Shows(page.entries, history, Oldest(Candidates(query), query.limit))
                                    && page.cursor == CursorAfter(Candidates(query), query.limit, lastSeq)
    {
      if query.after.None? {
        page := ListNewest(query);
      } else if query.after.value >= lastSeq || entries == [] {
        page := Page([], lastSeq);
      } else {
        page := ListAfter(query, query.after.value);
      }
    }

    method ListNewest(query: Query) returns (page: Page)
      requires Valid() && query.after.None?
      ensures Shows(page.entries, history, Newest(Candidates(query), query.limit)) && page.cursor == lastSeq
    {
      hide TotalSize, Included, Filter, Newest, Shows;
      var out: seq<Entry> := [];
      var i := |entries|;
      FilterNothing(query.selection, history, lastSeq);
      ShowsNothing(history);
      while i > 0 && |out| < query.limit
        invariant 0 <= i <= |entries| && |out| <= query.limit
        invariant Shows(out, history, Filter(query.selection, history, evicted + i, lastSeq))
        decreases i
      {
        ghost var later := Filter(query.selection, history, evicted + i, lastSeq);
        i := i - 1;
        FilterFirst(query.selection, history, evicted + i, lastSeq);
        if Included(query.selection, entries[i]) {
          ShowsOne(out, entries[i], history, later, evicted + i);
          out := [entries[i]] + out;
        }
      }
      ShowsSize(out, history, Filter(query.selection, history, evicted + i, lastSeq));
      NewestSplit(query.selection, history, evicted, evicted + i, lastSeq, query.limit);
      page := Page(out, lastSeq);
    }

    method ListAfter(query: Query, after: nat) returns (page: Page)
      requires Valid() && entries != [] && query.after == Some(after) && after < lastSeq
      ensures Shows(page.entries, history, Oldest(Candidates(query), query.limit))
      ensures page.cursor == CursorAfter(Candidates(query), query.limit, lastSeq)
    {
      hide TotalSize, Included, Filter, Oldest, CursorAfter, Shows;
      var first := entries[0].seqNo;
      var skip := if after < first then 0 else after - first + 1;
      ghost var from := Later(evicted, after);
      var out: seq<Entry> := [];
      var i := skip;
      FilterNothing(query.selection, history, from);
      ShowsNothing(history);
      while i < |entries|
        invariant skip <= i <= |entries| && from == evicted + skip
        invariant Shows(out, history, Filter(query.selection, history, from, evicted + i))
        invariant query.limit > 0 ==> |out| < query.limit
      {
        FilterLast(query.selection, history, from, evicted + i);
        if Included(query.selection, entries[i]) {
          ShowsOne(out, entries[i], history, Filter(query.selection, history, from, evicted + i), evicted + i);
          out := out + [entries[i]];
          if |out| == query.limit {
            ShowsSize(out, history, Filter(query.selection, history, from, evicted + i + 1));
            OldestSplit(query.selection, history, from, evicted + i + 1, lastSeq, query.limit);
            return Page(out, entries[i].seqNo);
          }
        }
        i := i + 1;
      }
      ShowsSize(out, history, Filter(query.selection, history, from, lastSeq));
      OldestAll(Filter(query.selection, history, from, lastSeq), query.limit, lastSeq);
      return Page(out, lastSeq);
    }
  }

  // ----- a reader that polls with its last cursor

  /** The places lo..hi-1. */
  ghost function Span(lo: nat, hi: nat): (r: set<nat>)
    ensures forall s :: s in r <==> lo <= s < hi
    decreases hi - lo
  {
    if lo >= hi then {} else {lo} + Span(lo + 1, hi)
  }

  /** `at` lists ascending places of included entries below the cursor; every included entry
      below the cursor is listed or is among the missed, never both. */
  ghost predicate Accounted(q: Selection, cursor: nat, at: seq<nat>, missed: set<nat>, history: seq<Entry>) {
    && cursor <= |history|
    && Ascending(at)
    && (forall k :: 0 <= k < |at| ==> at[k] < cursor && Included(q, history[at[k]]) && at[k] !in missed)
    && (forall i :: 0 <= i < cursor && Included(q, history[i]) && i !in missed ==> i in at)
    && (forall i :: i in missed ==> i < cursor)
  }

  /** The taken places are the wanted ones below the next cursor. */
  lemma OldestMeaning(places: seq<nat>, limit: nat, lo: nat, hi: nat)
    requires Ascending(places) && lo <= hi && forall i :: i in places ==> lo <= i < hi
    ensures Ascending(Oldest(places, limit))
    ensures lo <= CursorAfter(places, limit, hi) <= hi && (lo < hi ==> lo < CursorAfter(places, limit, hi))
    ensures forall i :: i in Oldest(places, limit) <==> i in places && i < CursorAfter(places, limit, hi)
  {
    var taken := Oldest(places, limit);
    if limit > 0 && |places| >= limit { assert places[limit - 1] in places; }
    forall i | i in places && i < CursorAfter(places, limit, hi) ensures i in taken {
      var k :| 0 <= k < |places| && places[k] == i;
      assert k < |taken| && taken[k] == i;
    }
    forall i | i in taken ensures i in places && i < CursorAfter(places, limit, hi) {
      var k :| 0 <= k < |taken| && places[k] == i;
    }
  }

  /** A page read at the cursor extends the account; entries evicted before the read join the missed. */
  lemma {:induction false} PageAccounted(q: Selection, cursor: nat, at: seq<nat>, missed: set<nat>,
                                         history: seq<Entry>, evicted: nat, limit: nat)
    requires evicted <= |history|
    requires Accounted(q, cursor, at, missed, history)
    ensures var places := Filter(q, history, Later(evicted, cursor), |history|);
            var next := CursorAfter(places, limit, |history|);
            && Accounted(q, next, at + Oldest(places, limit), missed + Span(cursor, evicted), history)
            && cursor <= next && (cursor < |history| ==> cursor < next)
  {
    hide Included, Filter, Oldest, CursorAfter, Span;
    var n := Later(evicted, cursor);
    var places := Filter(q, history, n, |history|);
    FilterMeaning(q, history, n, |history|);
    OldestMeaning(places, limit, n, |history|);
    var taken := Oldest(places, limit);
    forall k | 0 <= k < |at + taken| ensures (at + taken)[k] < cursor || (at + taken)[k] in taken {
      if k >= |at| { assert taken[k - |at|] in taken; }
    }
    forall i | i in at || i in taken ensures i in at + taken {}
  }

  class Reader {
    const buffer: Buffer
    const selection: Selection
    var cursor: nat
    var received: seq<Entry>
    ghost var at: seq<nat>      // where in the history the received entries are
    ghost var missed: set<nat>  // which places were evicted before a poll reached them

    ghost predicate Valid()
      reads this, buffer
    {
      && buffer.Valid()
      && Accounted(selection, cursor, at, missed, buffer.history)
      && Shows(received, buffer.history, at)
      && (forall i :: i in missed ==> i < buffer.evicted)
    }

    constructor (buffer: Buffer, selection: Selection)
      requires buffer.Valid()
      ensures Valid() && this.buffer == buffer && this.selection == selection
      ensures cursor == 0 && received == [] && missed == {}
    {
      this.buffer, this.selection := buffer, selection;
      cursor, received, at, missed := 0, [], [], {};
    }

    /** Asks for what came after the last cursor. Only entries evicted by now can be missed,
        and the poll advances whenever anything was written since. */
    method Poll(limit: nat)
      requires Valid()
      modifies this
      ensures Valid()
      ensures old(received) <= received && missed == old(missed) + Span(old(cursor), buffer.evicted)
      ensures old(cursor) <= cursor && (old(cursor) < buffer.lastSeq ==> old(cursor) < cursor)
      ensures limit == 0 ==> cursor == buffer.lastSeq
    {
      hide TotalSize, SizeOf, Included, Filter, Span;
      var page := buffer.List(Query(Some(cursor), limit, selection));
      PageAccounted(selection, cursor, at, missed, buffer.history, buffer.evicted, limit);
      ghost var places := Oldest(buffer.Candidates(Query(Some(cursor), limit, selection)), limit);
      ShowsConcat(received, page.entries, buffer.history, at, places);
      received, at := received + page.entries, at + places;
      missed := missed + Span(cursor, buffer.evicted);
      cursor := page.cursor;
    }
  }

  // ----- any interleaving of writes and polls

  datatype Step = Write(entry: Entry) | Ask(limit: nat)

  ghost predicate Received(received: seq<Entry>, e: Entry) { exists k :: 0 <= k < |received| && received[k] == e }

  /** The account in terms of the entries received: they ascend, are included ones of the history, and none that was
      written below the cursor is missing unless it was missed. */
  lemma AccountMeaning(q: Selection, cursor: nat, at: seq<nat>, missed: set<nat>, history: seq<Entry>,
                       received: seq<Entry>)
    requires Numbered(history) && Accounted(q, cursor, at, missed, history) && Shows(received, history, at)
    ensures forall j, k :: 0 <= j < k < |received| ==> received[j].seqNo < received[k].seqNo
    ensures forall k :: 0 <= k < |received| ==>
              Included(q, received[k]) && received[k].seqNo <= cursor && received[k] in history
    ensures forall i :: 0 <= i < cursor && Included(q, history[i]) ==> i in missed || Received(received, history[i])
  {
    hide Included;
    forall k | 0 <= k < |received|
      ensures received[k].seqNo == at[k] + 1 && Included(q, received[k]) && at[k] < cursor && received[k] in history
    {
      assert received[k] == history[at[k]];
    }
    forall i | 0 <= i < cursor && Included(q, history[i]) && i !in missed ensures Received(received, history[i]) {
      var k :| 0 <= k < |at| && at[k] == i;
      assert received[k] == history[i];
    }
  }

  /** Everything pushed before and by the first steps. */
  ghost function Pushed(before: seq<Entry>, steps: seq<Step>, n: nat): seq<Entry>
    requires n <= |steps|
  {
    if n == 0 then before
    else
      var es := Pushed(before, steps, n - 1);
      if steps[n - 1].Write? then es + [Stored(steps[n - 1].entry, |es| + 1)] else es
  }

  /** Whatever the interleaving, the reader sees strictly increasing numbers, only entries it selects, and every one
      written below its cursor that was not evicted before a read could reach it. */
  method Run(reader: Reader, steps: seq<Step>)
    requires reader.Valid()
    modifies reader, reader.buffer
    ensures reader.Valid()
    ensures old(reader.received) <= reader.received && old(reader.buffer.history) <= reader.buffer.history
    ensures reader.buffer.history == Pushed(old(reader.buffer.history), steps, |steps|)
    ensures steps != [] && steps[|steps| - 1] == Ask(0) ==> reader.cursor == |reader.buffer.history|
    ensures forall j, k :: 0 <= j < k < |reader.received| ==> reader.received[j].seqNo < reader.received[k].seqNo
    ensures forall k :: 0 <= k < |reader.received| ==>
              Included(reader.selection, reader.received[k]) && reader.received[k] in reader.buffer.history
    ensures reader.cursor <= |reader.buffer.history| == reader.buffer.lastSeq
    ensures forall i :: 0 <= i < reader.cursor && Included(reader.selection, reader.buffer.history[i]) ==>
              Received(reader.received, reader.buffer.history[i]) || (i in reader.missed && i < reader.buffer.evicted)
  {
    RunSteps(reader, steps);
    AccountMeaning(reader.selection, reader.cursor, reader.at, reader.missed, reader.buffer.history, reader.received);
  }

  method RunSteps(reader: Reader, steps: seq<Step>)
    requires reader.Valid()
    modifies reader, reader.buffer
    ensures reader.Valid()
    ensures old(reader.received) <= reader.received && old(reader.buffer.history) <= reader.buffer.history
    ensures reader.buffer.history == Pushed(old(reader.buffer.history), steps, |steps|)
    ensures steps != [] && steps[|steps| - 1] == Ask(0) ==> reader.cursor == |reader.buffer.history|
  {
    hide Included, Filter, Oldest, CursorAfter, Span, TotalSize, SizeOf, Stored, KeptAs;
    for i := 0 to |steps|
      invariant reader.Valid()
      invariant old(reader.received) <= reader.received && old(reader.buffer.history) <= reader.buffer.history
      invariant reader.buffer.history == Pushed(old(reader.buffer.history), steps, i)
      invariant i > 0 && steps[i - 1] == Ask(0) ==> reader.cursor == |reader.buffer.history|
    {
      match steps[i] {
        case Write(entry) =>
          reader.buffer.Push(entry);
        case Ask(limit) =>
          reader.Poll(limit);
      }
    }
  }
}
