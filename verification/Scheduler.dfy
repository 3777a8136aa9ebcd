/** Jobs of a session on timers: periodic, started once, and manual ones that run when triggered. Jobs call
    the scheduler while they run, and when they are told that it stops. */
module Scheduler {
  import opened Common

  datatype Kind = Periodic | Once | Manual

  type JobType = nat

  /** `id` names the entry and its timer; `due` is the delay the timer was last set to. */
  datatype Entry = Entry(id: nat, kind: Kind, job: JobType, interval: int, scheduled: bool, running: bool,
      triggered: bool, due: int)

  /** What a job may ask of the scheduler; `reactions` is what each job asks for when it is told of the stop. */
  datatype Call =
    | Every(interval: int, job: JobType)
    | Start(job: JobType)
    | Register(job: JobType)
    | SetInterval(job: JobType, interval: int)
    | Trigger(job: JobType)
    | Suspend
    | Resume
    | Stop(reactions: seq<Reaction>)

  datatype Reaction = Reaction(calls: seq<Call>)

  datatype Outcome = Again(delay: int) | Finished | Threw

  // ----- what calls do

  /** How many suspensions there are, how often the last one was lifted, whether the scheduler has stopped, its entries
      and the id of the next one. */
  datatype Gauge = Gauge(suspends: int, lifts: nat, stopped: bool, entries: seq<Entry>, next: nat)

  /** A new entry: one that is not manual waits for its first run, unless the scheduler has stopped. */
  ghost function Launched(g: Gauge, kind: Kind, interval: int, job: JobType): Gauge {
    var on := kind != Manual && !g.stopped;
    var e := Entry(g.next, kind, job, interval, on, false, false, if on then interval else 0);
    g.(entries := g.entries + [e], next := g.next + 1)
  }

  ghost predicate Idles(e: Entry) { !e.scheduled && !e.running }

  /** The first manual entry of the type is marked, and scheduled if it is idle and nothing holds it back. */
  ghost function Marked(g: Gauge, job: JobType, i: nat): Entry
    requires i < |g.entries|
  {
    var e := g.entries[i];
    var first := e.kind == Manual && e.job == job
                 && forall j :: 0 <= j < i ==> !(g.entries[j].kind == Manual && g.entries[j].job == job);
    if !first then e
    else if g.suspends == 0 && !g.stopped && Idles(e) then e.(triggered := true, scheduled := true, due := 0)
    else e.(triggered := true)
  }

  /** A periodic entry of the type has the interval, and one that waits for its next run waits that long. */
  ghost function Paced(g: Gauge, job: JobType, interval: int, i: nat): Entry
    requires i < |g.entries|
  {
    var e := g.entries[i];
    if e.kind != Periodic || e.job != job then e
    else if e.scheduled && !e.running && !g.stopped then e.(interval := interval, due := interval)
    else e.(interval := interval)
  }

  /** A manual entry that was marked and is idle is scheduled. */
  ghost function Released(g: Gauge, i: nat): Entry
    requires i < |g.entries|
  {
    var e := g.entries[i];
    if e.kind == Manual && e.triggered && Idles(e) && !g.stopped then e.(scheduled := true, due := 0) else e
  }

  /** What a call makes of it, with whatever the jobs ask for when they are told of a stop. */
  ghost function Effect(call: Call, g: Gauge): Gauge
    decreases call, 0
  {
    match call
    case Every(interval, job) => Launched(g, Periodic, interval, job)
    case Start(job) => Launched(g, Once, 0, job)
    case Register(job) => Launched(g, Manual, 0, job)
    case SetInterval(job, interval) =>
      g.(entries := seq(|g.entries|, i requires 0 <= i < |g.entries| => Paced(g, job, interval, i)))
    case Trigger(job) => g.(entries := seq(|g.entries|, i requires 0 <= i < |g.entries| => Marked(g, job, i)))
    case Suspend => g.(suspends := g.suspends + 1)
    case Resume =>
      if g.suspends <= 0 then g.(suspends := 0)
      else if g.suspends > 1 then g.(suspends := g.suspends - 1)
      else g.(suspends := 0, lifts := g.lifts + 1,
              entries := seq(|g.entries|, i requires 0 <= i < |g.entries| => Released(g, i)))
    case Stop(reactions) => if g.stopped then g else Reacted(reactions, |g.entries|, g.(stopped := true))
  }

  ghost function Effects(calls: seq<Call>, g: Gauge): Gauge
    decreases calls, 0
  { if calls == [] then g else Effects(calls[1..], Effect(calls[0], g)) }

  ghost function ReactionEffect(reaction: Reaction, g: Gauge): Gauge
    decreases reaction, 0
  { Effects(reaction.calls, g) }

  ghost function Reacted(reactions: seq<Reaction>, n: nat, g: Gauge): Gauge
    decreases reactions, n
  {
    if n == 0 then g
    else
      var g' := Reacted(reactions, n - 1, g);
      if n - 1 < |reactions| then ReactionEffect(reactions[n - 1], g') else g'
  }

  /** Nothing is resumed, in the call or in any reaction. */
  ghost predicate Calm(call: Call)
    decreases call, 0
  { !call.Resume? && (call.Stop? ==> forall i :: 0 <= i < |call.reactions| ==> CalmReaction(call.reactions[i])) }

  ghost predicate CalmReaction(reaction: Reaction)
    decreases reaction, 0
  { CalmAll(reaction.calls) }

  ghost predicate CalmAll(calls: seq<Call>)
    decreases calls, 0
  { forall i :: 0 <= i < |calls| ==> Calm(calls[i]) }

  lemma {:induction false} CalmLiftsNothing(call: Call, g: Gauge)
    requires Calm(call)
    ensures Effect(call, g).lifts == g.lifts
    decreases call, 0
  {
    if call.Stop? && !g.stopped { CalmReactions(call.reactions, |g.entries|, g.(stopped := true)); }
  }

  lemma {:induction false} CalmReactions(reactions: seq<Reaction>, n: nat, g: Gauge)
    requires forall i :: 0 <= i < |reactions| ==> CalmReaction(reactions[i])
    ensures Reacted(reactions, n, g).lifts == g.lifts
    decreases reactions, n
  {
    if n > 0 {
      CalmReactions(reactions, n - 1, g);
      if n - 1 < |reactions| { CalmReactionLifts(reactions[n - 1], Reacted(reactions, n - 1, g)); }
    }
  }

  lemma {:induction false} CalmReactionLifts(reaction: Reaction, g: Gauge)
    requires CalmReaction(reaction)
    ensures ReactionEffect(reaction, g).lifts == g.lifts
    decreases reaction, 0
  {
    CalmCallsLift(reaction.calls, g);
  }

  lemma {:induction false} CalmCallsLift(calls: seq<Call>, g: Gauge)
    requires CalmAll(calls)
    ensures Effects(calls, g).lifts == g.lifts
    decreases calls, 0
  {
    if calls != [] {
      CalmLiftsNothing(calls[0], g);
      CalmCallsLift(calls[1..], Effect(calls[0], g));
    }
  }

  // ----- what is kept

  ghost predicate Ids(entries: seq<Entry>, next: nat) {
    && (forall i :: 0 <= i < |entries| ==> entries[i].id < next)
    && (forall i, j :: 0 <= i < j < |entries| ==> entries[i].id != entries[j].id)
  }

  ghost predicate HasId(entries: seq<Entry>, id: nat) { exists i :: 0 <= i < |entries| && entries[i].id == id }

  /** Every wait is for the timer of an entry. */
  ghost predicate Waited(entries: seq<Entry>, waits: multiset<nat>) { forall id :: id in waits ==> HasId(entries, id) }

  /** One wait while scheduled and none otherwise; only a manual entry is ever idle. */
  ghost predicate Live(e: Entry, waits: multiset<nat>) {
    waits[e.id] == (if e.scheduled then 1 else 0) && !(e.scheduled && e.running)
        && (e.kind != Manual ==> e.scheduled || e.running)
  }

  ghost predicate AllLive(entries: seq<Entry>, waits: multiset<nat>) {
    forall i :: 0 <= i < |entries| ==> Live(entries[i], waits)
  }

  /** A triggered manual entry waits for nothing but a suspension. */
  ghost predicate Prompt(e: Entry, suspends: int) {
    e.kind == Manual && e.triggered && suspends == 0 ==> e.scheduled || e.running
  }

  ghost predicate AllPrompt(entries: seq<Entry>, suspends: int) {
    forall i :: 0 <= i < |entries| ==> Prompt(entries[i], suspends)
  }

  predicate SameEntry(a: Entry, b: Entry) { a.id == b.id && a.kind == b.kind && a.job == b.job }

  /** The entries are still there, in place; those added since are not running. A trigger is not forgotten. */
  ghost predicate Carried(before: seq<Entry>, after: seq<Entry>) {
    && |before| <= |after|
    && (forall i :: 0 <= i < |before| ==>
          SameEntry(before[i], after[i]) && before[i].running == after[i].running
              && (before[i].triggered ==> after[i].triggered))
    && (forall i :: |before| <= i < |after| ==> !after[i].running)
  }

  /** No manual entry has been scheduled. */
  ghost predicate Quiet(before: seq<Entry>, after: seq<Entry>) {
    forall i :: 0 <= i < |after| && after[i].kind == Manual && after[i].scheduled ==>
        i < |before| && before[i].scheduled
  }

  ghost predicate NewIds(n: nat, after: seq<Entry>, next: nat) { forall i :: n <= i < |after| ==> after[i].id >= next }

  /** The first entries are in the list, in place. */
  ghost predicate Includes(all: seq<Entry>, first: seq<Entry>) {
    |first| <= |all| && forall i :: 0 <= i < |first| ==> SameEntry(first[i], all[i])
  }

  /** An entry may be replaced by a state of itself that agrees with the waits on its timer. */
  lemma Replace(entries: seq<Entry>, waits: multiset<nat>, next: nat, i: nat, e: Entry, n: nat)
    requires Ids(entries, next) && Waited(entries, waits) && AllLive(entries, waits)
    requires i < |entries| && e.id == entries[i].id && Live(e, waits[e.id := n])
    ensures Ids(entries[i := e], next) && Waited(entries[i := e], waits[e.id := n])
              && AllLive(entries[i := e], waits[e.id := n])
  {
    ReplaceIds(entries, waits, next, i, e, n);
  }

  lemma ReplaceIds(entries: seq<Entry>, waits: multiset<nat>, next: nat, i: nat, e: Entry, n: nat)
    requires Ids(entries, next) && Waited(entries, waits) && i < |entries| && e.id == entries[i].id
    ensures Ids(entries[i := e], next) && Waited(entries[i := e], waits[e.id := n])
  {
    var left := waits[e.id := n];
    forall id | id in left ensures HasId(entries[i := e], id) {
      if id == e.id {
        assert entries[i := e][i].id == id;
      } else {
        var j :| 0 <= j < |entries| && entries[j].id == id;
        assert entries[i := e][j].id == id;
      }
    }
  }

  lemma Append(entries: seq<Entry>, waits: multiset<nat>, next: nat, e: Entry, n: nat)
    requires Ids(entries, next) && Waited(entries, waits) && e.id == next
    ensures next !in waits && Ids(entries + [e], next + 1) && Waited(entries + [e], waits[next := n])
    ensures AllLive(entries, waits) && Live(e, waits[next := n]) ==> AllLive(entries + [e], waits[next := n])
  {
    assert (entries + [e])[|entries|].id == next;
    forall id | id in waits ensures HasId(entries + [e], id) {
      var i :| 0 <= i < |entries| && entries[i].id == id;
      assert (entries + [e])[i].id == id;
    }
  }

  function Erase(entries: seq<Entry>, i: nat): seq<Entry>
    requires i < |entries|
  { entries[..i] + entries[i + 1..] }

  lemma Erased(entries: seq<Entry>, waits: multiset<nat>, next: nat, i: nat)
    requires Ids(entries, next) && Waited(entries, waits) && i < |entries| && entries[i].id !in waits
    ensures Ids(Erase(entries, i), next) && Waited(Erase(entries, i), waits)
  {
    var after := Erase(entries, i);
    forall id | id in waits ensures HasId(after, id) {
      var j :| 0 <= j < |entries| && entries[j].id == id;
      assert after[if j < i then j else j - 1].id == id;
    }
  }

  lemma IncludesCarried(before: seq<Entry>, after: seq<Entry>, present: seq<Entry>, next: nat, next': nat)
    requires Carried(before, after)
    ensures Includes(after, before) && (Includes(present, after) ==> Includes(present, before))
    ensures forall last ::
              NewIds(|before|, after, next) && NewIds(|after|, last, next') && Carried(after, last) && next <= next'
              ==> NewIds(|before|, last, next)
  {}

  lemma NoNewIds(entries: seq<Entry>, next: nat)
    ensures NewIds(|entries|, entries, next)
  {}

  lemma CarriedTwice(a: seq<Entry>, b: seq<Entry>, c: seq<Entry>)
    requires Carried(a, b) && Carried(b, c)
    ensures Carried(a, c)
    ensures Quiet(a, b) && Quiet(b, c) ==> Quiet(a, c)
  {}

  lemma CarriedWith(entries: seq<Entry>, i: nat, e: Entry)
    requires i < |entries| && SameEntry(e, entries[i]) && e.running == entries[i].running
              && (entries[i].triggered ==> e.triggered)
    ensures Carried(entries, entries[i := e])
    ensures (e.kind == Manual && e.scheduled ==> entries[i].scheduled) ==> Quiet(entries, entries[i := e])
  {}

  ghost predicate Told(present: seq<Entry>, halts: multiset<nat>) {
    && (forall i :: 0 <= i < |present| ==> halts[present[i].id] == 1)
    && (forall id :: id in halts ==> HasId(present, id) && halts[id] == 1)
  }

  lemma Launches(entries: seq<Entry>, waits: multiset<nat>, next: nat, e: Entry, n: nat)
    requires Ids(entries, next) && Waited(entries, waits) && e.id == next && !e.running && !e.triggered
    requires e.kind == Manual ==> !e.scheduled
    ensures next !in waits && waits[next := 0] == waits
    ensures Ids(entries + [e], next + 1) && Waited(entries + [e], waits[next := n])
    ensures AllLive(entries, waits) && n == (if e.scheduled then 1 else 0) && (e.kind != Manual ==> e.scheduled) ==>
              AllLive(entries + [e], waits[next := n])
    ensures forall s :: AllPrompt(entries, s) ==> AllPrompt(entries + [e], s)
    ensures Carried(entries, entries + [e]) && Quiet(entries, entries + [e])
  {
    Append(entries, waits, next, e, n);
  }

  predicate IsManual(e: Entry, job: JobType) { e.kind == Manual && e.job == job }

  ghost predicate FirstManual(s: seq<Entry>, job: JobType, i: int) {
    0 <= i < |s| && IsManual(s[i], job) && forall j :: 0 <= j < i ==> !IsManual(s[j], job)
  }

  lemma CarriedSelf(entries: seq<Entry>)
    ensures Carried(entries, entries) && Quiet(entries, entries)
  {}

  function Woken(e: Entry): Entry { e.(scheduled := true, due := 0) }

  /** A triggered manual entry that is not under way is scheduled, if the scheduler is free to. */
  function Waken(e: Entry, free: bool): Entry {
    if free && e.kind == Manual && e.triggered && !e.scheduled && !e.running then Woken(e) else e
  }

  /** Scheduling an idle entry. */
  lemma WakeKeeps(entries: seq<Entry>, waits: multiset<nat>, next: nat, i: nat)
    requires Ids(entries, next) && Waited(entries, waits) && i < |entries| && !entries[i].scheduled
              && !entries[i].running
    ensures var after := entries[i := Woken(entries[i])];
            var n := waits[entries[i].id] + 1;
            && Ids(after, next) && Waited(after, waits[entries[i].id := n]) && Carried(entries, after)
            && (AllLive(entries, waits) ==> AllLive(after, waits[entries[i].id := n]))
            && (forall s, j :: 0 <= j < |entries| && (j == i || Prompt(entries[j], s)) ==> Prompt(after[j], s))
  {
    var e := Woken(entries[i]);
    var n := waits[e.id] + 1;
    ReplaceIds(entries, waits, next, i, e, n);
    CarriedWith(entries, i, e);
    if AllLive(entries, waits) {
      assert Live(entries[i], waits);
      Replace(entries, waits, next, i, e, n);
    }
  }

  lemma Marks(entries: seq<Entry>, waits: multiset<nat>, next: nat, suspends: int, i: nat)
    requires Ids(entries, next) && Waited(entries, waits) && i < |entries|
    ensures var e := entries[i].(triggered := true);
            var after := entries[i := e];
            && Ids(after, next) && Waited(after, waits) && Carried(entries, after) && Quiet(entries, after)
            && (AllLive(entries, waits) ==> AllLive(after, waits))
            && (AllPrompt(entries, suspends) ==> forall j :: 0 <= j < |entries| && j != i ==>
                Prompt(after[j], suspends))
  {
    var e := entries[i].(triggered := true);
    assert waits[e.id := waits[e.id]] == waits;
    ReplaceIds(entries, waits, next, i, e, waits[e.id]);
    CarriedWith(entries, i, e);
    if AllLive(entries, waits) {
      assert Live(entries[i], waits);
      Replace(entries, waits, next, i, e, waits[e.id]);
    }
  }

  /** Marking an entry as triggered and, when nothing keeps it, scheduling it. */
  lemma MarksAndWakes(entries: seq<Entry>, waits: multiset<nat>, next: nat, suspends: int, i: nat)
    requires Ids(entries, next) && Waited(entries, waits) && i < |entries| && !entries[i].scheduled
              && !entries[i].running
    ensures var e := entries[i].(triggered := true);
            var after := entries[i := Woken(e)];
            var n := waits[e.id] + 1;
            && Ids(after, next) && Waited(after, waits[e.id := n]) && Carried(entries, after)
            && (AllLive(entries, waits) ==> AllLive(after, waits[e.id := n]))
            && (AllPrompt(entries, suspends) ==> AllPrompt(after, suspends))
  {
    hide Ids, Waited, AllLive, Carried, Live;
    var e := entries[i].(triggered := true);
    Marks(entries, waits, next, suspends, i);
    WakeKeeps(entries[i := e], waits, next, i);
    assert entries[i := e][i := Woken(e)] == entries[i := Woken(e)];
    CarriedTwice(entries, entries[i := e], entries[i := Woken(e)]);
  }

  function WithInterval(e: Entry, job: JobType, interval: int, stopped: bool): Entry {
    if e.kind == Periodic && e.job == job then
      e.(interval := interval, due := if e.scheduled && !e.running && !stopped then interval else e.due)
    else e
  }

  lemma SetKeeps(entries: seq<Entry>, waits: multiset<nat>, next: nat, suspends: int, i: nat, job: JobType,
                 interval: int, stopped: bool)
    requires Ids(entries, next) && Waited(entries, waits) && i < |entries|
    ensures var after := entries[i := WithInterval(entries[i], job, interval, stopped)];
            && Ids(after, next) && Waited(after, waits) && Waited(after, waits[entries[i].id := 0])
            && Carried(entries, after) && Quiet(entries, after)
            && (AllLive(entries, waits) ==> AllLive(after, waits))
            && (AllLive(entries, waits) && entries[i].scheduled ==>
                waits[entries[i].id := 0][entries[i].id := 1] == waits)
            && (AllPrompt(entries, suspends) ==> AllPrompt(after, suspends))
  {
    var e := WithInterval(entries[i], job, interval, stopped);
    assert waits[e.id := waits[e.id]] == waits;
    ReplaceIds(entries, waits, next, i, e, waits[e.id]);
    ReplaceIds(entries, waits, next, i, e, 0);
    CarriedWith(entries, i, e);
    if AllLive(entries, waits) {
      assert Live(entries[i], waits);
      Replace(entries, waits, next, i, e, waits[e.id]);
    }
  }

  /** The entries up to a point have been told of the stop, once each, and no others. */
  lemma Tells(present: seq<Entry>, next: nat, i: nat, halts: multiset<nat>)
    requires Ids(present, next) && i < |present| && Told(present[..i], halts)
    ensures Told(present[..i + 1], halts + multiset{present[i].id})
  {}

  lemma Withdrawn(entries: seq<Entry>, waits: multiset<nat>)
    requires Waited(entries, waits) && forall i :: 0 <= i < |entries| ==> entries[i].id !in waits
    ensures waits == multiset{}
  {}

  lemma WaitedLess(entries: seq<Entry>, waits: multiset<nat>, fewer: multiset<nat>)
    requires Waited(entries, waits) && fewer <= waits
    ensures Waited(entries, fewer)
  {}

  lemma ToldNone()
    ensures Told([], multiset{})
  {}

  ghost predicate Triggered(entries: seq<Entry>, id: nat) {
    exists i :: 0 <= i < |entries| && entries[i].id == id && entries[i].kind == Manual && entries[i].triggered
  }

  /** A manual entry that is scheduled. */
  ghost predicate Held(entries: seq<Entry>, id: nat) {
    exists i :: 0 <= i < |entries| && entries[i].id == id && entries[i].kind == Manual && entries[i].scheduled
  }

  lemma CarriesMarks(before: seq<Entry>, after: seq<Entry>)
    requires Carried(before, after)
    ensures forall id: nat :: Triggered(before, id) ==> Triggered(after, id)
    ensures Quiet(before, after) ==> forall id: nat :: Held(after, id) ==> Held(before, id)
  {}

  /** Changing or erasing one entry leaves the marks of the others. */
  lemma OthersKeepMarks(before: seq<Entry>, i: nat, after: seq<Entry>)
    requires i < |before|
    requires after == Erase(before, i) || (|after| == |before| && after == before[i := after[i]]
              && SameEntry(after[i], before[i]))
    ensures forall id: nat :: id != before[i].id && Triggered(before, id) ==> Triggered(after, id)
    ensures forall id: nat :: Held(after, id) ==> Held(before, id) || (id == before[i].id && before[i].kind == Manual)
    ensures forall id: nat :: HasId(after, id) ==> HasId(before, id)
  {
    forall id: nat | id != before[i].id && Triggered(before, id) ensures Triggered(after, id) {
      var j :| 0 <= j < |before| && before[j].id == id && before[j].kind == Manual && before[j].triggered;
      assert after[if |after| == |before| || j < i then j else j - 1] == before[j];
    }
    forall k | 0 <= k < |after|
      ensures (exists j :: 0 <= j < |before| && before[j] == after[k]) || (k == i && SameEntry(after[k], before[i]))
    {
      if |after| == |before| {
        assert k == i || after[k] == before[k];
      } else {
        assert after[k] == before[if k < i then k else k + 1];
      }
    }
  }

  lemma CarriedIds(before: seq<Entry>, after: seq<Entry>, next: nat, id: nat)
    requires Carried(before, after) && NewIds(|before|, after, next) && id < next && HasId(after, id)
    ensures HasId(before, id)
  {
    var k :| 0 <= k < |after| && after[k].id == id;
    assert before[k].id == id;
  }

  function Begun(e: Entry): Entry { e.(scheduled := false, running := true, triggered := false) }

  function Ended(e: Entry, again: bool, delay: int): Entry {
    e.(running := false, scheduled := again, due := if again then delay else e.due)
  }

  lemma BeginKeeps(entries: seq<Entry>, waits: multiset<nat>, next: nat, suspends: int, i: nat)
    requires Ids(entries, next) && Waited(entries, waits) && AllLive(entries, waits) && AllPrompt(entries, suspends)
              && i < |entries|
    ensures var after := entries[i := Begun(entries[i])];
            && Ids(after, next) && Waited(after, waits[entries[i].id := 0]) && AllLive(after, waits[entries[i].id := 0])
            && AllPrompt(after, suspends)
  {
    assert Live(entries[i], waits);
    Replace(entries, waits, next, i, Begun(entries[i]), 0);
  }

  /** A run ends with the entry scheduled again, or a manual one idle when nothing asks for it. */
  lemma Ends(entries: seq<Entry>, waits: multiset<nat>, next: nat, suspends: int, i: nat, again: bool, delay: int)
    requires Ids(entries, next) && Waited(entries, waits) && AllLive(entries, waits) && AllPrompt(entries, suspends)
    requires i < |entries| && entries[i].running
    requires again || (entries[i].kind == Manual && !(entries[i].triggered && suspends == 0))
    ensures var after := entries[i := Ended(entries[i], again, delay)];
            var n := if again then 1 else 0;
            && Ids(after, next) && Waited(after, waits[entries[i].id := n]) && AllLive(after, waits[entries[i].id := n])
            && AllPrompt(after, suspends)
    ensures waits[entries[i].id] == 0 && waits[entries[i].id := 0] == waits && !entries[i].scheduled
  {
    assert Live(entries[i], waits);
    Replace(entries, waits, next, i, Ended(entries[i], again, delay), if again then 1 else 0);
  }

  lemma EndsStopped(entries: seq<Entry>, waits: multiset<nat>, next: nat, i: nat)
    requires Ids(entries, next) && Waited(entries, waits) && i < |entries|
    ensures var after := entries[i := entries[i].(running := false)]; Ids(after, next) && Waited(after, waits)
  {
    assert waits[entries[i].id := waits[entries[i].id]] == waits;
    ReplaceIds(entries, waits, next, i, entries[i].(running := false), waits[entries[i].id]);
  }

  lemma EndsErased(entries: seq<Entry>, waits: multiset<nat>, next: nat, suspends: int, i: nat)
    requires Ids(entries, next) && Waited(entries, waits) && AllLive(entries, waits) && AllPrompt(entries, suspends)
    requires i < |entries| && entries[i].running
    ensures var after := Erase(entries, i);
            Ids(after, next) && Waited(after, waits) && AllLive(after, waits) && AllPrompt(after, suspends)
  {
    assert Live(entries[i], waits);
    Erased(entries, waits, next, i);
  }

  lemma PacedEach(g: Gauge, job: JobType, interval: int)
    ensures forall i :: 0 <= i < |g.entries| ==>
              WithInterval(g.entries[i], job, interval, g.stopped) == Paced(g, job, interval, i)
  {}

  lemma MarkedFirst(g: Gauge, job: JobType)
    ensures forall i :: 0 <= i < |g.entries| ==>
              Marked(g, job, i) == if FirstManual(g.entries, job, i)
                then Waken(g.entries[i].(triggered := true), g.suspends == 0 && !g.stopped) else g.entries[i]
  {}

  lemma ReleasedEach(g: Gauge)
    ensures forall i :: 0 <= i < |g.entries| ==> Waken(g.entries[i], !g.stopped) == Released(g, i)
  {}

  /** There is an entry of this kind and type. */
  ghost predicate Registered(entries: seq<Entry>, id: nat, kind: Kind, job: JobType) {
    exists i :: 0 <= i < |entries| && entries[i].id == id && entries[i].kind == kind && entries[i].job == job
  }

  lemma RegisteredCarried(before: seq<Entry>, after: seq<Entry>)
    requires Carried(before, after)
    ensures forall id, kind, job :: Registered(before, id, kind, job) ==> Registered(after, id, kind, job)
  {
    forall id, kind, job | Registered(before, id, kind, job) ensures Registered(after, id, kind, job) {
      var i :| 0 <= i < |before| && before[i].id == id && before[i].kind == kind && before[i].job == job;
      assert SameEntry(before[i], after[i]);
    }
  }

  /** Only an entry started once is ever erased. */
  lemma RegisteredOver(before: seq<Entry>, i: nat, after: seq<Entry>)
    requires i < |before|
    requires (after == Erase(before, i) && before[i].kind == Once)
             || (|after| == |before| && after == before[i := after[i]] && SameEntry(after[i], before[i]))
    ensures forall id, kind, job ::
              kind != Once && Registered(before, id, kind, job) ==> Registered(after, id, kind, job)
  {
    forall id, kind, job | kind != Once && Registered(before, id, kind, job) ensures Registered(after, id, kind, job) {
      var j :| 0 <= j < |before| && before[j].id == id && before[j].kind == kind && before[j].job == job;
      if |after| == |before| {
        assert after[j].id == id && after[j].kind == kind && after[j].job == job;
      } else {
        var k := if j < i then j else j - 1;
        assert after[k] == before[j];
      }
    }
  }

  /** Asking for a periodic or a manual job registers it. */
  lemma LaunchRegisters(g: Gauge, kind: Kind, interval: int, job: JobType)
    ensures Registered(Launched(g, kind, interval, job).entries, g.next, kind, job)
  {
    var after := Launched(g, kind, interval, job).entries;
    assert after[|g.entries|].id == g.next;
  }

  datatype Started = Started(id: nat, kind: Kind)

  /** How often a manual job has started. */
  ghost function ManualRuns(starts: multiset<Started>, id: nat): nat { starts[Started(id, Manual)] }

  /** A moment of a run. */
  datatype Snapshot = Snapshot(waits: multiset<nat>, gauge: Gauge)

  class Scheduler {
    var entries: seq<Entry>
    var nextId: nat
    var suspends: int
    var stopped: bool

    /** The timer waits the event loop still has to deliver. */
    var waits: multiset<nat>

    /** The runs started, each with the kind of its entry, the entries told of the stop, the
        entries there were at the stop, and how often the last suspension was lifted. */
    ghost var starts: multiset<Started>
    ghost var halts: multiset<nat>
    ghost var present: seq<Entry>
    ghost var lifts: nat

    ghost predicate Core()
      reads this
    {
      && suspends >= 0 && Ids(entries, nextId) && Waited(entries, waits)
      && (!stopped ==> halts == multiset{} && AllLive(entries, waits))
    }

    ghost predicate Valid()
      reads this
    { Core() && (!stopped ==> AllPrompt(entries, suspends)) }

    /** Nothing is running, as between two events. */
    ghost predicate Idle()
      reads this
    {
      Valid() && (forall i :: 0 <= i < |entries| ==> !entries[i].running)
          && (stopped ==> waits == multiset{} && Told(present, halts))
    }

    /** What every call keeps, also when jobs make it. */
    twostate predicate Kept()
      reads this
    {
      && Carried(old(entries), entries) && old(nextId) <= nextId
      && starts == old(starts) && old(lifts) <= lifts
      && (old(stopped) ==> stopped && halts == old(halts) && waits <= old(waits) && present == old(present))
      && (!old(stopped) && stopped ==> waits == multiset{} && Told(present, halts) && Includes(present, old(entries)))
      && NewIds(|old(entries)|, entries, old(nextId))
      && (old(suspends) > 0 && lifts == old(lifts) ==> suspends > 0 && (!stopped ==> Quiet(old(entries), entries)))
    }

    ghost function Now(): Gauge
      reads this
    { Gauge(suspends, lifts, stopped, entries, nextId) }

    ghost function Snap(): Snapshot
      reads this
    { Snapshot(waits, Now()) }

    constructor ()
      ensures Idle() && entries == [] && suspends == 0 && !stopped && starts == multiset{} && lifts == 0
    {
      entries, nextId, suspends, stopped, waits := [], 0, 0, false, multiset{};
      starts, halts, present, lifts := multiset{}, multiset{}, [], 0;
    }

    /** Starts a wait on the entry's timer, unless the scheduler has stopped. */
    method Schedule(i: nat, delay: int)
      requires i < |entries|
      modifies this`entries, this`waits
      ensures stopped ==> unchanged(this)
      ensures !stopped ==> entries == old(entries)[i := old(entries)[i].(scheduled := true, due := delay)]
      ensures !stopped ==> waits == old(waits)[entries[i].id := old(waits)[entries[i].id] + 1]
    {
      if stopped { return; }
      entries := entries[i := entries[i].(scheduled := true, due := delay)];
      waits := waits[entries[i].id := waits[entries[i].id] + 1];
    }

    method AddEntry(kind: Kind, interval: int, job: JobType)
      modifies this`entries, this`nextId
      ensures entries == old(entries) + [Entry(old(nextId), kind, job, interval, false, false, false, 0)]
                && nextId == old(nextId) + 1
    {
      entries := entries + [Entry(nextId, kind, job, interval, false, false, false, 0)];
      nextId := nextId + 1;
    }

    /** A periodic job is scheduled after its interval. */
    method AddEvery(interval: int, job: JobType)
      requires Valid()
      modifies this`entries, this`nextId, this`waits
      ensures Valid() && Kept() && nextId == old(nextId) + 1
      ensures entries == old(entries) +
                [Entry(old(nextId), Periodic, job, interval, !stopped, false, false, if stopped then 0 else interval)]
    {
      hide Ids, Waited, Live;
      ghost var e := Entry(nextId, Periodic, job, interval, !stopped, false, false, if stopped then 0 else interval);
      Launches(entries, waits, nextId, e, if stopped then 0 else 1);
      AddEntry(Periodic, interval, job);
      Schedule(|entries| - 1, interval);
      assert entries == old(entries) + [e];
    }

    method AddStart(job: JobType)
      requires Valid()
      modifies this`entries, this`nextId, this`waits
      ensures Valid() && Kept() && nextId == old(nextId) + 1
      ensures entries == old(entries) + [Entry(old(nextId), Once, job, 0, !stopped, false, false, 0)]
    {
      hide Ids, Waited, Live;
      ghost var e := Entry(nextId, Once, job, 0, !stopped, false, false, 0);
      Launches(entries, waits, nextId, e, if stopped then 0 else 1);
      AddEntry(Once, 0, job);
      Schedule(|entries| - 1, 0);
      assert entries == old(entries) + [e];
    }

    method AddManual(job: JobType)
      requires Valid()
      modifies this`entries, this`nextId
      ensures Valid() && Kept() && nextId == old(nextId) + 1
      ensures entries == old(entries) + [Entry(old(nextId), Manual, job, 0, false, false, false, 0)]
    {
      hide Ids, Waited, Live;
      Launches(entries, waits, nextId, Entry(nextId, Manual, job, 0, false, false, false, 0), 0);
      AddEntry(Manual, 0, job);
    }

    /** Marks the first manual job of the type, and schedules it unless it is suspended or under way. */
    method DoTrigger(job: JobType)
      requires Valid()
      modifies this`entries, this`waits
      ensures Valid() && Kept() && |entries| == |old(entries)|
      ensures forall i :: 0 <= i < |entries| ==>
                entries[i] == if FirstManual(old(entries), job, i)
                    then Waken(old(entries)[i].(triggered := true), suspends == 0 && !stopped)
                              else old(entries)[i]
      ensures forall i :: FirstManual(old(entries), job, i) ==> entries[i].triggered
    {
      hide Ids, Waited, Live;
      for i := 0 to |entries|
        invariant unchanged(this) && forall j :: 0 <= j < i ==> !IsManual(entries[j], job)
      {
        if !IsManual(entries[i], job) { continue; }
        var e := entries[i];
        Marks(entries, waits, nextId, suspends, i);
        if !e.scheduled && !e.running { MarksAndWakes(entries, waits, nextId, suspends, i); }
        entries := entries[i := e.(triggered := true)];
        if suspends == 0 && !e.scheduled && !e.running {
          Schedule(i, 0);
          assert !stopped ==> entries == old(entries)[i := Woken(e.(triggered := true))];
        }
        return;
      }
      CarriedSelf(entries);
    }

    method DoSuspend()
      requires Valid()
      modifies this`suspends
      ensures Valid() && Kept() && suspends == old(suspends) + 1 && lifts == old(lifts)
    {
      suspends := suspends + 1;
    }

    /** Lifts one suspension; with the last one every triggered manual job that is not under way is scheduled. */
    method DoResume()
      requires Valid()
      modifies this`suspends, this`waits, this`entries, this`lifts
      ensures Valid() && Kept()
      ensures suspends == if old(suspends) == 0 then 0 else old(suspends) - 1
      ensures lifts == old(lifts) + if old(suspends) == 1 then 1 else 0
      ensures suspends > 0 || old(suspends) == 0 ==> waits == old(waits) && entries == old(entries)
      ensures |entries| == |old(entries)|
      ensures suspends == 0 && old(suspends) > 0 ==>
                forall i :: 0 <= i < |entries| ==> entries[i] == Waken(old(entries)[i], !stopped)
    {
      hide Ids, Waited, Live, AllLive, Carried, Quiet;
      CarriedSelf(entries);
      IncludesCarried(entries, entries, entries, nextId, nextId);
      suspends := if suspends > 0 then suspends else 0;
      if suspends == 0 { return; }
      suspends := suspends - 1;
      if suspends > 0 { return; }
      lifts := lifts + 1;
      for i := 0 to |entries|
        invariant suspends == 0 && lifts == old(lifts) + 1 && stopped == old(stopped) && starts == old(starts)
        invariant |entries| == |old(entries)| && (stopped ==> waits == old(waits))
        invariant Core() && Carried(old(entries), entries)
        invariant forall j :: 0 <= j < i ==> entries[j] == Waken(old(entries)[j], !stopped)
        invariant forall j :: i <= j < |entries| ==> entries[j] == old(entries)[j]
      {
        ghost var before := entries;
        Wake(i);
        CarriedTwice(old(entries), before, entries);
      }
    }

    method Wake(i: nat)
      requires Core() && suspends == 0 && i < |entries|
      modifies this`entries, this`waits
      ensures Core() && Carried(old(entries), entries) && (stopped ==> waits == old(waits))
      ensures entries == old(entries)[i := Waken(old(entries)[i], !stopped)]
    {
      hide Ids, Waited, Live, AllLive, Carried;
      var e := entries[i];
      CarriedSelf(entries);
      assert entries == entries[i := e];
      if e.kind == Manual && e.triggered && !e.scheduled && !e.running {
        WakeKeeps(entries, waits, nextId, i);
        Schedule(i, 0);
      }
    }

    /** Periodic jobs of the type get the new interval; one that is waiting starts its wait anew. */
    method DoSetInterval(job: JobType, interval: int)
      requires Valid()
      modifies this`entries, this`waits
      ensures Valid() && Kept() && |entries| == |old(entries)|
      ensures !stopped ==> waits == old(waits)
      ensures forall i :: 0 <= i < |entries| ==> entries[i] == WithInterval(old(entries)[i], job, interval, stopped)
    {
      hide Ids, Waited, Live, AllLive, AllPrompt, Carried, Quiet, WithInterval;
      CarriedSelf(entries);
      for i := 0 to |entries|
        invariant Valid() && Carried(old(entries), entries) && Quiet(old(entries), entries)
        invariant |entries| == |old(entries)| && waits <= old(waits) && (!stopped ==> waits == old(waits))
        invariant forall j :: 0 <= j < i ==> entries[j] == WithInterval(old(entries)[j], job, interval, stopped)
        invariant forall j :: i <= j < |entries| ==> entries[j] == old(entries)[j]
      {
        ghost var before := entries;
        SetOne(i, job, interval);
        CarriedTwice(old(entries), before, entries);
      }
    }

    method SetOne(i: nat, job: JobType, interval: int)
      requires Valid() && i < |entries|
      modifies this`entries, this`waits
      ensures Valid() && Carried(old(entries), entries) && Quiet(old(entries), entries)
      ensures waits <= old(waits) && (!stopped ==> waits == old(waits))
      ensures entries == old(entries)[i := WithInterval(old(entries)[i], job, interval, stopped)]
    {
      hide Ids, Waited, Live, AllLive, AllPrompt, Carried, Quiet;
      var e := entries[i];
      SetKeeps(entries, waits, nextId, suspends, i, job, interval, stopped);
      if e.kind == Periodic && e.job == job {
        entries := entries[i := e.(interval := interval)];
        if e.scheduled && !e.running {
          waits := waits[e.id := 0];
          Schedule(i, interval);
        }
      }
      assert entries == old(entries)[i := WithInterval(e, job, interval, stopped)];
    }

    /** Withdraws the wait of an entry and tells its job, which may ask for more. */
    method Tell(e: Entry, reactions: seq<Reaction>, i: nat)
      requires Core() && stopped
      modifies this
      ensures Core() && stopped && Carried(old(entries), entries) && starts == old(starts) && present == old(present)
      ensures waits <= old(waits) && e.id !in waits && halts == old(halts) + multiset{e.id}
      ensures old(lifts) <= lifts && old(nextId) <= nextId
                && (old(suspends) > 0 && lifts == old(lifts) ==> suspends > 0)
      ensures NewIds(|old(entries)|, entries, old(nextId))
      ensures Now() == if i < |reactions| then ReactionEffect(reactions[i], old(Now())) else old(Now())
      decreases reactions, 2
    {
      hide Ids, Waited, Carried;
      var before := waits;
      waits := waits[e.id := 0];
      WaitedLess(entries, before, waits);
      halts := halts + multiset{e.id};
      CarriedSelf(entries);
      if i < |reactions| { React(reactions[i]); }
    }

    method React(reaction: Reaction)
      requires Valid()
      modifies this
      ensures Valid() && Kept() && Now() == ReactionEffect(reaction, old(Now()))
      decreases reaction, 0
    {
      Make(reaction.calls);
    }

    /** Withdraws every wait and tells every entry there is, once. What the jobs ask for in return may still
        add entries, which are never scheduled. */
    method DoStop(reactions: seq<Reaction>)
      requires Valid()
      modifies this
      ensures Valid() && Kept() && stopped
      ensures old(stopped) ==> unchanged(this)
      ensures !old(stopped) ==> present == old(entries) && Told(old(entries), halts) && waits == multiset{}
      ensures Now() == Effect(Stop(reactions), old(Now()))
      decreases reactions, 3
    {
      hide Ids, Waited, Live, AllLive, AllPrompt, Carried, Quiet, Told, NewIds, Includes, ReactionEffect;
      CarriedSelf(entries);
      IncludesCarried(entries, entries, entries, nextId, nextId);
      NoNewIds(entries, nextId);
      if stopped { return; }
      stopped := true;
      var jobs := entries;
      present := jobs;
      assert Told(jobs[..0], halts) by { ToldNone(); }
      for i := 0 to |jobs|
        invariant Core() && stopped && present == jobs && Carried(jobs, entries)
        invariant starts == old(starts) && old(lifts) <= lifts && old(nextId) <= nextId
        invariant old(suspends) > 0 && lifts == old(lifts) ==> suspends > 0
        invariant waits <= old(waits) && forall j :: 0 <= j < i ==> jobs[j].id !in waits
        invariant Told(jobs[..i], halts)
        invariant NewIds(|jobs|, entries, old(nextId))
        invariant Now() == Reacted(reactions, i, old(Now()).(stopped := true))
      {
        Tells(jobs, old(nextId), i, halts);
        ghost var between, next := entries, nextId;
        Tell(jobs[i], reactions, i);
        CarriedTwice(jobs, between, entries);
        IncludesCarried(jobs, between, entries, old(nextId), next);
      }
      assert jobs[..|jobs|] == jobs;
      WaitedLess(jobs, old(waits), waits);
      Withdrawn(jobs, waits);
    }

    method MakeOne(call: Call)
      requires Valid()
      modifies this
      ensures Valid() && Kept() && Now() == Effect(call, old(Now()))
      ensures call.Stop? ==> stopped
      ensures call.Trigger? ==> forall i :: FirstManual(old(entries), call.job, i) ==> entries[i].triggered
      ensures call.SetInterval? ==> forall i :: 0 <= i < |old(entries)| ==>
                entries[i] == WithInterval(old(entries)[i], call.job, call.interval, stopped)
      decreases call, 0
    {
      hide Ids, Waited, Live, AllLive, AllPrompt, Told, Quiet, Carried, NewIds, Includes, Waken, WithInterval,
           FirstManual, Reacted;
      match call {
        case Every(interval, job) => AddEvery(interval, job);
        case Start(job) => AddStart(job);
        case Register(job) => AddManual(job);
        case SetInterval(job, interval) =>
          DoSetInterval(job, interval);
          assert entries == Effect(call, old(Now())).entries by { PacedEach(old(Now()), job, interval); }
        case Trigger(job) =>
          DoTrigger(job);
          assert entries == Effect(call, old(Now())).entries by { MarkedFirst(old(Now()), job); }
        case Suspend => DoSuspend();
        case Resume =>
          ReleasedEach(old(Now()));
          DoResume();
        case Stop(reactions) => DoStop(reactions);
      }
    }

    /** Whatever a job asks for, in order. */
    method Make(calls: seq<Call>)
      requires Valid()
      modifies this
      ensures Valid() && Kept() && Now() == Effects(calls, old(Now()))
      decreases calls, 1
    {
      hide Ids, Waited, Live, AllLive, AllPrompt, Carried, Quiet, Told, NewIds, Includes, Effect;
      CarriedSelf(entries);
      NoNewIds(entries, nextId);
      if calls == [] { return; }
      MakeOne(calls[0]);
      ghost var between, next := entries, nextId;
      Make(calls[1..]);
      CarriedTwice(old(entries), between, entries);
      IncludesCarried(old(entries), between, present, old(nextId), next);
    }

    /** The wait of an entry is over and its run starts. */
    method Begin(i: nat)
      requires Idle() && i < |entries| && entries[i].id in waits
      modifies this`entries, this`waits, this`starts
      ensures Valid() && !stopped && starts == old(starts) + multiset{Started(old(entries)[i].id, old(entries)[i].kind)}
      ensures entries == old(entries)[i := Begun(old(entries)[i])]
    {
      hide Ids, Waited, Live, AllLive, AllPrompt, Told;
      BeginKeeps(entries, waits, nextId, suspends, i);
      waits := waits[entries[i].id := 0];
      starts := starts + multiset{Started(entries[i].id, entries[i].kind)};
      entries := entries[i := Begun(entries[i])];
    }

    /** The run is over, by returning or by throwing. */
    method End(i: nat, outcome: Outcome)
      requires Valid() && i < |entries| && entries[i].running
                && (stopped ==> waits == multiset{} && Told(present, halts))
      requires forall j :: 0 <= j < |entries| && j != i ==> !entries[j].running
      modifies this`entries, this`waits
      ensures Idle()
      ensures var e := old(entries)[i];
              entries == if stopped then old(entries)[i := Ended(e, false, 0).(scheduled := e.scheduled)]
                         else if outcome.Again? then old(entries)[i := Ended(e, true, outcome.delay)]
                         else if e.kind == Periodic then old(entries)[i := Ended(e, true, e.interval)]
                         else if e.kind == Once then Erase(old(entries), i)
                         else old(entries)[i := Ended(e, e.triggered && suspends == 0, 0)]
    {
      hide Ids, Waited, Live, AllLive, AllPrompt, Told;
      ghost var e := entries[i];
      ghost var before := entries;
      EndsStopped(entries, waits, nextId, i);
      entries := entries[i := entries[i].(running := false)];
      if stopped { return; }
      if outcome.Again? {
        Ends(before, waits, nextId, suspends, i, true, outcome.delay);
        Schedule(i, outcome.delay);
        assert entries == before[i := Ended(e, true, outcome.delay)];
        return;
      }
      match entries[i].kind {
        case Periodic =>
          Ends(before, waits, nextId, suspends, i, true, e.interval);
          Schedule(i, entries[i].interval);
          assert entries == before[i := Ended(e, true, e.interval)];
        case Once =>
          EndsErased(before, waits, nextId, suspends, i);
          entries := Erase(entries, i);
          assert entries == Erase(before, i);
        case Manual =>
          Ends(before, waits, nextId, suspends, i, e.triggered && suspends == 0, 0);
          if entries[i].triggered && suspends == 0 {
            Schedule(i, 0);
          }
          assert entries == before[i := Ended(e, e.triggered && suspends == 0, 0)];
      }
    }

    /** A wait is delivered: the job runs, asking for whatever it likes, and the entry is scheduled again, erased
        or left idle. The triggers of other entries are kept, and so is that of this one if it came during the run. */
    method Run(i: nat, calls: seq<Call>, outcome: Outcome)
      requires Idle() && i < |entries| && entries[i].id in waits
      modifies this
      ensures Idle() && starts == old(starts) + multiset{Started(old(entries)[i].id, old(entries)[i].kind)}
      ensures Now() == Over(Effects(calls, Begins(old(Now()), i)), i, outcome)
      ensures forall id, kind, job :: kind != Once && Registered(old(entries), id, kind, job) ==>
                Registered(entries, id, kind, job)
      ensures old(nextId) <= nextId && old(lifts) <= lifts && !old(stopped)
      ensures forall id: nat :: id != old(entries)[i].id && Triggered(old(entries), id) ==> Triggered(entries, id)
      ensures old(suspends) > 0 && lifts == old(lifts) ==>
                suspends > 0 && (stopped || forall id: nat :: Held(entries, id) ==> Held(old(entries), id))
      ensures old(entries)[i].kind == Manual ==> Held(old(entries), old(entries)[i].id)
      ensures stopped ==> Includes(present, old(entries))
      ensures forall id: nat :: id < old(nextId) && HasId(entries, id) ==> HasId(old(entries), id)
      ensures !stopped && (old(entries)[i].kind == Periodic || outcome.Again?) ==>
                && |entries| > i && entries[i].id == old(entries)[i].id && entries[i].scheduled
                && entries[i].due == if outcome.Again? then outcome.delay else entries[i].interval
      ensures !stopped && old(entries)[i].kind == Once && !outcome.Again? ==> !HasId(entries, old(entries)[i].id)
    {
      hide Ids, Waited, AllLive, AllPrompt, Told, Quiet, Triggered, Held, HasId, Effects, Includes, NewIds, Registered;
      ScheduledIsHeld(entries, waits, nextId, i);
      Begin(i);
      ghost var begun := entries;
      OthersKeepMarks(old(entries), i, begun);
      RegisteredOver(old(entries), i, begun);
      Make(calls);
      ghost var made, next := entries, nextId;
      CarriesMarks(begun, made);
      RegisteredCarried(begun, made);
      IncludesBegun(old(entries), i, present);
      forall id: nat | id < old(nextId) && HasId(made, id) ensures HasId(old(entries), id) {
        CarriedIds(begun, made, old(nextId), id);
      }
      End(i, outcome);
      OthersKeepMarks(made, i, entries);
      RegisteredOver(made, i, entries);
      if !stopped && made[i].kind == Once && !outcome.Again? { ErasedIsGone(made, nextId, i); }
    }
  }

  // ----- whole runs

  /** A run begins: its entry is running, and whatever triggered it is forgotten. */
  ghost function Begins(g: Gauge, i: nat): Gauge {
    if i < |g.entries|
    then g.(entries := g.entries[i := g.entries[i].(scheduled := false, running := true, triggered := false)])
    else g
  }

  /** A run ends, as its job asked for or by the kind of its entry: scheduled again after a delay, or gone, or idle. */
  ghost function Over(g: Gauge, i: nat, outcome: Outcome): Gauge {
    if i >= |g.entries| then g
    else
      var e := g.entries[i].(running := false);
      if g.stopped then g.(entries := g.entries[i := e])
      else if outcome.Again? then g.(entries := g.entries[i := e.(scheduled := true, due := outcome.delay)])
      else match e.kind
        case Periodic => g.(entries := g.entries[i := e.(scheduled := true, due := e.interval)])
        case Once => g.(entries := g.entries[..i] + g.entries[i + 1..])
        case Manual =>
          if e.triggered && g.suspends == 0 then g.(entries := g.entries[i := e.(scheduled := true, due := 0)])
          else g.(entries := g.entries[i := e.(scheduled := false)])
  }

  datatype Event =
    | Ask(call: Call)
    | Fire(i: nat, calls: seq<Call>, outcome: Outcome)

  ghost predicate CalmEvent(event: Event) {
    match event
    case Ask(call) => Calm(call)
    case Fire(_, calls, _) => CalmAll(calls)
  }

  /** What an event makes of suspensions, stop and entries, in the state it meets. */
  ghost predicate Leads(a: Snapshot, event: Event, b: Snapshot) {
    match event
    case Ask(call) => b.gauge == Effect(call, a.gauge)
    case Fire(i, calls, outcome) =>
      if i < |a.gauge.entries| && a.gauge.entries[i].id in a.waits
      then b.gauge == Over(Effects(calls, Begins(a.gauge, i)), i, outcome)
      else b == a
  }

  predicate IsStop(event: Event) { event.Ask? && event.call.Stop? }

  /** Any sequence of calls from outside and runs that make calls of their own. Until the stop a triggered manual
      job is under way unless suspended, every other job is scheduled, and no timer has two waits; a trigger is
      only forgotten when its job starts. After the stop nothing starts, and each entry that was there at any moment
      before it and not erased has been told once. Suspensions and the stop are what the calls add up to. While a
      suspension lasts, the only manual jobs to start are those scheduled before it; and it lasts if nothing asks
      for a resume. */
  method RunAll(scheduler: Scheduler, events: seq<Event>) returns (ghost trace: seq<Snapshot>)
    requires scheduler.Idle()
    modifies scheduler
    ensures scheduler.Idle() && old(scheduler.starts) <= scheduler.starts
    ensures !scheduler.stopped ==> forall i :: 0 <= i < |scheduler.entries| ==>
              var e := scheduler.entries[i];
              && scheduler.waits[e.id] == (if e.scheduled then 1 else 0)
              && (e.kind != Manual || (e.triggered && scheduler.suspends == 0) ==> e.scheduled)
    ensures scheduler.stopped ==> scheduler.waits == multiset{}
    ensures |trace| == |events| + 1 && trace[0] == old(scheduler.Snap()) && trace[|events|] == scheduler.Snap()
    ensures forall i :: 0 <= i < |events| ==> Leads(trace[i], events[i], trace[i + 1])
    ensures scheduler.stopped ==> forall i, id: nat :: 0 <= i <= |events| && !trace[i].gauge.stopped ==>
              HasId(trace[i].gauge.entries, id) && HasId(scheduler.entries, id) ==> scheduler.halts[id] == 1
    ensures (exists i :: 0 <= i < |events| && IsStop(events[i])) ==> scheduler.stopped
    ensures forall i :: 0 <= i < |events| ==> StillThere(trace[i], events[i], scheduler.entries)
    ensures old(scheduler.stopped) ==>
              scheduler.starts == old(scheduler.starts) && scheduler.halts == old(scheduler.halts)
    ensures forall id: nat :: Triggered(old(scheduler.entries), id) ==>
              || Triggered(scheduler.entries, id)
              || ManualRuns(scheduler.starts, id) > ManualRuns(old(scheduler.starts), id)
    ensures old(scheduler.suspends) > 0 && scheduler.lifts == old(scheduler.lifts) ==> forall id: nat ::
              ManualRuns(scheduler.starts, id) > ManualRuns(old(scheduler.starts), id) ==>
                  Held(old(scheduler.entries), id)
    ensures (forall i :: 0 <= i < |events| ==> CalmEvent(events[i])) ==> scheduler.lifts == old(scheduler.lifts)
  {
    trace := RunEvents(scheduler, events);
    HistoryMeans(trace, events, scheduler.nextId, scheduler.present, scheduler.halts);
  }

  method RunEvents(scheduler: Scheduler, events: seq<Event>) returns (ghost trace: seq<Snapshot>)
    requires scheduler.Idle()
    modifies scheduler
    ensures scheduler.Idle() && old(scheduler.starts) <= scheduler.starts
    ensures |trace| == |events| + 1 && trace[0] == old(scheduler.Snap()) && trace[|events|] == scheduler.Snap()
    ensures History(trace, events, |events|, scheduler.nextId, scheduler.present)
    ensures old(scheduler.stopped) ==>
              scheduler.starts == old(scheduler.starts) && scheduler.halts == old(scheduler.halts)
    ensures forall id: nat :: Triggered(old(scheduler.entries), id) ==>
              || Triggered(scheduler.entries, id)
              || ManualRuns(scheduler.starts, id) > ManualRuns(old(scheduler.starts), id)
    ensures old(scheduler.suspends) > 0 && scheduler.lifts == old(scheduler.lifts) ==> forall id: nat ::
              ManualRuns(scheduler.starts, id) > ManualRuns(old(scheduler.starts), id) ==>
                  Held(old(scheduler.entries), id)
    ensures (forall i :: 0 <= i < |events| ==> CalmEvent(events[i])) ==> scheduler.lifts == old(scheduler.lifts)
  {
    trace := [scheduler.Snap()];
    OldIds(scheduler.entries, scheduler.nextId);
    HistoryStarts(scheduler.Snap(), events, scheduler.nextId, scheduler.present);
    for i := 0 to |events|
      invariant |trace| == i + 1 && trace[0] == old(scheduler.Snap()) && trace[i] == scheduler.Snap()
      invariant History(trace, events, i, scheduler.nextId, scheduler.present)
      invariant scheduler.Idle() && old(scheduler.starts) <= scheduler.starts
      invariant old(scheduler.lifts) <= scheduler.lifts
      invariant old(scheduler.stopped) ==>
                  scheduler.stopped && scheduler.starts == old(scheduler.starts)
                      && scheduler.halts == old(scheduler.halts)
      invariant forall id: nat :: Triggered(old(scheduler.entries), id) ==>
                  || Triggered(scheduler.entries, id)
                  || ManualRuns(scheduler.starts, id) > ManualRuns(old(scheduler.starts), id)
      invariant old(scheduler.suspends) > 0 && scheduler.lifts == old(scheduler.lifts) ==>
                  scheduler.suspends > 0 && (scheduler.stopped || forall id: nat :: Held(scheduler.entries, id) ==>
                      Held(old(scheduler.entries), id))
      invariant old(scheduler.suspends) > 0 && scheduler.lifts == old(scheduler.lifts) ==> forall id: nat ::
                  ManualRuns(scheduler.starts, id) > ManualRuns(old(scheduler.starts), id) ==>
                      Held(old(scheduler.entries), id)
      invariant (forall k :: 0 <= k < i ==> CalmEvent(events[k])) ==> scheduler.lifts == old(scheduler.lifts)
    {
      hide Ids, Waited, Live, AllLive, AllPrompt, Told, Triggered, Held, HasId, CalmEvent, Bounded, History, Leads,
           IsStop, Registered, StillThere;
      ghost var before, next, present := scheduler.Snap(), scheduler.nextId, scheduler.present;
      Step(scheduler, events[i]);
      OldIds(scheduler.entries, scheduler.nextId);
      HistoryGrows(trace, events, i, before, next, present, scheduler.Snap(), scheduler.nextId, scheduler.present);
      trace := trace + [scheduler.Snap()];
    }
  }

  /** The entry a call asks to be kept, if it asks for a periodic or a manual one. */
  ghost predicate StillThere(a: Snapshot, event: Event, entries: seq<Entry>) {
    event.Ask? ==>
      && (event.call.Every? ==> Registered(entries, a.gauge.next, Periodic, event.call.job))
      && (event.call.Register? ==> Registered(entries, a.gauge.next, Manual, event.call.job))
  }

  ghost predicate Bounded(entries: seq<Entry>, next: nat) { forall id: nat :: HasId(entries, id) ==> id < next }

  /** Those of the earlier entries that are still there were there at the stop. */
  ghost predicate AllTold(earlier: seq<Entry>, entries: seq<Entry>, present: seq<Entry>) {
    forall id: nat :: HasId(earlier, id) && HasId(entries, id) ==> HasId(present, id)
  }

  /** What has been done so far, and those told of the stop. */
  ghost predicate History(trace: seq<Snapshot>, events: seq<Event>, n: nat, next: nat, present: seq<Entry>) {
    && n <= |events| && |trace| == n + 1
    && (forall k :: 0 <= k < n ==> Leads(trace[k], events[k], trace[k + 1]))
    && (forall k :: 0 <= k <= n ==> Bounded(trace[k].gauge.entries, next))
    && (trace[n].gauge.stopped ==> forall k :: 0 <= k <= n && !trace[k].gauge.stopped ==>
          AllTold(trace[k].gauge.entries, trace[n].gauge.entries, present))
    && ((exists k :: 0 <= k < n && IsStop(events[k])) ==> trace[n].gauge.stopped)
    && (forall k :: 0 <= k < n ==> StillThere(trace[k], events[k], trace[n].gauge.entries))
  }

  lemma HistoryStarts(now: Snapshot, events: seq<Event>, next: nat, present: seq<Entry>)
    requires Bounded(now.gauge.entries, next)
    ensures History([now], events, 0, next, present)
  {}

  lemma HistoryGrows(trace: seq<Snapshot>, events: seq<Event>, n: nat, a: Snapshot, next: nat, present: seq<Entry>,
                     b: Snapshot, next': nat, present': seq<Entry>)
    requires History(trace, events, n, next, present) && n < |events| && trace[n] == a && Leads(a, events[n], b)
    requires next <= next' && Bounded(b.gauge.entries, next') && (IsStop(events[n]) ==> b.gauge.stopped)
    requires a.gauge.stopped ==> b.gauge.stopped && present' == present
    requires !a.gauge.stopped && b.gauge.stopped ==>
               forall id: nat :: HasId(a.gauge.entries, id) ==> HasId(present', id)
    requires forall id: nat :: id < next && HasId(b.gauge.entries, id) ==> HasId(a.gauge.entries, id)
    requires forall id, kind, job :: kind != Once && Registered(a.gauge.entries, id, kind, job) ==>
               Registered(b.gauge.entries, id, kind, job)
    ensures History(trace + [b], events, n + 1, next', present')
  {
    hide HasId, Leads, IsStop, StillThere;
    var more := trace + [b];
    assert forall k :: 0 <= k <= n ==> more[k] == trace[k];
    LedIsThere(a, events[n], b);
    forall k | 0 <= k < n ensures StillThere(more[k], events[k], b.gauge.entries) {
      ThereStays(trace[k], events[k], a.gauge.entries, b.gauge.entries);
    }
    forall k | 0 <= k <= n
      ensures Bounded(more[k].gauge.entries, next')
      ensures b.gauge.stopped && !more[k].gauge.stopped ==> AllTold(more[k].gauge.entries, b.gauge.entries, present')
    {
      assert Bounded(trace[k].gauge.entries, next);
    }
  }

  lemma LedIsThere(a: Snapshot, event: Event, b: Snapshot)
    requires Leads(a, event, b)
    ensures StillThere(a, event, b.gauge.entries)
  {
    hide Registered;
    if event.Ask? && event.call.Every? { LaunchRegisters(a.gauge, Periodic, event.call.interval, event.call.job); }
    if event.Ask? && event.call.Register? { LaunchRegisters(a.gauge, Manual, 0, event.call.job); }
  }

  lemma ThereStays(a: Snapshot, event: Event, before: seq<Entry>, after: seq<Entry>)
    requires StillThere(a, event, before)
    requires forall id, kind, job :: kind != Once && Registered(before, id, kind, job) ==>
               Registered(after, id, kind, job)
    ensures StillThere(a, event, after)
  {
    hide Registered;
  }

  lemma HistoryMeans(trace: seq<Snapshot>, events: seq<Event>, next: nat, present: seq<Entry>, halts: multiset<nat>)
    requires History(trace, events, |events|, next, present)
    requires trace[|events|].gauge.stopped ==> Told(present, halts)
    ensures forall i :: 0 <= i < |events| ==> Leads(trace[i], events[i], trace[i + 1])
    ensures trace[|events|].gauge.stopped ==> forall i, id: nat :: 0 <= i <= |events| && !trace[i].gauge.stopped ==>
              HasId(trace[i].gauge.entries, id) && HasId(trace[|events|].gauge.entries, id) ==> halts[id] == 1
    ensures (exists i :: 0 <= i < |events| && IsStop(events[i])) ==> trace[|events|].gauge.stopped
    ensures forall i :: 0 <= i < |events| ==> StillThere(trace[i], events[i], trace[|events|].gauge.entries)
  {
    hide Leads, IsStop, HasId, Told, StillThere;
    ToldIds(present, halts);
  }

  method Step(scheduler: Scheduler, event: Event)
    requires scheduler.Idle()
    modifies scheduler
    ensures scheduler.Idle() && old(scheduler.starts) <= scheduler.starts
    ensures old(scheduler.lifts) <= scheduler.lifts && old(scheduler.nextId) <= scheduler.nextId
    ensures CalmEvent(event) ==> scheduler.lifts == old(scheduler.lifts)
    ensures Leads(old(scheduler.Snap()), event, scheduler.Snap()) && (IsStop(event) ==> scheduler.stopped)
    ensures forall id, kind, job :: kind != Once && Registered(old(scheduler.entries), id, kind, job) ==>
              Registered(scheduler.entries, id, kind, job)
    ensures old(scheduler.stopped) ==>
              && scheduler.stopped && scheduler.starts == old(scheduler.starts)
              && scheduler.halts == old(scheduler.halts) && scheduler.present == old(scheduler.present)
    ensures !old(scheduler.stopped) && scheduler.stopped ==>
              && Includes(scheduler.present, old(scheduler.entries))
              && forall id: nat :: HasId(old(scheduler.entries), id) ==> HasId(scheduler.present, id)
    ensures forall id: nat :: id < old(scheduler.nextId) && HasId(scheduler.entries, id) ==>
              HasId(old(scheduler.entries), id)
    ensures forall id: nat :: Triggered(old(scheduler.entries), id) ==>
              || Triggered(scheduler.entries, id)
              || ManualRuns(scheduler.starts, id) > ManualRuns(old(scheduler.starts), id)
    ensures old(scheduler.suspends) > 0 && scheduler.lifts == old(scheduler.lifts) ==>
              scheduler.suspends > 0 && (scheduler.stopped || forall id: nat :: Held(scheduler.entries, id) ==>
                  Held(old(scheduler.entries), id))
    ensures old(scheduler.suspends) > 0 && scheduler.lifts == old(scheduler.lifts) ==> forall id: nat ::
              ManualRuns(scheduler.starts, id) > ManualRuns(old(scheduler.starts), id) ==>
                  Held(old(scheduler.entries), id)
  {
    hide Ids, Waited, Live, AllLive, AllPrompt, Told, Quiet, Triggered, Held, HasId, NewIds, Includes, Effect, Effects,
         Calm, CalmAll, Registered;
    match event {
      case Ask(call) =>
        ghost var before, next := scheduler.entries, scheduler.nextId;
        if Calm(call) { CalmLiftsNothing(call, scheduler.Now()); }
        scheduler.MakeOne(call);
        CarriesMarks(before, scheduler.entries);
        RegisteredCarried(before, scheduler.entries);
        forall id: nat | id < next && HasId(scheduler.entries, id) ensures HasId(before, id) {
          CarriedIds(before, scheduler.entries, next, id);
        }
      case Fire(k, calls, outcome) =>
        if k < |scheduler.entries| && scheduler.entries[k].id in scheduler.waits {
          if CalmAll(calls) { CalmCallsLift(calls, Begins(scheduler.Now(), k)); }
          TriggeredIsManual(scheduler.entries, scheduler.nextId, k);
          scheduler.Run(k, calls, outcome);
        }
    }
    IncludedIds(scheduler.present, old(scheduler.entries));
  }

  lemma IncludedIds(all: seq<Entry>, first: seq<Entry>)
    ensures Includes(all, first) ==> forall id: nat :: HasId(first, id) ==> HasId(all, id)
  {
    if Includes(all, first) {
      forall id: nat | HasId(first, id) ensures HasId(all, id) {
        var i :| 0 <= i < |first| && first[i].id == id;
        assert all[i].id == id;
      }
    }
  }

  lemma IncludesBegun(entries: seq<Entry>, i: nat, present: seq<Entry>)
    requires i < |entries|
    ensures Includes(present, entries[i := Begun(entries[i])]) ==> Includes(present, entries)
  {
    var begun := entries[i := Begun(entries[i])];
    assert forall j :: 0 <= j < |entries| ==> SameEntry(entries[j], begun[j]);
  }

  lemma OldIds(entries: seq<Entry>, next: nat)
    ensures Ids(entries, next) ==> Bounded(entries, next) && forall id: nat :: HasId(entries, id) ==> id < next
  {}

  lemma ToldIds(present: seq<Entry>, halts: multiset<nat>)
    ensures Told(present, halts) ==> forall id: nat :: HasId(present, id) ==> halts[id] == 1
  {}

  /** Only a manual entry is triggered, so a run of another kind forgets no trigger. */
  lemma TriggeredIsManual(entries: seq<Entry>, next: nat, i: nat)
    requires Ids(entries, next) && i < |entries|
    ensures Triggered(entries, entries[i].id) ==> entries[i].kind == Manual
  {}

  lemma ErasedIsGone(entries: seq<Entry>, next: nat, i: nat)
    requires Ids(entries, next) && i < |entries|
    ensures !HasId(Erase(entries, i), entries[i].id)
  {}

  /** An entry with a wait is scheduled. */
  lemma ScheduledIsHeld(entries: seq<Entry>, waits: multiset<nat>, next: nat, i: nat)
    requires i < |entries| && entries[i].id in waits
    ensures AllLive(entries, waits) && entries[i].kind == Manual ==> Held(entries, entries[i].id)
  {
    assert AllLive(entries, waits) ==> Live(entries[i], waits);
  }

  /** A suspension does not hold back a manual job that is scheduled already: its wait comes back and it starts. */
  method SuspendedButScheduled(scheduler: Scheduler, i: nat)
    requires scheduler.Idle() && !scheduler.stopped && i < |scheduler.entries|
    requires scheduler.entries[i].kind == Manual && scheduler.entries[i].scheduled
    modifies scheduler
    ensures scheduler.suspends == old(scheduler.suspends) + 1 && scheduler.lifts == old(scheduler.lifts)
    ensures scheduler.starts == old(scheduler.starts) + multiset{Started(old(scheduler.entries)[i].id, Manual)}
  {
    hide Ids, Waited, AllPrompt, Told, Quiet, Carried, Triggered, Held;
    assert Live(scheduler.entries[i], scheduler.waits);
    scheduler.DoSuspend();
    scheduler.Run(i, [], Finished);
  }
}
