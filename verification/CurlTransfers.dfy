/** Transfers handed to the HTTP client and the callbacks they are owed. Callbacks run inside the client
    and may add, cancel and shut down from there, so every operation below can be entered again from
    within another; libcurl's multi handle is the environment. */
module CurlTransfers {
  import opened Common

  /** An easy handle; zero is the null handle. */
  type Easy = nat

  datatype Code = Done(result: nat) | Aborted | FailedInit

  /** What a callback does with the client. An exception only cuts its list of actions short. */
  datatype Callback = Callback(actions: seq<Action>)
  
  /** `accepted` says whether libcurl takes the handle into its multi. */
  datatype Action = Add(easy: Easy, callback: Callback, accepted: bool) | Cancel(easy: Easy) | Close

  /** A stored callback, with the number of its hand-over. */
  datatype Pending = Pending(ticket: nat, callback: Callback)
  type Registry = map<Easy, Pending>

  datatype Message = Finished(easy: Easy, result: nat) | Other

  // ----- what is left to run

  /** What a call does to the client; handing it the null handle does nothing. */
  datatype Deed = Offering(easy: Easy) | Cancelling(easy: Easy) | Closing

  /** How many steps some callbacks still make, and what they will do. */
  datatype Work = Work(size: nat, deeds: multiset<Deed>)

  ghost function Plus(a: Work, b: Work): Work { Work(a.size + b.size, a.deeds + b.deeds) }

  const NOTHING := Work(0, multiset{})

  ghost function WorkOf(c: Callback): Work { Plus(Work(1, multiset{}), WorkOfAll(c.actions)) }

  /** A null handle is dropped with its callback, which then never does anything. */
  ghost function ActionWork(a: Action): Work {
    match a
    case Add(easy, callback, _) =>
      var work := WorkOf(callback);
      Work(1 + work.size, if easy == 0 then multiset{} else multiset{Offering(easy)} + work.deeds)
    case Cancel(easy) => Work(1, multiset{Cancelling(easy)})
    case Close => Work(1, multiset{Closing})
  }

  ghost function WorkOfAll(s: seq<Action>): Work {
    if s == [] then NOTHING else Plus(ActionWork(s[0]), WorkOfAll(s[1..]))
  }

  ghost function Total(m: Registry): Work {
    if m == map[] then NOTHING else var e :| e in m; Plus(WorkOf(m[e].callback), Total(m - {e}))
  }

  lemma PlusSwaps(a: Work, b: Work, c: Work)
    ensures Plus(a, Plus(b, c)) == Plus(b, Plus(a, c))
  {
    assert a.deeds + (b.deeds + c.deeds) == b.deeds + (a.deeds + c.deeds);
  }

  lemma {:induction false} TotalWithout(m: Registry, e: Easy)
    requires e in m
    ensures Total(m) == Plus(WorkOf(m[e].callback), Total(m - {e}))
    decreases |m|
  {
    hide WorkOf, Plus;
    var f :| f in m && Total(m) == Plus(WorkOf(m[f].callback), Total(m - {f}));
    if f != e {
      TotalWithout(m - {f}, e);
      TotalWithout(m - {e}, f);
      assert m - {f} - {e} == m - {e} - {f};
      PlusSwaps(WorkOf(m[f].callback), WorkOf(m[e].callback), Total(m - {f} - {e}));
    }
  }

  lemma TotalEmpty()
    ensures Total(map[]) == NOTHING
  {}

  lemma TotalWith(m: Registry, e: Easy, p: Pending)
    requires e !in m
    ensures Total(m[e := p]) == Plus(WorkOf(p.callback), Total(m))
  {
    TotalWithout(m[e := p], e);
    assert m[e := p] - {e} == m;
  }

  // ----- what is owed to callbacks

  /** The hand-overs with no result yet are exactly those of the stored callbacks, each stored once;
      no hand-over has been given two results. */
  ghost predicate Owed(owned: Registry, delivered: seq<seq<Code>>) {
    && (forall e :: e in owned ==> owned[e].ticket < |delivered| && delivered[owned[e].ticket] == [])
    && (forall e, f :: e in owned && f in owned && owned[e].ticket == owned[f].ticket ==> e == f)
    && (forall t :: 0 <= t < |delivered| ==> |delivered[t]| <= 1)
    && (forall t :: 0 <= t < |delivered| && delivered[t] == [] ==> Stored(owned, t))
  }

  ghost predicate Stored(owned: Registry, t: nat) { exists e :: e in owned && owned[e].ticket == t }

  lemma OwedTickets(owned: Registry, delivered: seq<seq<Code>>)
    requires Owed(owned, delivered)
    ensures forall e :: e in owned ==> owned[e].ticket < |delivered| && delivered[owned[e].ticket] == []
    ensures forall e, f :: e in owned && f in owned && owned[e].ticket == owned[f].ticket ==> e == f
  {}

  lemma OwedAdd(owned: Registry, delivered: seq<seq<Code>>, e: Easy, c: Callback)
    requires Owed(owned, delivered) && e !in owned
    ensures Owed(owned[e := Pending(|delivered|, c)], delivered + [[]])
  {
    var m := owned[e := Pending(|delivered|, c)];
    forall t | 0 <= t <= |delivered| && (delivered + [[]])[t] == [] ensures Stored(m, t) {
      if t == |delivered| {
        assert e in m && m[e].ticket == t;
      } else {
        var f :| f in owned && owned[f].ticket == t;
        assert f in m && m[f].ticket == t;
      }
    }
  }

  lemma OwedDeliver(owned: Registry, delivered: seq<seq<Code>>, e: Easy, code: Code)
    requires Owed(owned, delivered) && e in owned
    ensures owned[e].ticket < |delivered|
    ensures delivered[owned[e].ticket] == [] && Owed(owned - {e}, delivered[owned[e].ticket := [code]])
  {
    var d := delivered[owned[e].ticket := [code]];
    forall t | 0 <= t < |d| && d[t] == [] ensures Stored(owned - {e}, t) {
      var f :| f in owned && owned[f].ticket == t;
      assert f in owned - {e};
    }
  }

  lemma OwedAtOnce(owned: Registry, delivered: seq<seq<Code>>, code: Code)
    requires Owed(owned, delivered)
    ensures Owed(owned, (delivered + [[]])[|delivered| := [code]])
  {
    assert (delivered + [[]])[|delivered| := [code]] == delivered + [[code]];
  }

  lemma AllPaid(delivered: seq<seq<Code>>)
    requires Owed(map[], delivered)
    ensures forall t :: 0 <= t < |delivered| ==> |delivered[t]| == 1
  {}

  /** Results given stay given. */
  ghost predicate Grows(before: seq<seq<Code>>, after: seq<seq<Code>>) {
    |before| <= |after| && forall t :: 0 <= t < |before| ==> before[t] == [] || before[t] == after[t]
  }

  // ----- who cleans up a handle

  /** One offer of a handle, whether the client was free to take it over, and what it answered if it did so at once. */
  datatype Offer = Offer(easy: Easy, free: bool, answer: Option<Code>)

  /** What was done to the client so far and the offers among it; how often each handle was taken over, refused as a
      duplicate of a registered one, and cleaned up; how often its callback is running with the cleanup still to come;
      the handles cleaned up inside the multi; the completions libcurl has reported, by hand-over; and the hand-overs
      stopped by a cancel or a shutdown. */
  datatype Handles = Handles(done: multiset<Deed>, asked: seq<Offer>,
                             taken: multiset<Easy>, refused: multiset<Easy>, cleaned: multiset<Easy>,
                             leaving: multiset<Easy>, inside: set<Easy>,
                             reported: set<(nat, nat)>, stopped: set<nat>)

  /** How often each handle was offered when it was free, or when it was not. */
  ghost function Count(asked: seq<Offer>, free: bool): multiset<Easy> {
    if asked == [] then multiset{}
    else
      var last := asked[|asked| - 1];
      Count(asked[..|asked| - 1], free) + if last.free == free then multiset{last.easy} else multiset{}
  }

  ghost predicate IsFree(offer: Offer, e: Easy) { offer.easy == e && offer.free }

  /** The client was free to take the handle over at some offer, and again at a later one. */
  ghost predicate OfferedTwice(asked: seq<Offer>, e: Easy) {
    exists j, k :: 0 <= j < k < |asked| && IsFree(asked[j], e) && IsFree(asked[k], e)
  }

  ghost predicate OfferedOnce(asked: seq<Offer>, e: Easy) { exists j :: 0 <= j < |asked| && IsFree(asked[j], e) }

  lemma OnceMore(asked: seq<Offer>, last: Offer, e: Easy)
    ensures OfferedOnce(asked + [last], e) <==> OfferedOnce(asked, e) || IsFree(last, e)
    ensures OfferedTwice(asked + [last], e) <==> OfferedTwice(asked, e) || (IsFree(last, e) && OfferedOnce(asked, e))
  {
    var all, n := asked + [last], |asked|;
    assert all[n] == last && forall j :: 0 <= j < n ==> all[j] == asked[j];
    if OfferedTwice(asked, e) {
      var j, k :| 0 <= j < k < n && IsFree(asked[j], e) && IsFree(asked[k], e);
      assert IsFree(all[j], e) && IsFree(all[k], e);
    }
    if OfferedOnce(asked, e) {
      var j :| 0 <= j < n && IsFree(asked[j], e);
      assert IsFree(all[j], e);
    }
  }

  lemma {:induction false} CountTwice(asked: seq<Offer>, e: Easy)
    ensures Count(asked, true)[e] >= 1 <==> OfferedOnce(asked, e)
    ensures Count(asked, true)[e] >= 2 <==> OfferedTwice(asked, e)
    decreases |asked|
  {
    if asked == [] {
      assert !OfferedTwice([], e) && !OfferedOnce([], e);
    } else {
      hide OfferedTwice, OfferedOnce;
      var before, last := asked[..|asked| - 1], asked[|asked| - 1];
      CountTwice(before, e);
      OnceMore(before, last, e);
      assert asked == before + [last];
    }
  }

  ghost function Claims(owned: set<Easy>, h: Handles, e: Easy): nat { h.leaving[e] + if e in owned then 1 else 0 }

  /** Every taking is paid for by one cleanup, made or still to come. A handle taken once runs in the multi
      while it is registered, and is never cleaned up inside it. Only a handle taken before is ever refused. */
  ghost predicate Custody(owned: set<Easy>, multi: set<Easy>, h: Handles) {
    && multi <= owned
    && (forall e: Easy :: h.cleaned[e] + Claims(owned, h, e) == h.taken[e])
    && (forall e :: e in owned && h.taken[e] == 1 ==> e in multi)
    && (forall e :: e in h.inside ==> h.taken[e] >= 2)
    && (forall e :: e in h.refused ==> h.taken[e] >= 1)
  }

  ghost function Take(h: Handles, e: Easy, answer: Option<Code>): (r: Handles)
    ensures r.taken == h.taken + multiset{e} && r.refused == h.refused && r.cleaned == h.cleaned
    ensures r.asked == h.asked + [Offer(e, true, answer)] && r.done == h.done + multiset{Offering(e)}
    ensures r.reported == h.reported && r.stopped == h.stopped
  {
    h.(asked := h.asked + [Offer(e, true, answer)], taken := h.taken + multiset{e},
       done := h.done + multiset{Offering(e)})
  }

  ghost function TurnDown(h: Handles, e: Easy): (r: Handles)
    ensures r.taken == h.taken && r.refused == h.refused + multiset{e} && r.cleaned == h.cleaned
    ensures r.asked == h.asked + [Offer(e, false, Some(FailedInit))] && r.done == h.done + multiset{Offering(e)}
    ensures r.leaving == h.leaving && r.reported == h.reported && r.stopped == h.stopped
  {
    h.(asked := h.asked + [Offer(e, false, Some(FailedInit))], refused := h.refused + multiset{e},
       done := h.done + multiset{Offering(e)})
  }

  ghost function Leave(h: Handles, e: Easy): (r: Handles)
    ensures r.taken == h.taken && r.refused == h.refused && r.cleaned == h.cleaned && e in r.leaving
    ensures r.asked == h.asked && r.done == h.done && r.reported == h.reported && r.stopped == h.stopped
  { h.(leaving := h.leaving + multiset{e}) }

  ghost function CleanUp(h: Handles, multi: set<Easy>, e: Easy): (r: Handles)
    ensures r.taken == h.taken && r.refused == h.refused && r.asked == h.asked
    ensures r.done == h.done && r.reported == h.reported && r.stopped == h.stopped
  {
    h.(cleaned := h.cleaned + multiset{e}, leaving := h.leaving - multiset{e},
       inside := if e in multi then h.inside + {e} else h.inside)
  }

  /** A cancel or a shutdown, with the hand-overs it stops. */
  ghost function Strike(h: Handles, deed: Deed, tickets: set<nat>): (r: Handles)
    ensures r.taken == h.taken && r.refused == h.refused && r.cleaned == h.cleaned && r.asked == h.asked
    ensures r.leaving == h.leaving && r.inside == h.inside && r.reported == h.reported
    ensures r.done == h.done + multiset{deed} && r.stopped == h.stopped + tickets
  { h.(done := h.done + multiset{deed}, stopped := h.stopped + tickets) }

  lemma CustodyStrike(owned: set<Easy>, multi: set<Easy>, h: Handles, deed: Deed, tickets: set<nat>)
    requires Custody(owned, multi, h)
    ensures Custody(owned, multi, Strike(h, deed, tickets))
  {}

  lemma CustodyReport(owned: set<Easy>, multi: set<Easy>, h: Handles, reported: set<(nat, nat)>)
    requires Custody(owned, multi, h)
    ensures Custody(owned, multi, h.(reported := reported))
  {}

  lemma CustodyRegister(owned: set<Easy>, multi: set<Easy>, h: Handles, e: Easy)
    requires Custody(owned, multi, h) && e !in owned
    ensures Custody(owned + {e}, multi + {e}, Take(h, e, None))
  {}

  lemma CustodyRefused(owned: set<Easy>, multi: set<Easy>, h: Handles, e: Easy)
    requires Custody(owned, multi, h) && e in owned
    ensures Custody(owned, multi, TurnDown(h, e))
  {}

  /** A handle the multi does not accept is only cleaned up. */
  lemma CustodyRefuse(owned: set<Easy>, multi: set<Easy>, h: Handles, e: Easy, answer: Option<Code>)
    requires Custody(owned, multi, h)
    ensures Custody(owned, multi, Leave(Take(h, e, answer), e))
  {
    assert e in owned ==> h.taken[e] >= 1;
  }

  lemma CustodyFinish(owned: set<Easy>, multi: set<Easy>, h: Handles, e: Easy)
    requires Custody(owned, multi, h) && e in owned
    ensures Custody(owned - {e}, multi - {e}, Leave(h, e)) && h.taken[e] >= 1
  {}

  lemma CustodyCleanUp(owned: set<Easy>, multi: set<Easy>, h: Handles, e: Easy)
    requires Custody(owned, multi, h) && e in h.leaving
    ensures Custody(owned, multi - {e}, CleanUp(h, multi, e))
  {}

  /** Not cleaned up yet, or taken more than once. */
  ghost predicate Usable(h: Handles, e: Easy) { h.cleaned[e] < h.taken[e] }

  lemma ClaimedIsUsable(owned: set<Easy>, multi: set<Easy>, h: Handles, e: Easy)
    requires Custody(owned, multi, h) && (e in owned || e in h.leaving)
    ensures Usable(h, e)
  {}

  lemma RunningIsOwned(owned: set<Easy>, multi: set<Easy>, h: Handles)
    requires Custody(owned, multi, h)
    ensures multi <= owned
  {}

  /** With nothing registered and no callback running, every handle has been cleaned up as often as it was taken. */
  lemma NothingLeft(multi: set<Easy>, h: Handles)
    requires Custody({}, multi, h) && h.leaving == multiset{}
    ensures h.cleaned == h.taken
  {
    assert forall e: Easy :: h.cleaned[e] + Claims({}, h, e) == h.taken[e];
  }

  // ----- what only ever grows

  /** Results stay given, takings, refusals and cleanups made, and no callback has been left or entered for good. */
  ghost predicate Later(h: Handles, d: seq<seq<Code>>, h': Handles, d': seq<seq<Code>>) {
    && Grows(d, d') && h'.leaving == h.leaving && h.inside <= h'.inside
    && h.taken <= h'.taken && h.refused <= h'.refused && h.cleaned <= h'.cleaned && h.asked <= h'.asked
    && h.done <= h'.done && h.reported <= h'.reported && h.stopped <= h'.stopped && StoppedBy(h, h')
  }

  /** A hand-over there was is only stopped by a cancel of its handle or by a shutdown. */
  ghost predicate StoppedBy(h: Handles, h': Handles) {
    forall t :: 0 <= t < |h.asked| && t in h'.stopped && t !in h.stopped ==>
      MoreOf(h, h', Cancelling(h.asked[t].easy)) || MoreOf(h, h', Closing)
  }

  ghost predicate MoreOf(h: Handles, h': Handles, deed: Deed) { h'.done[deed] > h.done[deed] }

  lemma LaterSelf(h: Handles, d: seq<seq<Code>>)
    ensures Later(h, d, h, d)
  {}

  lemma LaterTwice(h: Handles, d: seq<seq<Code>>, h': Handles, d': seq<seq<Code>>, h'': Handles, d'': seq<seq<Code>>)
    requires Later(h, d, h', d') && Later(h', d', h'', d'')
    ensures Later(h, d, h'', d'') && |d| <= |d'| <= |d''|
    ensures forall t :: 0 <= t < |d'| && d'[t] != [] ==> d''[t] == d'[t]
    ensures forall e: Easy ::
              h.taken[e] <= h'.taken[e] <= h''.taken[e] && h.refused[e] <= h'.refused[e] <= h''.refused[e]
    ensures forall e: Easy :: h.cleaned[e] <= h'.cleaned[e] <= h''.cleaned[e]
    ensures h.asked <= h'.asked <= h''.asked
  {}

  /** A callback given its result. */
  lemma LaterGiven(h: Handles, d: seq<seq<Code>>, t: nat, code: Code, h': Handles, d': seq<seq<Code>>)
    requires t < |d| && d[t] == [] && Later(h, d[t := [code]], h', d')
    ensures Later(h, d, h', d') && t < |d'| && d'[t] == [code]
  {}

  /** A new hand-over. */
  lemma LaterNew(h: Handles, d: seq<seq<Code>>, h': Handles, d': seq<seq<Code>>)
    requires Later(h, d + [[]], h', d')
    ensures Later(h, d, h', d') && |d'| > |d|
  {
    assert forall t :: 0 <= t < |d| ==> (d + [[]])[t] == d[t];
  }

  /** A callback entered and left, with the cleanup it was waiting for. */
  lemma LaterAround(h: Handles, d: seq<seq<Code>>, e: Easy, h': Handles, d': seq<seq<Code>>, multi: set<Easy>)
    requires Later(Leave(h, e), d, h', d')
    ensures Later(h, d, CleanUp(h', multi, e), d') && e in h'.leaving
    ensures CleanUp(h', multi, e).cleaned[e] > h.cleaned[e] && h'.taken[e] >= h.taken[e]
  {}

  lemma LaterTaken(h: Handles, d: seq<seq<Code>>, e: Easy, answer: Option<Code>, h': Handles, d': seq<seq<Code>>)
    requires Later(Take(h, e, answer), d, h', d')
    ensures Later(h, d, h', d') && h'.taken[e] > h.taken[e] && Logs(h, h', Offer(e, true, answer))
  {}

  lemma LaterRefused(h: Handles, d: seq<seq<Code>>, e: Easy, h': Handles, d': seq<seq<Code>>)
    requires Later(TurnDown(h, e), d, h', d')
    ensures Later(h, d, h', d') && h'.refused[e] > h.refused[e]
              && Logs(h, h', Offer(e, false, Some(FailedInit)))
  {}

  /** A cancel that stops one hand-over. */
  lemma LaterStruck(h: Handles, d: seq<seq<Code>>, e: Easy, t: nat, h': Handles, d': seq<seq<Code>>)
    requires t < |h.asked| && h.asked[t].easy == e && Later(Strike(h, Cancelling(e), {t}), d, h', d')
    ensures Later(h, d, h', d')
  {}

  /** A shutdown, whatever it stops. */
  lemma LaterClosed(h: Handles, d: seq<seq<Code>>, tickets: set<nat>)
    ensures Later(h, d, Strike(h, Closing, tickets), d)
  {}

  lemma LaterNoted(h: Handles, d: seq<seq<Code>>, deed: Deed)
    ensures Later(h, d, Strike(h, deed, {}), d)
  {}

  lemma LaterReported(h: Handles, d: seq<seq<Code>>, reported: set<(nat, nat)>)
    requires h.reported <= reported
    ensures Later(h, d, h.(reported := reported), d)
  {}

  /** The first offer made since. */
  ghost predicate Logs(h: Handles, h': Handles, offer: Offer) {
    |h.asked| < |h'.asked| && h'.asked[|h.asked|] == offer
  }

  // ----- why a result is given

  /** What a hand-over is told at once, it is told; otherwise it is told how it finished only if libcurl reported so,
      and that it was aborted only if it was stopped. */
  ghost predicate Because(h: Handles, t: nat, code: Code) {
    && t < |h.asked|
    && match h.asked[t].answer
       case Some(c) => code == c
       case None =>
         match code
         case Done(r) => (t, r) in h.reported
         case Aborted => t in h.stopped
         case FailedInit => false
  }

  ghost predicate Waits(h: Handles, e: Easy, t: nat, shutdown: bool) {
    t < |h.asked| && h.asked[t].easy == e && h.asked[t].answer == None && (t in h.stopped <==> shutdown)
  }

  /** What may be answered at once: that it failed, or, once there has been a shutdown, that it was aborted. */
  ghost predicate Refusal(code: Code, closed: bool) { code.FailedInit? || (code.Aborted? && closed) }

  /** Every result has its reason; the stored hand-overs await theirs, all stopped once the client is shut down; and
      what is stopped, or aborted at once, was cancelled or met a shutdown. */
  ghost predicate Traced(owned: Registry, d: seq<seq<Code>>, h: Handles, shutdown: bool) {
    && |h.asked| == |d|
    && (forall e :: e in owned ==> Waits(h, e, owned[e].ticket, shutdown))
    && (forall t :: 0 <= t < |d| && d[t] != [] ==> Because(h, t, d[t][0]))
    && (forall t :: t in h.stopped ==> t < |h.asked| && (Cancelling(h.asked[t].easy) in h.done || Closing in h.done))
    && (forall t :: 0 <= t < |h.asked| && h.asked[t].answer.Some? ==>
          Refusal(h.asked[t].answer.value, Closing in h.done))
    && (shutdown ==> Closing in h.done)
  }

  lemma TracedInVain(owned: Registry, d: seq<seq<Code>>, h: Handles, shutdown: bool, e: Easy, code: Code)
    requires Traced(owned, d, h, shutdown) && Refusal(code, shutdown)
    ensures var h' := Leave(Take(h, e, Some(code)), e);
            Traced(owned, d + [[]], h', shutdown) && Because(h', |d|, code)
  {}

  lemma TracedDuplicate(owned: Registry, d: seq<seq<Code>>, h: Handles, shutdown: bool, e: Easy)
    requires Traced(owned, d, h, shutdown)
    ensures Traced(owned, d + [[]], TurnDown(h, e), shutdown) && Because(TurnDown(h, e), |d|, FailedInit)
  {}

  lemma TracedStored(owned: Registry, d: seq<seq<Code>>, h: Handles, e: Easy, c: Callback)
    requires Traced(owned, d, h, false)
    ensures Traced(owned[e := Pending(|d|, c)], d + [[]], Take(h, e, None), false)
  {}

  lemma TracedGiven(owned: Registry, d: seq<seq<Code>>, h: Handles, shutdown: bool, t: nat, code: Code)
    requires Traced(owned, d, h, shutdown) && t < |d| && Because(h, t, code)
    ensures Traced(owned, d[t := [code]], h, shutdown)
  {}

  lemma TracedCleanUp(owned: Registry, d: seq<seq<Code>>, h: Handles, shutdown: bool, multi: set<Easy>, e: Easy)
    requires Traced(owned, d, h, shutdown)
    ensures Traced(owned, d, CleanUp(h, multi, e), shutdown)
  {}

  /** A completion that was reported is the reason for its result. */
  lemma TracedDone(owned: Registry, d: seq<seq<Code>>, h: Handles, e: Easy, r: nat)
    requires Traced(owned, d, h, false) && e in owned && (owned[e].ticket, r) in h.reported
    ensures Traced(owned - {e}, d, Leave(h, e), false) && Because(Leave(h, e), owned[e].ticket, Done(r))
  {}

  /** And so is a cancel, once it is made. */
  lemma TracedCancelled(owned: Registry, d: seq<seq<Code>>, h: Handles, e: Easy)
    requires Traced(owned, d, h, false) && e in owned
    requires forall f :: f in owned && owned[f].ticket == owned[e].ticket ==> f == e
    ensures var t := owned[e].ticket;
            var h' := Leave(Strike(h, Cancelling(e), {t}), e);
            && t < |h.asked| && h.asked[t].easy == e
            && Traced(owned - {e}, d, h', false) && Because(h', t, Aborted)
  {
    var t := owned[e].ticket;
    var h' := Leave(Strike(h, Cancelling(e), {t}), e);
    forall s | 0 <= s < |d| && d[s] != [] ensures Because(h', s, d[s][0]) { assert Because(h, s, d[s][0]); }
  }

  lemma TracedAborted(owned: Registry, d: seq<seq<Code>>, h: Handles, e: Easy)
    requires Traced(owned, d, h, true) && e in owned
    ensures Traced(owned - {e}, d, Leave(h, e), true) && Because(Leave(h, e), owned[e].ticket, Aborted)
  {}

  ghost function Unanswered(d: seq<seq<Code>>): set<nat> { set t | 0 <= t < |d| && d[t] == [] }

  lemma TracedClosed(owned: Registry, d: seq<seq<Code>>, h: Handles)
    requires Traced(owned, d, h, false) && Owed(owned, d)
    ensures Traced(owned, d, Strike(h, Closing, Unanswered(d)), true)
  {
    var h' := Strike(h, Closing, Unanswered(d));
    forall s | 0 <= s < |d| && d[s] != [] ensures Because(h', s, d[s][0]) { assert Because(h, s, d[s][0]); }
  }

  lemma TracedNoted(owned: Registry, d: seq<seq<Code>>, h: Handles, shutdown: bool, deed: Deed)
    requires Traced(owned, d, h, shutdown)
    ensures Traced(owned, d, Strike(h, deed, {}), shutdown)
  {
    var h' := Strike(h, deed, {});
    forall s | 0 <= s < |d| && d[s] != [] ensures Because(h', s, d[s][0]) { assert Because(h, s, d[s][0]); }
  }

  lemma TracedReported(owned: Registry, d: seq<seq<Code>>, h: Handles, shutdown: bool, reported: set<(nat, nat)>)
    requires Traced(owned, d, h, shutdown) && h.reported <= reported
    ensures Traced(owned, d, h.(reported := reported), shutdown)
  {
    var h' := h.(reported := reported);
    forall s | 0 <= s < |d| && d[s] != [] ensures Because(h', s, d[s][0]) { assert Because(h, s, d[s][0]); }
  }

  ghost predicate GivenCode(d: seq<seq<Code>>, t: nat, code: Code) { t < |d| && d[t] == [code] }

  /** The callback stored under the handle of a completion has been told how it finished. */
  ghost predicate IsTold(m: Message, owned: Registry, d: seq<seq<Code>>)
    requires m.Finished? && m.easy in owned
  { GivenCode(d, owned[m.easy].ticket, Done(m.result)) }

  lemma ToldOne(m: Message, owned: Registry, d: seq<seq<Code>>)
    requires m.Finished? && m.easy in owned && owned[m.easy].ticket < |d| && d[owned[m.easy].ticket] == [Done(m.result)]
    ensures IsTold(m, owned, d)
  {}

  lemma ToldStill(m: Message, owned: Registry, d: seq<seq<Code>>, d': seq<seq<Code>>)
    requires m.Finished? && m.easy in owned && |d| <= |d'| && forall t :: 0 <= t < |d| && d[t] != [] ==> d'[t] == d[t]
    ensures IsTold(m, owned, d) ==> IsTold(m, owned, d')
  {}

  /** A callback that was given a result while a completion of its handle was reported was told just that, unless it
      was stopped in between. */
  lemma ToldOrStopped(m: Message, owned: Registry, multi: set<Easy>, finished: set<Easy>, msgs: seq<Message>,
                      h: Handles, d: seq<seq<Code>>, owned': Registry, h': Handles, d': seq<seq<Code>>, shutdown': bool)
    requires m in msgs && m.Finished? && m.easy in owned
    requires Queued(owned, multi, finished, msgs, h.reported, |d|) && Traced(owned, d, h, false)
    requires Later(h, d, h', d') && Traced(owned', d', h', shutdown') && Owed(owned', d')
    requires forall t, r, q :: (t, r) in h'.reported && (t, q) in h'.reported ==> r == q
    requires Given(d', owned[m.easy].ticket)
    ensures IsTold(m, owned, d')
            || (GivenCode(d', owned[m.easy].ticket, Aborted)
                && (MoreOf(h, h', Cancelling(m.easy)) || MoreOf(h, h', Closing)))
  {
    var t := owned[m.easy].ticket;
    assert Waits(h, m.easy, t, false);
    assert |d'[t]| == 1 && Because(h', t, d'[t][0]) && h'.asked[t] == h.asked[t];
    assert (t, m.result) in h'.reported;
  }

  // ----- what libcurl reports

  /** Every unread completion is one libcurl reported for the hand-over stored under its handle, which it reports once
      as long as the handle is in the multi. */
  ghost predicate Queued(owned: Registry, multi: set<Easy>, finished: set<Easy>, msgs: seq<Message>,
                         reported: set<(nat, nat)>, n: nat) {
    && finished <= multi <= owned.Keys
    && (forall m :: m in msgs && m.Finished? ==>
          m.easy in finished && m.easy in owned && (owned[m.easy].ticket, m.result) in reported)
    && (forall e, r :: e in multi && e !in finished && e in owned ==> (owned[e].ticket, r) !in reported)
    && (forall t, r, q :: (t, r) in reported && (t, q) in reported ==> r == q)
    && (forall t, r :: (t, r) in reported ==> t < n)
  }

  lemma QueuedStored(owned: Registry, multi: set<Easy>, finished: set<Easy>, msgs: seq<Message>,
                     reported: set<(nat, nat)>, n: nat, e: Easy, c: Callback)
    requires Queued(owned, multi, finished, msgs, reported, n)
    ensures Queued(owned, multi, finished, msgs, reported, n + 1)
    ensures e !in owned ==> Queued(owned[e := Pending(n, c)], multi + {e}, finished, msgs, reported, n + 1)
  {}

  lemma QueuedWithout(owned: Registry, multi: set<Easy>, finished: set<Easy>, msgs: seq<Message>,
                      reported: set<(nat, nat)>, n: nat, e: Easy)
    requires Queued(owned, multi, finished, msgs, reported, n)
    ensures Queued(owned - {e}, multi - {e}, finished - {e}, Without(msgs, e), reported, n)
    ensures Queued(owned, multi - {e}, finished - {e}, Without(msgs, e), reported, n)
  {}

  lemma QueuedRead(owned: Registry, multi: set<Easy>, finished: set<Easy>, msgs: seq<Message>,
                   reported: set<(nat, nat)>, n: nat)
    requires Queued(owned, multi, finished, msgs, reported, n) && msgs != []
    ensures Queued(owned, multi, finished, msgs[1..], reported, n)
    ensures msgs[0].Finished? ==>
              var m := msgs[0];
              m.easy in finished && m.easy in multi && m.easy in owned && (owned[m.easy].ticket, m.result) in reported
  {
    assert msgs[0] in msgs;
  }

  lemma QueuedReport(owned: Registry, multi: set<Easy>, finished: set<Easy>, msgs: seq<Message>,
                     reported: set<(nat, nat)>, n: nat, m: Message)
    requires Queued(owned, multi, finished, msgs, reported, n) && (forall e :: e in owned ==> owned[e].ticket < n)
    requires forall e, f :: e in owned && f in owned && owned[e].ticket == owned[f].ticket ==> e == f
    ensures m.Finished? && m.easy in multi && m.easy !in finished ==>
              m.easy in owned
              && Queued(owned, multi, finished + {m.easy}, msgs + [m],
                        reported + {(owned[m.easy].ticket, m.result)}, n)
    ensures m.Other? ==> Queued(owned, multi, finished, msgs + [m], reported, n)
  {}

  lemma QueuedNothing(reported: set<(nat, nat)>, n: nat, owned: Registry, multi: set<Easy>, finished: set<Easy>,
                      msgs: seq<Message>)
    requires Queued(owned, multi, finished, msgs, reported, n)
    ensures Queued(owned, {}, {}, [], reported, n)
  {}

  // ----- what is not lost

  ghost predicate Given(d: seq<seq<Code>>, t: nat) { t < |d| && d[t] != [] }

  /** A stored callback stays stored until it has its result; and so does an unread completion stay in the queue,
      unless its handle is cleaned up inside the multi. */
  ghost predicate Tended(owned: Registry, msgs: seq<Message>,
                         owned': Registry, msgs': seq<Message>, d': seq<seq<Code>>, h': Handles) {
    && (forall e :: e in owned ==> (e in owned' && owned'[e] == owned[e]) || Given(d', owned[e].ticket))
    && (forall m :: m in msgs && m.Finished? && m.easy in owned ==>
          m in msgs' || m.easy in h'.inside || Given(d', owned[m.easy].ticket))
  }

  lemma GivenOne(d: seq<seq<Code>>, t: nat, code: Code)
    requires t < |d| && d[t] == [code]
    ensures Given(d, t)
  {}

  lemma AllGiven(d: seq<seq<Code>>)
    requires forall t :: 0 <= t < |d| ==> |d[t]| == 1
    ensures forall t :: 0 <= t < |d| ==> Given(d, t)
  {}

  lemma TendedSelf(owned: Registry, msgs: seq<Message>, more: seq<Message>, d: seq<seq<Code>>, h: Handles)
    ensures Tended(owned, msgs, owned, msgs + more, d, h) && Tended(owned, msgs, owned, msgs, d, h)
  {}

  lemma TendedTwice(owned: Registry, msgs: seq<Message>,
                    owned': Registry, msgs': seq<Message>, h': Handles, d': seq<seq<Code>>,
                    owned'': Registry, msgs'': seq<Message>, h'': Handles, d'': seq<seq<Code>>)
    requires Tended(owned, msgs, owned', msgs', d', h') && Tended(owned', msgs', owned'', msgs'', d'', h'')
    requires Later(h', d', h'', d'')
    ensures Tended(owned, msgs, owned'', msgs'', d'', h'')
  {}

  /** A new callback is stored. */
  lemma TendedMore(owned: Registry, msgs: seq<Message>, e: Easy, p: Pending,
                   owned': Registry, msgs': seq<Message>, d': seq<seq<Code>>, h': Handles)
    requires e !in owned && Tended(owned[e := p], msgs, owned', msgs', d', h')
    ensures Tended(owned, msgs, owned', msgs', d', h')
  {
    assert forall f :: f in owned ==> f in owned[e := p] && owned[e := p][f] == owned[f];
  }

  /** A stored callback has got its result. */
  lemma TendedFinish(owned: Registry, msgs: seq<Message>, e: Easy,
                     owned': Registry, msgs': seq<Message>, d': seq<seq<Code>>, h': Handles)
    requires e in owned && Tended(owned - {e}, Without(msgs, e), owned', msgs', d', h') && Given(d', owned[e].ticket)
    ensures Tended(owned, msgs, owned', msgs', d', h')
  {
    assert forall f :: f in owned && f != e ==> f in owned - {e} && (owned - {e})[f] == owned[f];
  }

  /** A completion is read, and its callback gets its result. */
  lemma TendedRead(owned: Registry, msgs: seq<Message>,
                   owned': Registry, msgs': seq<Message>, h': Handles, d': seq<seq<Code>>,
                   owned'': Registry, msgs'': seq<Message>, h'': Handles, d'': seq<seq<Code>>)
    requires msgs' != [] && Later(h', d', h'', d'')
    requires Tended(owned, msgs, owned', msgs', d', h') && Tended(owned', msgs'[1..], owned'', msgs'', d'', h'')
    requires msgs'[0].Finished? ==> msgs'[0].easy in owned' && Given(d'', owned'[msgs'[0].easy].ticket)
    ensures Tended(owned, msgs, owned'', msgs'', d'', h'')
  {
    assert forall m :: m in msgs' ==> m == msgs'[0] || m in msgs'[1..];
  }

  lemma TendedCleanUp(owned: Registry, msgs: seq<Message>, owned': Registry, msgs': seq<Message>, multi: set<Easy>,
                      d': seq<seq<Code>>, h': Handles, e: Easy)
    requires Tended(owned, msgs, owned', msgs', d', h') && forall m :: m in msgs' && m.Finished? ==> m.easy in multi
    ensures Tended(owned, msgs, owned', Without(msgs', e), d', CleanUp(h', multi, e))
  {}

  lemma TendedAll(owned: Registry, msgs: seq<Message>, owned': Registry, msgs': seq<Message>, d': seq<seq<Code>>,
                  h': Handles)
    requires forall e :: e in owned ==> Given(d', owned[e].ticket)
    ensures Tended(owned, msgs, owned', msgs', d', h')
  {}

  /** With the queue empty, every completion there was has led to its callback. */
  lemma TendedToTheEnd(owned: Registry, msgs: seq<Message>, owned': Registry, d': seq<seq<Code>>, h': Handles)
    requires Tended(owned, msgs, owned', [], d', h')
    ensures forall m :: m in msgs && m.Finished? && m.easy in owned ==>
              m.easy in h'.inside || Given(d', owned[m.easy].ticket)
  {}

  // ----- what was offered

  /** What was done to the client, and what the stored callbacks will do. */
  ghost function Sum(done: multiset<Deed>, owned: Registry): multiset<Deed> { done + Total(owned).deeds }

  /** Each hand-over was one offer, taken if the client was free to and refused if not. */
  ghost predicate Counted(h: Handles, n: nat) {
    |h.asked| == n && Tallied(h.asked, h.taken, h.refused) && Offers(h.done, h.taken, h.refused)
  }

  ghost predicate Tallied(asked: seq<Offer>, taken: multiset<Easy>, refused: multiset<Easy>) {
    taken == Count(asked, true) && refused == Count(asked, false)
  }

  ghost predicate Offers(done: multiset<Deed>, taken: multiset<Easy>, refused: multiset<Easy>) {
    forall e: Easy :: done[Offering(e)] == taken[e] + refused[e]
  }

  lemma TallyMore(asked: seq<Offer>, taken: multiset<Easy>, refused: multiset<Easy>, o: Offer)
    requires Tallied(asked, taken, refused)
    ensures o.free ==> Tallied(asked + [o], taken + multiset{o.easy}, refused)
    ensures !o.free ==> Tallied(asked + [o], taken, refused + multiset{o.easy})
  {
    assert (asked + [o])[..|asked|] == asked;
  }

  lemma OffersMore(done: multiset<Deed>, taken: multiset<Easy>, refused: multiset<Easy>, e: Easy)
    requires Offers(done, taken, refused)
    ensures Offers(done + multiset{Offering(e)}, taken + multiset{e}, refused)
    ensures Offers(done + multiset{Offering(e)}, taken, refused + multiset{e})
    ensures Offers(done + multiset{Cancelling(e)}, taken, refused) && Offers(done + multiset{Closing}, taken, refused)
  {}

  lemma CountMore(h: Handles, e: Easy, answer: Option<Code>, n: nat)
    requires Counted(h, n)
    ensures Counted(Take(h, e, answer), n + 1) && Counted(Leave(Take(h, e, answer), e), n + 1)
    ensures Counted(TurnDown(h, e), n + 1)
  {
    hide Tallied, Offers, Take, Leave, TurnDown;
    TallyMore(h.asked, h.taken, h.refused, Offer(e, true, answer));
    TallyMore(h.asked, h.taken, h.refused, Offer(e, false, Some(FailedInit)));
    OffersMore(h.done, h.taken, h.refused, e);
  }

  lemma CountSame(h: Handles, h': Handles, n: nat)
    requires Counted(h, n) && h'.asked == h.asked && h'.taken == h.taken && h'.refused == h.refused
    requires h'.done == h.done || exists deed: Deed :: !deed.Offering? && h'.done == h.done + multiset{deed}
    ensures Counted(h', n)
  {
    hide Tallied, Offers;
    if h'.done != h.done {
      var deed: Deed :| !deed.Offering? && h'.done == h.done + multiset{deed};
      OffersMore(h.done, h.taken, h.refused, if deed.Cancelling? then deed.easy else 0);
    }
  }

  lemma SumMore(done: multiset<Deed>, owned: Registry, deed: Deed)
    ensures Sum(done + multiset{deed}, owned) == Sum(done, owned) + multiset{deed}
  {}

  lemma SumWith(done: multiset<Deed>, owned: Registry, e: Easy, p: Pending)
    requires e !in owned
    ensures Sum(done, owned[e := p]) == Sum(done, owned) + WorkOf(p.callback).deeds
    ensures Total(owned[e := p]).size == WorkOf(p.callback).size + Total(owned).size
  {
    TotalWith(owned, e, p);
  }

  lemma SumWithout(done: multiset<Deed>, owned: Registry, e: Easy)
    requires e in owned
    ensures Sum(done, owned) == Sum(done, owned - {e}) + WorkOf(owned[e].callback).deeds
    ensures Total(owned).size == WorkOf(owned[e].callback).size + Total(owned - {e}).size
  {
    TotalWithout(owned, e);
  }

  lemma Sums(a: multiset<Deed>, b: multiset<Deed>, c: multiset<Deed>)
    ensures a + b + c == a + (b + c) && a + multiset{} == a && a + b + c == a + c + b
  {}

  lemma WorkSplits(s: seq<Action>)
    requires s != []
    ensures WorkOfAll(s).size == ActionWork(s[0]).size + WorkOfAll(s[1..]).size
    ensures forall a :: a + ActionWork(s[0]).deeds + WorkOfAll(s[1..]).deeds == a + WorkOfAll(s).deeds
  {}

  lemma NoWork(a: multiset<Deed>)
    ensures a + WorkOfAll([]).deeds == a + multiset{} == a
  {}

  lemma OtherWork(a: Action)
    requires !a.Add?
    ensures ActionWork(a) == Work(1, multiset{if a.Cancel? then Cancelling(a.easy) else Closing})
  {}

  lemma CallbackWork(c: Callback)
    ensures WorkOf(c).size == 1 + WorkOfAll(c.actions).size && WorkOf(c).deeds == WorkOfAll(c.actions).deeds
  {}

  lemma AddWork(e: Easy, c: Callback, accepted: bool)
    ensures ActionWork(Add(e, c, accepted)).size == 1 + WorkOf(c).size
    ensures ActionWork(Add(e, c, accepted)).deeds ==
              if e == 0 then multiset{} else multiset{Offering(e)} + WorkOf(c).deeds
  {}

  // ----- libcurl's message queue

  /** Removing a handle from the multi takes its unread messages out of the queue. */
  function Without(msgs: seq<Message>, easy: Easy): (r: seq<Message>)
    ensures forall m :: m in r <==> m in msgs && !(m.Finished? && m.easy == easy)
    ensures |r| <= |msgs|
  {
    if msgs == [] then []
    else if msgs[0].Finished? && msgs[0].easy == easy then Without(msgs[1..], easy)
    else [msgs[0]] + Without(msgs[1..], easy)
  }

  class CurlMulti {
    var transfers: Registry
    var shutdown: bool
    var inCheckCompleted: bool
    /** The multi has been freed. */
    var closed: bool

    /** libcurl's: the handles inside the multi, those of them whose completion it has reported, and the completions
        not read yet. */
    var multi: set<Easy>
    var finished: set<Easy>
    var msgs: seq<Message>

    /** The transfers `Shutdown` has taken out of the client and not yet aborted. */
    ghost var held: Registry
    /** The results given to each hand-over, in the order of the hand-overs. */
    var delivered: seq<seq<Code>>
    ghost var handles: Handles
    /** How often libcurl was driven. */
    ghost var kicks: nat

    ghost function Owned(): Registry
      reads this
    { if shutdown then held else transfers }

    ghost predicate Sane()
      reads this
    {
      && (if shutdown then transfers == map[] else held == map[])
      && (closed ==> shutdown && held == map[] && multi == {} && msgs == [])
      && Custody(Owned().Keys, multi, handles)
      && Counted(handles, |delivered|)
      && Traced(Owned(), delivered, handles, shutdown)
      && Queued(Owned(), multi, finished, msgs, handles.reported, |delivered|)
    }

    ghost predicate Valid()
      reads this
    { Sane() && Owed(Owned(), delivered) }

    /** All is well once the hand-over has been given this result. */
    ghost predicate Due(ticket: nat, code: Code)
      reads this
    {
      && Sane() && ticket < |delivered| && delivered[ticket] == [] && Owed(Owned(), delivered[ticket := [code]])
      && Because(handles, ticket, code)
    }

    /** The client would take the handle over. */
    ghost predicate Takes(e: Easy)
      reads this
    { shutdown || e !in transfers }

    /** The offer of a handle, as the client is now: after a shutdown its callback is aborted at once, and it fails at
        once if the handle is registered already or libcurl does not accept it. */
    ghost function Answered(e: Easy, accepted: bool): Offer
      reads this
    {
      Offer(e, Takes(e),
            if shutdown then Some(Aborted) else if e in transfers || !accepted then Some(FailedInit) else None)
    }

    ghost function Agenda(): multiset<Deed>
      reads this
    { Sum(handles.done, Owned()) }

    /** What every operation keeps, also when it is entered from inside a callback. What it is asked to do is done, or
        left with stored callbacks, so every callback that runs has run to its end. */
    twostate predicate Kept(deeds: multiset<Deed>)
      reads this
    {
      && inCheckCompleted == old(inCheckCompleted)
      && (!inCheckCompleted && old(msgs) == [] ==> msgs == [])
      && Advanced() && Agenda() == old(Agenda()) + deeds
    }

    twostate predicate Advanced()
      reads this
    {
      && Later(old(handles), old(delivered), handles, delivered)
      && Tended(old(Owned()), old(msgs), Owned(), msgs, delivered, handles)
      && (old(shutdown) ==> shutdown && held == old(held) && closed == old(closed))
      && (shutdown ==> old(shutdown) || closed)
      && old(kicks) <= kicks
    }

    constructor ()
      ensures Valid() && !shutdown && !inCheckCompleted && msgs == [] && transfers == map[]
      ensures delivered == [] && Agenda() == multiset{} && handles.cleaned == multiset{} && handles.inside == {}
                && handles.leaving == multiset{}
    {
      transfers, shutdown, inCheckCompleted, closed, multi, finished, msgs := map[], false, false, false, {}, {}, [];
      held, delivered, kicks := map[], [], 0;
      handles := Handles(multiset{}, [], multiset{}, multiset{}, multiset{}, multiset{}, {}, {}, {});
      new;
      TotalEmpty();
    }

    /** curl_easy_cleanup, which also takes a handle still inside the multi out of it. */
    method EasyCleanup(easy: Easy)
      requires Valid() && easy in handles.leaving
      modifies this`multi, this`finished, this`msgs, this`handles
      ensures Valid() && handles == CleanUp(old(handles), old(multi), easy)
      ensures msgs == Without(old(msgs), easy)
    {
      hide Owed, Custody, Counted, CleanUp, Traced, Queued;
      CustodyCleanUp(Owned().Keys, multi, handles, easy);
      TracedCleanUp(Owned(), delivered, handles, shutdown, multi, easy);
      QueuedWithout(Owned(), multi, finished, msgs, handles.reported, |delivered|, easy);
      CountSame(handles, CleanUp(handles, multi, easy), |delivered|);
      handles := CleanUp(handles, multi, easy);
      multi, finished, msgs := multi - {easy}, finished - {easy}, Without(msgs, easy);
    }

    /** curl_multi_socket_action: any transfers in the multi may finish, each of them once. */
    method Perform()
      requires Valid() && !shutdown
      modifies this`msgs, this`finished, this`handles, this`kicks
      ensures Valid() && kicks == old(kicks) + 1
      ensures old(msgs) <= msgs && Tended(Owned(), old(msgs), Owned(), msgs, delivered, handles)
      ensures Later(old(handles), delivered, handles, delivered) && handles.done == old(handles).done
      ensures handles.taken == old(handles).taken && handles.cleaned == old(handles).cleaned
    {
      hide Owed, Custody, Counted, Traced, Queued, Later;
      var more: seq<Message> := *;
      kicks := kicks + 1;
      LaterSelf(handles, delivered);
      for i := 0 to |more|
        invariant Valid() && old(msgs) <= msgs && Later(old(handles), delivered, handles, delivered)
        invariant handles.done == old(handles).done && kicks == old(kicks) + 1
        invariant handles.taken == old(handles).taken && handles.cleaned == old(handles).cleaned
      {
        ghost var h := handles;
        Arrive(more[i]);
        LaterTwice(old(handles), delivered, h, delivered, handles, delivered);
      }
      TendedSelf(Owned(), old(msgs), msgs[|old(msgs)|..], delivered, handles);
      assert msgs == old(msgs) + msgs[|old(msgs)|..];
    }

    /** libcurl reports the completion of a handle inside the multi, unless it has done so. */
    method Arrive(m: Message)
      requires Valid() && !shutdown
      modifies this`msgs, this`finished, this`handles
      ensures Valid() && old(msgs) <= msgs && Later(old(handles), delivered, handles, delivered)
      ensures handles == old(handles).(reported := handles.reported)
    {
      hide Owed, Custody, Counted, Traced, Queued, Later;
      LaterSelf(handles, delivered);
      if m.Finished? && (m.easy !in multi || m.easy in finished) { return; }
      OwedTickets(Owned(), delivered);
      RunningIsOwned(Owned().Keys, multi, handles);
      QueuedReport(Owned(), multi, finished, msgs, handles.reported, |delivered|, m);
      msgs := msgs + [m];
      if m.Finished? {
        ghost var reported := handles.reported + {(transfers[m.easy].ticket, m.result)};
        CustodyReport(Owned().Keys, multi, handles, reported);
        TracedReported(Owned(), delivered, handles, shutdown, reported);
        LaterReported(handles, delivered, reported);
        CountSame(handles, handles.(reported := reported), |delivered|);
        finished := finished + {m.easy};
        handles := handles.(reported := reported);
      }
    }

    /** The one place where a hand-over is given its result: by running its callback, whatever that does with the
        client. The handle it is called for has not been cleaned up yet. */
    method SafeInvoke(callback: Callback, ticket: nat, code: Code, ghost easy: Easy)
      requires Due(ticket, code) && Usable(handles, easy)
      modifies this
      ensures Valid() && Kept(WorkOf(callback).deeds)
      ensures Total(transfers).size < Total(old(transfers)).size + WorkOf(callback).size
      ensures ticket < |delivered| && delivered[ticket] == [code]
      ensures forall e :: HandsBack(callback, e) && old(Takes(e)) ==> handles.taken[e] > old(handles.taken)[e]
      decreases Total(transfers).size + WorkOf(callback).size, 0
    {
      hide Owed, Custody, Total, Sum, Counted, WorkOf, WorkOfAll, ActionWork, Later, Tended, Given, Take,
           TurnDown, Leave, CleanUp, Logs, Traced, Queued, Strike, Because, Without, Unanswered;
      CallbackWork(callback);
      TracedGiven(Owned(), delivered, handles, shutdown, ticket, code);
      delivered := delivered[ticket := [code]];
      RunActions(callback.actions);
      LaterGiven(old(handles), old(delivered), ticket, code, handles, delivered);
    }

    method RunActions(actions: seq<Action>)
      requires Valid()
      modifies this
      ensures Valid() && Kept(WorkOfAll(actions).deeds)
      ensures Total(transfers).size <= Total(old(transfers)).size + WorkOfAll(actions).size
      ensures forall e :: HandsBack(Callback(actions), e) && old(Takes(e)) ==> handles.taken[e] > old(handles.taken)[e]
      decreases Total(transfers).size + WorkOfAll(actions).size, 1
    {
      hide Owed, Custody, Total, Sum, Counted, WorkOf, WorkOfAll, ActionWork, Later, Tended, Given, Take,
           TurnDown, Leave, CleanUp, Logs, Traced, Queued, Strike, Because, Without, Unanswered;
      if actions == [] {
        NoWork(Agenda());
        LaterSelf(handles, delivered);
        TendedSelf(Owned(), msgs, [], delivered, handles);
        return;
      }
      WorkSplits(actions);
      Act(actions[0]);
      ghost var h, d, owned, unread := handles, delivered, Owned(), msgs;
      RunActions(actions[1..]);
      LaterTwice(old(handles), old(delivered), h, d, handles, delivered);
      TendedTwice(old(Owned()), old(msgs), owned, unread, h, d, Owned(), msgs, handles, delivered);
    }

    method Act(action: Action)
      requires Valid()
      modifies this
      ensures Valid() && Kept(ActionWork(action).deeds)
      ensures Total(transfers).size < Total(old(transfers)).size + ActionWork(action).size
      ensures action.Add? && action.easy != 0 && old(Takes(action.easy)) ==>
                handles.taken[action.easy] > old(handles.taken)[action.easy]
      ensures action.Add? && action.easy != 0 ==>
                Logs(old(handles), handles, old(Answered(action.easy, action.accepted)))
      ensures action.Cancel? && !old(shutdown) && action.easy in old(transfers) ==>
                delivered[old(transfers)[action.easy].ticket] == [Aborted]
      ensures action.Close? ==> shutdown
      decreases Total(transfers).size + ActionWork(action).size, 0
    {
      hide Owed, Custody, Total, Sum, Counted, WorkOf, WorkOfAll, ActionWork, Later, Tended, Given, Take,
           TurnDown, Leave, CleanUp, Logs, Traced, Queued, Strike, Because, Without, Unanswered;
      match action {
        case Add(easy, callback, accepted) =>
          AddWork(easy, callback, accepted);
          AddTransfer(easy, callback, accepted);
        case Cancel(easy) =>
          OtherWork(action);
          CancelTransfer(easy);
        case Close =>
          OtherWork(action);
          Shutdown();
      }
    }

    /** A null handle is dropped, with its callback. */
    method AddTransfer(easy: Easy, callback: Callback, accepted: bool)
      requires Valid()
      modifies this
      ensures Valid() && Kept(ActionWork(Add(easy, callback, accepted)).deeds)
      ensures Total(transfers).size <= Total(old(transfers)).size + WorkOf(callback).size
      ensures easy == 0 ==> unchanged(this)
      ensures easy != 0 ==> |delivered| > |old(delivered)|
      ensures easy != 0 && old(Takes(easy)) ==> handles.taken[easy] > old(handles.taken)[easy]
      ensures easy != 0 ==> Logs(old(handles), handles, old(Answered(easy, accepted)))
      ensures HandsBack(callback, easy) && old(shutdown) ==> handles.taken[easy] > old(handles.taken)[easy] + 1
      decreases Total(transfers).size + WorkOf(callback).size, 5
    {
      hide Owed, Custody, Total, Sum, Counted, WorkOf, WorkOfAll, ActionWork, Later, Tended, Given, Take,
           TurnDown, Leave, CleanUp, Logs, Traced, Queued, Strike, Because, Without, Unanswered;
      AddWork(easy, callback, accepted);
      if easy == 0 {
        LaterSelf(handles, delivered);
        Sums(Agenda(), multiset{}, multiset{});
        TendedSelf(Owned(), msgs, [], delivered, handles);
        return;
      }
      DoAddTransfer(easy, callback, accepted);
    }

    /** Takes a handle over that will not run: all it is owed is its result and its cleanup. */
    method TakeInVain(easy: Easy, code: Code)
      requires Valid() && Refusal(code, shutdown)
      modifies this`delivered, this`handles
      ensures Due(|old(delivered)|, code) && Usable(handles, easy)
      ensures delivered == old(delivered) + [[]] && handles == Leave(Take(old(handles), easy, Some(code)), easy)
      ensures Agenda() == old(Agenda()) + multiset{Offering(easy)}
    {
      hide Owed, Custody, Total, Sum, Counted, Traced, Queued, Because;
      OwedAtOnce(Owned(), delivered, code);
      CustodyRefuse(Owned().Keys, multi, handles, easy, Some(code));
      TracedInVain(Owned(), delivered, handles, shutdown, easy, code);
      QueuedStored(Owned(), multi, finished, msgs, handles.reported, |delivered|, easy, Callback([]));
      SumMore(handles.done, Owned(), Offering(easy));
      CountMore(handles, easy, Some(code), |delivered|);
      delivered, handles := delivered + [[]], Leave(Take(handles, easy, Some(code)), easy);
      ClaimedIsUsable(Owned().Keys, multi, handles, easy);
    }

    /** A handle taken over only to be cleaned up, after its callback. */
    method Refuse(easy: Easy, callback: Callback, code: Code)
      requires Valid() && Takes(easy) && Refusal(code, shutdown)
      modifies this
      ensures Valid() && Kept(multiset{Offering(easy)} + WorkOf(callback).deeds)
      ensures Total(transfers).size <= Total(old(transfers)).size + WorkOf(callback).size
      ensures |delivered| > |old(delivered)| && delivered[|old(delivered)|] == [code]
      ensures handles.taken[easy] > old(handles.taken)[easy] && handles.cleaned[easy] > old(handles.cleaned)[easy]
      ensures Logs(old(handles), handles, Offer(easy, true, Some(code)))
      ensures HandsBack(callback, easy) ==> handles.taken[easy] > old(handles.taken)[easy] + 1
      decreases Total(transfers).size + WorkOf(callback).size, 1
    {
      hide Owed, Custody, Total, Sum, Counted, WorkOf, WorkOfAll, ActionWork, Later, Tended, Given, Take,
           TurnDown, Leave, CleanUp, Logs, Traced, Queued, Strike, Because, Without, Unanswered, CurlMulti.Sane;
      TakeInVain(easy, code);
      Sums(old(Agenda()), multiset{Offering(easy)}, WorkOf(callback).deeds);
      SafeInvoke(callback, |delivered| - 1, code, easy);
      LaterNew(Leave(Take(old(handles), easy, Some(code)), easy), old(delivered), handles, delivered);
      LaterAround(Take(old(handles), easy, Some(code)), old(delivered), easy, handles, delivered, multi);
      MessagesInMulti();
      TendedCleanUp(old(Owned()), old(msgs), Owned(), msgs, multi, delivered, handles, easy);
      EasyCleanup(easy);
      LaterTaken(old(handles), old(delivered), easy, Some(code), handles, delivered);
    }

    /** A handle registered already: the callback is told, and the handle left to its first owner. */
    method RefuseDuplicate(easy: Easy, callback: Callback)
      requires Valid() && !shutdown && easy in transfers
      modifies this
      ensures Valid() && Kept(multiset{Offering(easy)} + WorkOf(callback).deeds)
      ensures Total(transfers).size <= Total(old(transfers)).size + WorkOf(callback).size
      ensures |delivered| > |old(delivered)| && delivered[|old(delivered)|] == [FailedInit]
      ensures handles.refused[easy] > old(handles.refused)[easy]
      ensures Logs(old(handles), handles, Offer(easy, false, Some(FailedInit)))
      decreases Total(transfers).size + WorkOf(callback).size, 1
    {
      hide Owed, Custody, Total, Sum, Counted, WorkOf, WorkOfAll, ActionWork, Later, Tended, Given, Take,
           TurnDown, Leave, CleanUp, Logs, Traced, Queued, Strike, Because, Without, Unanswered;
      OwedAtOnce(transfers, delivered, FailedInit);
      CustodyRefused(transfers.Keys, multi, handles, easy);
      TracedDuplicate(transfers, delivered, handles, false, easy);
      QueuedStored(transfers, multi, finished, msgs, handles.reported, |delivered|, easy, callback);
      SumMore(handles.done, transfers, Offering(easy));
      CountMore(handles, easy, None, |delivered|);
      Sums(Agenda(), multiset{Offering(easy)}, WorkOf(callback).deeds);
      delivered, handles := delivered + [[]], TurnDown(handles, easy);
      ClaimedIsUsable(transfers.Keys, multi, handles, easy);
      SafeInvoke(callback, |delivered| - 1, FailedInit, easy);
      LaterNew(TurnDown(old(handles), easy), old(delivered), handles, delivered);
      LaterRefused(old(handles), old(delivered), easy, handles, delivered);
    }

    /** Takes the handle over. The callback is refused at once after a shutdown or when the handle is registered
        already, and otherwise is stored with the handle running; the refused duplicate is left to its first owner. */
    method DoAddTransfer(easy: Easy, callback: Callback, accepted: bool)
      requires Valid()
      modifies this
      ensures Valid() && Kept(multiset{Offering(easy)} + WorkOf(callback).deeds)
      ensures Total(transfers).size <= Total(old(transfers)).size + WorkOf(callback).size
      ensures |delivered| > |old(delivered)|
      ensures old(shutdown) ==>
                delivered[|old(delivered)|] == [Aborted] && handles.cleaned[easy] > old(handles.cleaned)[easy]
      ensures !old(shutdown) && (easy in old(transfers) || !accepted) ==> delivered[|old(delivered)|] == [FailedInit]
      ensures !old(shutdown) && easy !in old(transfers) && !accepted ==>
                handles.cleaned[easy] > old(handles.cleaned)[easy]
      ensures if old(Takes(easy)) then handles.taken[easy] > old(handles.taken)[easy]
              else handles.refused[easy] > old(handles.refused)[easy]
      ensures Logs(old(handles), handles, old(Answered(easy, accepted)))
      ensures !old(shutdown) && easy !in old(transfers) && accepted ==> kicks > old(kicks)
      ensures HandsBack(callback, easy) && old(shutdown) ==> handles.taken[easy] > old(handles.taken)[easy] + 1
      decreases Total(transfers).size + WorkOf(callback).size, 4
    {
      hide Owed, Custody, Total, Sum, Counted, WorkOf, WorkOfAll, ActionWork, Later, Tended, Given, Take,
           TurnDown, Leave, CleanUp, Logs, Traced, Queued, Strike, Because, Without, Unanswered;
      if shutdown {
        Refuse(easy, callback, Aborted);
        return;
      }
      if easy in transfers {
        RefuseDuplicate(easy, callback);
        return;
      }
      var before := transfers;
      transfers := transfers[easy := Pending(|delivered|, callback)];
      if !accepted {
        transfers := transfers - {easy};
        assert transfers == before;
        Refuse(easy, callback, FailedInit);
        return;
      }
      Store(before, easy, callback);
      TendedSelf(Owned(), msgs, [], delivered, handles);
      SocketAction();
      Sums(old(Agenda()) + multiset{Offering(easy)} + WorkOf(callback).deeds, multiset{}, multiset{});
      Sums(old(Agenda()), multiset{Offering(easy)}, WorkOf(callback).deeds);
      TendedMore(before, old(msgs), easy, Pending(|old(delivered)|, callback), Owned(), msgs, delivered, handles);
      LaterNew(Take(old(handles), easy, None), old(delivered), handles, delivered);
      LaterTaken(old(handles), old(delivered), easy, None, handles, delivered);
    }

    /** The callback is stored and the handle runs in the multi. */
    method Store(before: Registry, easy: Easy, callback: Callback)
      requires !shutdown && easy !in before && transfers == before[easy := Pending(|delivered|, callback)]
      requires held == map[] && !closed && Custody(before.Keys, multi, handles) && Counted(handles, |delivered|)
      requires Traced(before, delivered, handles, false) && Owed(before, delivered)
      requires Queued(before, multi, finished, msgs, handles.reported, |delivered|)
      modifies this`multi, this`delivered, this`handles
      ensures Valid() && delivered == old(delivered) + [[]] && handles == Take(old(handles), easy, None)
      ensures Agenda() == old(Sum(handles.done, before)) + multiset{Offering(easy)} + WorkOf(callback).deeds
      ensures Total(transfers).size == WorkOf(callback).size + Total(before).size
    {
      hide Owed, Custody, Total, Sum, Counted, WorkOf, Traced, Queued, Take;
      OwedAdd(before, delivered, easy, callback);
      CustodyRegister(before.Keys, multi, handles, easy);
      TracedStored(before, delivered, handles, easy, callback);
      QueuedStored(before, multi, finished, msgs, handles.reported, |delivered|, easy, callback);
      SumMore(handles.done, before, Offering(easy));
      CountMore(handles, easy, None, |delivered|);
      SumWith(handles.done + multiset{Offering(easy)}, before, easy, Pending(|delivered|, callback));
      multi := multi + {easy};
      assert transfers.Keys == before.Keys + {easy};
      delivered, handles := delivered + [[]], Take(handles, easy, None);
    }

    method CancelTransfer(easy: Easy)
      requires Valid()
      modifies this
      ensures Valid() && Kept(multiset{Cancelling(easy)}) && Total(transfers).size <= Total(old(transfers)).size
      ensures !old(shutdown) && easy in old(transfers) ==>
                delivered[old(transfers)[easy].ticket] == [Aborted]
                    && handles.cleaned[easy] > old(handles.cleaned)[easy]
      ensures old(shutdown) || easy !in old(transfers) ==>
                && handles == Strike(old(handles), Cancelling(easy), {}) && Unmoved()
      decreases Total(transfers).size, 2
    {
      hide Owed, Custody, Total, Sum, Counted, WorkOf, WorkOfAll, ActionWork, Later, Tended, Given, Take,
           TurnDown, Leave, CleanUp, Logs, Traced, Queued, Strike, Because, Without, Unanswered;
      if shutdown || easy !in transfers {
        Note(Cancelling(easy));
        return;
      }
      FinishTransfer(easy, Aborted);
    }

    /** Nothing but the record of what was done has changed. */
    twostate predicate Unmoved()
      reads this
    {
      unchanged(this`transfers, this`shutdown, this`inCheckCompleted, this`closed, this`multi, this`finished, this`msgs,
        this`held, this`delivered, this`kicks)
    }

    /** A cancel or shutdown that finds nothing to do. */
    ghost method Note(deed: Deed)
      requires Valid() && !deed.Offering? && (deed.Closing? ==> shutdown)
      modifies this`handles
      ensures Valid() && Kept(multiset{deed}) && handles == Strike(old(handles), deed, {})
    {
      hide Owed, Custody, Total, Sum, Counted, Later, Tended, Given, Traced, Queued, Strike, Because, Without;
      LaterNoted(handles, delivered, deed);
      TendedSelf(Owned(), msgs, [], delivered, Strike(handles, deed, {}));
      CustodyStrike(Owned().Keys, multi, handles, deed, {});
      TracedNoted(Owned(), delivered, handles, shutdown, deed);
      CountSame(handles, Strike(handles, deed, {}), |delivered|);
      SumMore(handles.done, Owned(), deed);
      handles := Strike(handles, deed, {});
    }

    lemma MessagesInMulti()
      requires Valid()
      ensures forall m :: m in msgs && m.Finished? ==> m.easy in multi
    {}

    /** Takes the handle out of the multi and the callback out of the registry, runs the callback, and cleans up. */
    method FinishTransfer(easy: Easy, result: Code)
      requires Valid() && !shutdown && easy in transfers
      requires result.Aborted? || (result.Done? && (transfers[easy].ticket, result.result) in handles.reported)
      modifies this
      ensures Valid() && Total(transfers).size < Total(old(transfers)).size
      ensures Kept(if result.Aborted? then multiset{Cancelling(easy)} else multiset{})
      ensures old(transfers)[easy].ticket < |delivered| && delivered[old(transfers)[easy].ticket] == [result]
      ensures handles.cleaned[easy] > old(handles.cleaned)[easy]
      ensures HandsBack(old(transfers)[easy].callback, easy) ==> handles.taken[easy] >= 2
      decreases Total(transfers).size, 1
    {
      hide Owed, Custody, Total, Sum, Counted, WorkOf, WorkOfAll, ActionWork, Later, Tended, Given, Take,
           TurnDown, Leave, CleanUp, Logs, Traced, Queued, Strike, Because, Without, Unanswered, CurlMulti.Sane;
      var pending := transfers[easy];
      ghost var struck := if result.Aborted? then Strike(handles, Cancelling(easy), {pending.ticket}) else handles;
      TakeOut(easy, result);
      SafeInvoke(pending.callback, pending.ticket, result, easy);
      LaterAround(struck, old(delivered), easy, handles, delivered, multi);
      GivenOne(delivered, pending.ticket, result);
      MessagesInMulti();
      TendedFinish(old(transfers), old(msgs), easy, Owned(), msgs, delivered, handles);
      TendedCleanUp(old(transfers), old(msgs), Owned(), msgs, multi, delivered, handles, easy);
      EasyCleanup(easy);
      if result.Aborted? { LaterStruck(old(handles), old(delivered), easy, pending.ticket, handles, delivered); }
    }

    /** The handle leaves the multi and its callback the registry: all it is owed is its result and its cleanup. */
    method TakeOut(easy: Easy, result: Code)
      requires Valid() && !shutdown && easy in transfers
      requires result.Aborted? || (result.Done? && (transfers[easy].ticket, result.result) in handles.reported)
      modifies this`multi, this`finished, this`msgs, this`transfers, this`handles
      ensures var pending := old(transfers)[easy];
              && Due(pending.ticket, result) && Usable(handles, easy) && handles.taken[easy] >= 1
              && pending.ticket < |old(handles).asked| && old(handles).asked[pending.ticket].easy == easy
              && handles == Leave(if result.Aborted? then Strike(old(handles), Cancelling(easy), {pending.ticket})
                                  else old(handles), easy)
              && Agenda() + WorkOf(pending.callback).deeds
                  == old(Agenda()) + (if result.Aborted? then multiset{Cancelling(easy)} else multiset{})
              && Total(old(transfers)).size == WorkOf(pending.callback).size + Total(transfers).size
      ensures transfers == old(transfers) - {easy} && msgs == Without(old(msgs), easy)
    {
      hide Owed, Custody, Total, Sum, Counted, WorkOf, Leave, Traced, Queued, Strike, Because, Without;
      ghost var t := transfers[easy].ticket;
      ghost var struck := if result.Aborted? then Strike(handles, Cancelling(easy), {t}) else handles;
      Depart(easy, result);
      multi, finished, msgs := multi - {easy}, finished - {easy}, Without(msgs, easy);
      transfers := transfers - {easy};
      handles := Leave(struck, easy);
      ClaimedIsUsable(Owned().Keys, multi, handles, easy);
      Sums(Agenda(), WorkOf(old(transfers)[easy].callback).deeds, multiset{});
    }

    /** What taking a transfer out of the client does to its accounts. */
    lemma Depart(easy: Easy, result: Code)
      requires Valid() && !shutdown && easy in transfers
      requires result.Aborted? || (result.Done? && (transfers[easy].ticket, result.result) in handles.reported)
      ensures var t := transfers[easy].ticket;
              var h := Leave(if result.Aborted? then Strike(handles, Cancelling(easy), {t}) else handles, easy);
              && t < |delivered| && delivered[t] == [] && Owed(transfers - {easy}, delivered[t := [result]])
              && t < |handles.asked| && handles.asked[t].easy == easy
              && Custody((transfers - {easy}).Keys, multi - {easy}, h) && h.taken[easy] >= 1
              && Counted(h, |delivered|) && Traced(transfers - {easy}, delivered, h, false) && Because(h, t, result)
              && Queued(transfers - {easy}, multi - {easy}, finished - {easy}, Without(msgs, easy),
                        h.reported, |delivered|)
              && Sum(handles.done, transfers)
                  == Sum(handles.done, transfers - {easy}) + WorkOf(transfers[easy].callback).deeds
              && Sum(h.done, transfers - {easy}) == Sum(handles.done, transfers - {easy})
                  + (if result.Aborted? then multiset{Cancelling(easy)} else multiset{})
      ensures Total(transfers).size == WorkOf(transfers[easy].callback).size + Total(transfers - {easy}).size
    {
      hide Owed, Custody, Total, Sum, Counted, WorkOf, Leave, Traced, Queued, Strike, Because, Without, Unanswered;
      var t := transfers[easy].ticket;
      OwedDeliver(transfers, delivered, easy, result);
      OwedTickets(transfers, delivered);
      QueuedWithout(transfers, multi, finished, msgs, handles.reported, |delivered|, easy);
      SumWithout(handles.done, transfers, easy);
      Waiting(easy);
      if result.Aborted? {
        CustodyStrike(transfers.Keys, multi, handles, Cancelling(easy), {t});
        CustodyFinish(transfers.Keys, multi, Strike(handles, Cancelling(easy), {t}), easy);
        TracedCancelled(transfers, delivered, handles, easy);
        CountSame(handles, Leave(Strike(handles, Cancelling(easy), {t}), easy), |delivered|);
        SumMore(handles.done, transfers - {easy}, Cancelling(easy));
      } else {
        CustodyFinish(transfers.Keys, multi, handles, easy);
        TracedDone(transfers, delivered, handles, easy, result.result);
        CountSame(handles, Leave(handles, easy), |delivered|);
        Sums(Sum(handles.done, transfers - {easy}), multiset{}, multiset{});
      }
    }

    lemma Waiting(e: Easy)
      requires Valid() && !shutdown && e in transfers
      ensures var t := transfers[e].ticket; t < |handles.asked| && handles.asked[t].easy == e && t !in handles.stopped
    {}

    /** Reads every completion, including those that arrive while callbacks run; entered again from one of them
        it leaves the reading to the call already at it. */
    method CheckCompleted()
      requires Valid() && !shutdown
      modifies this
      ensures Valid() && Advanced() && Agenda() == old(Agenda()) && inCheckCompleted == old(inCheckCompleted)
      ensures Total(transfers).size <= Total(old(transfers)).size
      ensures !inCheckCompleted ==> msgs == []
      ensures !inCheckCompleted && old(msgs) != [] && old(msgs)[0].Finished? && old(msgs)[0].easy in old(transfers) ==>
                IsTold(old(msgs)[0], old(transfers), delivered)
      ensures !inCheckCompleted ==> forall m :: m in old(msgs) && m.Finished? && m.easy in old(transfers) ==>
                || IsTold(m, old(transfers), delivered)
                || m.easy in handles.inside
                || (GivenCode(delivered, old(transfers)[m.easy].ticket, Aborted)
                    && (MoreOf(old(handles), handles, Cancelling(m.easy)) || MoreOf(old(handles), handles, Closing)))
      decreases Total(transfers).size, 2
    {
      hide Owed, Custody, Total, Sum, Counted, WorkOf, WorkOfAll, ActionWork, Later, Tended, Given, Take,
           TurnDown, Leave, CleanUp, Logs, Traced, Queued, Strike, Because, Without, Unanswered, IsTold,
           GivenCode;
      LaterSelf(handles, delivered);
      TendedSelf(Owned(), msgs, [], delivered, handles);
      if inCheckCompleted { return; }
      inCheckCompleted := true;
      ghost var first := true;
      while msgs != []
        invariant Valid() && Advanced() && Agenda() == old(Agenda()) && inCheckCompleted && (shutdown ==> closed)
        invariant Total(transfers).size <= Total(old(transfers)).size
        invariant first ==> msgs == old(msgs) && transfers == old(transfers) && !shutdown
        invariant !first && old(msgs) != [] && old(msgs)[0].Finished? && old(msgs)[0].easy in old(transfers) ==>
                    IsTold(old(msgs)[0], old(transfers), delivered)
        decreases Total(transfers).size, |msgs|
      {
        ghost var h, d := handles, delivered;
        first := false;
        ghost var owned, unread := Owned(), msgs;
        Unread();
        var msg := msgs[0];
        msgs := msgs[1..];
        LaterSelf(h, d);
        TendedSelf(owned, msgs, [], d, h);
        if msg.Finished? {
          FinishTransfer(msg.easy, Done(msg.result));
          GivenOne(delivered, owned[msg.easy].ticket, Done(msg.result));
          assert IsTold(msg, owned, delivered) by { ToldOne(msg, owned, delivered); }
        }
        LaterTwice(old(handles), old(delivered), h, d, handles, delivered);
        if old(msgs) != [] && old(msgs)[0].Finished? && old(msgs)[0].easy in old(transfers) {
          ToldStill(old(msgs)[0], old(transfers), d, delivered);
        }
        TendedRead(old(Owned()), old(msgs), owned, unread, h, d, Owned(), msgs, handles, delivered);
      }
      TendedToTheEnd(old(Owned()), old(msgs), Owned(), delivered, handles);
      OneReport();
      forall m | m in old(msgs) && m.Finished? && m.easy in old(transfers) && m.easy !in handles.inside
        ensures IsTold(m, old(transfers), delivered)
                || (GivenCode(delivered, old(transfers)[m.easy].ticket, Aborted)
                    && (MoreOf(old(handles), handles, Cancelling(m.easy)) || MoreOf(old(handles), handles, Closing)))
      {
        ToldOrStopped(m, old(transfers), old(multi), old(finished), old(msgs), old(handles), old(delivered),
                      Owned(), handles, delivered, shutdown);
      }
      inCheckCompleted := false;
    }

    lemma OneReport()
      requires Valid()
      ensures forall t, r, q :: (t, r) in handles.reported && (t, q) in handles.reported ==> r == q
    {}

    lemma Unread()
      requires Valid() && msgs != [] && (shutdown ==> closed)
      ensures Queued(Owned(), multi, finished, msgs[1..], handles.reported, |delivered|)
      ensures msgs[0].Finished? ==>
                var m := msgs[0];
                !shutdown && m.easy in transfers && (transfers[m.easy].ticket, m.result) in handles.reported
    {
      hide Owed, Custody, Counted, Traced;
      QueuedRead(Owned(), multi, finished, msgs, handles.reported, |delivered|);
    }

    method SocketAction()
      requires Valid() && !shutdown
      modifies this
      ensures Valid() && Kept(multiset{}) && Total(transfers).size <= Total(old(transfers)).size
      ensures kicks > old(kicks) && (!inCheckCompleted ==> msgs == [])
      decreases Total(transfers).size, 3
    {
      hide Owed, Custody, Total, Sum, Counted, WorkOf, WorkOfAll, ActionWork, Later, Tended, Given, Take,
           TurnDown, Leave, CleanUp, Logs, Traced, Queued, Strike, Because, Without, Unanswered;
      Perform();
      ghost var h, unread := handles, msgs;
      CheckCompleted();
      Sums(Agenda(), multiset{}, multiset{});
      LaterTwice(old(handles), old(delivered), h, old(delivered), handles, delivered);
      TendedTwice(old(Owned()), old(msgs), old(Owned()), unread, h, old(delivered),
                  Owned(), msgs, handles, delivered);
    }

    /** Aborts one of the transfers taken out of the client. */
    method Abort(easy: Easy, pending: Pending)
      requires Valid() && shutdown && !closed && easy in held && held[easy] == pending
      modifies this
      ensures Valid() && shutdown && !closed && held == old(held) - {easy} && Total(held).size < Total(old(held)).size
      ensures old(kicks) <= kicks && inCheckCompleted == old(inCheckCompleted)
      ensures Later(old(handles), old(delivered), handles, delivered)
      ensures Agenda() == old(Agenda()) && pending.ticket < |delivered| && delivered[pending.ticket] == [Aborted]
      decreases Total(held).size, 1
    {
      hide Owed, Custody, Total, Sum, Counted, WorkOf, WorkOfAll, ActionWork, Later, Tended, Given, Take,
           TurnDown, Leave, CleanUp, Logs, Traced, Queued, Strike, Because, Without, Unanswered;
      OwedDeliver(held, delivered, easy, Aborted);
      CustodyFinish(held.Keys, multi, handles, easy);
      SumWithout(handles.done, held, easy);
      TracedAborted(held, delivered, handles, easy);
      QueuedWithout(held, multi, finished, msgs, handles.reported, |delivered|, easy);
      CountSame(handles, Leave(handles, easy), |delivered|);
      assert Total(map[]) == NOTHING by { TotalEmpty(); }
      multi, finished, msgs := multi - {easy}, finished - {easy}, Without(msgs, easy);
      handles := Leave(handles, easy);
      held := held - {easy};
      ClaimedIsUsable(Owned().Keys, multi, handles, easy);
      SafeInvoke(pending.callback, pending.ticket, Aborted, easy);
      LaterAround(old(handles), old(delivered), easy, handles, delivered, multi);
      EasyCleanup(easy);
    }

    /** The shutdown begins: the transfers are taken out of the client, all to be aborted. */
    method Seize()
      requires Valid() && !shutdown
      modifies this`shutdown, this`transfers, this`held, this`handles
      ensures Valid() && shutdown && !closed && held == old(transfers) && transfers == map[]
      ensures Later(old(handles), delivered, handles, delivered)
      ensures Agenda() == old(Agenda()) + multiset{Closing}
    {
      hide Owed, Custody, Total, Sum, Counted, Later, Traced, Queued, Strike;
      CustodyStrike(transfers.Keys, multi, handles, Closing, Unanswered(delivered));
      TracedClosed(transfers, delivered, handles);
      LaterClosed(handles, delivered, Unanswered(delivered));
      CountSame(handles, Strike(handles, Closing, Unanswered(delivered)), |delivered|);
      SumMore(handles.done, transfers, Closing);
      handles := Strike(handles, Closing, Unanswered(delivered));
      shutdown := true;
      held, transfers := transfers, map[];
    }

    /** Aborts whatever is registered. Afterwards every hand-over there has ever been has exactly one result. */
    method Shutdown()
      requires Valid()
      modifies this
      ensures Valid() && Kept(multiset{Closing}) && Total(transfers).size <= Total(old(transfers)).size
      ensures old(shutdown) ==> handles == Strike(old(handles), Closing, {}) && Unmoved()
      ensures !old(shutdown) ==>
                && closed && transfers == map[]
                && (forall e :: e in old(transfers) ==> delivered[old(transfers)[e].ticket] == [Aborted])
                && (forall t :: 0 <= t < |delivered| ==> |delivered[t]| == 1)
      decreases Total(transfers).size, 3
    {
      hide Owed, Custody, Total, Sum, Counted, WorkOf, WorkOfAll, ActionWork, Later, Tended, Given, Take,
           TurnDown, Leave, CleanUp, Logs, Traced, Queued, Strike, Because, Without, Unanswered;
      if shutdown {
        Note(Closing);
        return;
      }
      OwedTickets(transfers, delivered);
      TotalEmpty();
      var registered := transfers;
      Seize();
      ghost var h, d := handles, delivered;
      AbortAll(registered);
      LaterTwice(old(handles), old(delivered), h, d, handles, delivered);
      FreeMulti();
      AllGiven(delivered);
      TendedAll(old(transfers), old(msgs), Owned(), msgs, delivered, handles);
    }

    /** Aborts the transfers taken out of the client one by one. */
    method AbortAll(all: Registry)
      requires Valid() && shutdown && !closed && held == all
      modifies this
      ensures Valid() && shutdown && !closed && held == map[] && inCheckCompleted == old(inCheckCompleted)
      ensures Later(old(handles), old(delivered), handles, delivered) && Agenda() == old(Agenda())
      ensures |old(delivered)| <= |delivered| && old(kicks) <= kicks
      ensures forall e :: e in all ==> all[e].ticket < |delivered| && delivered[all[e].ticket] == [Aborted]
      decreases Total(held).size, 2
    {
      hide Owed, Custody, Total, Sum, Counted, Later, Traced, Queued, Leave, CleanUp, Without;
      LaterSelf(handles, delivered);
      var rest := all;
      while rest != map[]
        invariant Valid() && shutdown && !closed && held == rest && rest.Keys <= all.Keys
        invariant inCheckCompleted == old(inCheckCompleted) && Later(old(handles), old(delivered), handles, delivered)
        invariant Agenda() == old(Agenda()) && |old(delivered)| <= |delivered| && old(kicks) <= kicks
        invariant forall e :: e in rest ==> rest[e] == all[e]
        invariant forall e :: e in all && e !in rest ==>
                    all[e].ticket < |delivered| && delivered[all[e].ticket] == [Aborted]
        invariant Total(rest).size <= Total(all).size
        decreases rest.Keys
      {
        var easy :| easy in rest;
        ghost var h, d := handles, delivered;
        Abort(easy, rest[easy]);
        LaterTwice(old(handles), old(delivered), h, d, handles, delivered);
        rest := rest - {easy};
      }
    }

    /** curl_multi_cleanup, once no transfer is left. */
    method FreeMulti()
      requires Valid() && shutdown && held == map[]
      modifies this`multi, this`finished, this`msgs, this`closed
      ensures Valid() && closed && msgs == []
      ensures forall t :: 0 <= t < |delivered| ==> |delivered[t]| == 1
    {
      hide Owed, Custody, Counted, Traced, Queued;
      QueuedNothing(handles.reported, |delivered|, Owned(), multi, finished, msgs);
      AllPaid(delivered);
      RunningIsOwned(Owned().Keys, multi, handles);
      assert multi == {};
      multi, finished, msgs, closed := {}, {}, [], true;
    }
  }

  // ----- whole runs

  datatype Event = Ask(action: Action) | SocketOrTimer

  ghost function EventDeeds(event: Event): multiset<Deed> {
    if event.Ask? then ActionWork(event.action).deeds else multiset{}
  }

  /** What a run does to the client, by its calls and by the callbacks these bring along. */
  ghost function DeedsOf(events: seq<Event>): multiset<Deed> {
    if events == [] then multiset{}
    else DeedsOf(events[..|events| - 1]) + EventDeeds(events[|events| - 1])
  }

  /** Any run of hand-overs, cancels, socket and timer events and shutdowns, with whatever the callbacks do in
      between. Between events no completion is left unread and no callback is running; every hand-over has been
      given at most one result, and exactly one by the end when the client is shut down. Every handle is cleaned up
      as often as it was taken over, which is once for every offer at which the client was free to: twice exactly if
      there were two such offers. After a shutdown each offer was either refused as a duplicate or led to one
      cleanup, and a handle offered once has been cleaned up once, outside the multi. A callback is told how its
      transfer finished only as libcurl reported it, that it failed only where its offer was refused, and that it was
      aborted only if its handle is among those cancelled or the client was shut down. */
  method Run(client: CurlMulti, events: seq<Event>)
    requires client.Valid() && !client.inCheckCompleted && client.msgs == [] && client.handles.leaving == multiset{}
    requires client.shutdown ==> client.closed
    modifies client
    ensures client.Valid() && !client.inCheckCompleted && client.msgs == [] && client.handles.leaving == multiset{}
    ensures forall t :: 0 <= t < |client.delivered| ==>
              |client.delivered[t]| <= 1 && (client.delivered[t] == [] <==> Stored(client.transfers, t))
    ensures Grows(old(client.delivered), client.delivered)
    ensures client.Agenda() == old(client.Agenda()) + DeedsOf(events)
    ensures forall e: Easy ::
              client.handles.cleaned[e] + (if e in client.transfers then 1 else 0) == client.handles.taken[e]
    ensures forall e :: e in client.handles.inside ==> OfferedTwice(client.handles.asked, e)
    ensures forall e: Easy :: client.handles.taken[e] >= 2 <==> OfferedTwice(client.handles.asked, e)
    ensures old(client.handles.asked) <= client.handles.asked && |client.handles.asked| == |client.delivered|
    ensures var deeds := old(client.Agenda()) + DeedsOf(events);
            forall e: Easy :: deeds[Offering(e)] <= 1 ==>
              client.handles.cleaned[e] <= client.handles.taken[e] <= 1 && e !in client.handles.inside
              && (e in client.transfers ==> e in client.multi)
    ensures client.shutdown ==>
              && (forall t :: 0 <= t < |client.delivered| ==> |client.delivered[t]| == 1)
              && (forall e: Easy :: client.handles.cleaned[e] >= 2 <==> OfferedTwice(client.handles.asked, e))
              && var deeds := old(client.Agenda()) + DeedsOf(events);
                 forall e: Easy ::
                   && client.handles.cleaned[e] + client.handles.refused[e] == deeds[Offering(e)]
                   && (deeds[Offering(e)] == 1 ==> client.handles.cleaned[e] == 1)
    ensures var deeds := old(client.Agenda()) + DeedsOf(events);
            forall t, code :: 0 <= t < |client.delivered| && client.delivered[t] == [code] ==>
              var offer := client.handles.asked[t];
              && (code.Done? ==> offer.answer == None && (t, code.result) in client.handles.reported)
              && (code.FailedInit? <==> offer.answer == Some(FailedInit))
              && (code.Aborted? ==> Cancelling(offer.easy) in deeds || Closing in deeds)
  {
    hide Owed, Custody, Traced, Queued, Sum, Count, OfferedTwice, DeedsOf;
    RunEvents(client, events);
    Quiescent(client.Owned(), client.delivered, client.multi, client.handles);
    Reasons(client.Owned(), client.delivered, client.handles, client.shutdown);
    forall e: Easy ensures client.handles.taken[e] >= 2 <==> OfferedTwice(client.handles.asked, e) {
      CountTwice(client.handles.asked, e);
    }
  }

  method RunEvents(client: CurlMulti, events: seq<Event>)
    requires client.Valid() && !client.inCheckCompleted && client.msgs == []
    requires client.shutdown ==> client.closed
    modifies client
    ensures client.Valid() && !client.inCheckCompleted && client.msgs == []
    ensures client.shutdown ==> client.closed
    ensures Later(old(client.handles), old(client.delivered), client.handles, client.delivered)
    ensures client.Agenda() == old(client.Agenda()) + DeedsOf(events)
  {
    hide Owed, Custody, Total, Sum, Counted, WorkOf, WorkOfAll, ActionWork, Later, Tended, Given, Take,
         TurnDown, Leave, CleanUp, Logs, Traced, Queued, Strike, Because, Without, Unanswered;
    LaterSelf(client.handles, client.delivered);
    Sums(client.Agenda(), multiset{}, multiset{});
    for i := 0 to |events|
      invariant client.Valid() && !client.inCheckCompleted && client.msgs == []
      invariant client.shutdown ==> client.closed
      invariant Later(old(client.handles), old(client.delivered), client.handles, client.delivered)
      invariant client.Agenda() == old(client.Agenda()) + DeedsOf(events[..i])
    {
      assert events[..i + 1][..i] == events[..i];
      Sums(old(client.Agenda()), DeedsOf(events[..i]), EventDeeds(events[i]));
      ghost var h, d := client.handles, client.delivered;
      LaterSelf(h, d);
      match events[i] {
        case Ask(action) => client.Act(action);
        case SocketOrTimer => if !client.shutdown { client.SocketAction(); }
      }
      LaterTwice(old(client.handles), old(client.delivered), h, d, client.handles, client.delivered);
    }
    assert events[..|events|] == events;
  }

  lemma Reasons(owned: Registry, d: seq<seq<Code>>, h: Handles, shutdown: bool)
    requires Owed(owned, d) && Traced(owned, d, h, shutdown)
    ensures forall t, code :: 0 <= t < |d| && d[t] == [code] ==>
              && (code.Done? ==> h.asked[t].answer == None && (t, code.result) in h.reported)
              && (code.FailedInit? <==> h.asked[t].answer == Some(FailedInit))
              && (code.Aborted? ==> Cancelling(h.asked[t].easy) in Sum(h.done, owned) || Closing in Sum(h.done, owned))
  {
    hide Total;
    assert forall deed: Deed :: Sum(h.done, owned)[deed] >= h.done[deed];
    forall t, code | 0 <= t < |d| && d[t] == [code]
      ensures code.Done? ==> h.asked[t].answer == None && (t, code.result) in h.reported
      ensures code.FailedInit? <==> h.asked[t].answer == Some(FailedInit)
      ensures code.Aborted? ==>
                Sum(h.done, owned)[Cancelling(h.asked[t].easy)] > 0 || Sum(h.done, owned)[Closing] > 0
    {
      assert d[t] != [] && d[t][0] == code;
      assert Because(h, t, code);
    }
  }

  lemma Quiescent(owned: Registry, delivered: seq<seq<Code>>, multi: set<Easy>, h: Handles)
    requires Owed(owned, delivered) && Custody(owned.Keys, multi, h) && h.leaving == multiset{}
    requires Counted(h, |delivered|)
    ensures forall t :: 0 <= t < |delivered| ==> |delivered[t]| <= 1 && (delivered[t] == [] <==> Stored(owned, t))
    ensures forall e: Easy :: h.cleaned[e] + (if e in owned then 1 else 0) == h.taken[e]
    ensures forall e :: e in h.inside ==> h.taken[e] >= 2
    ensures forall e :: e in owned && h.taken[e] == 1 ==> e in multi
    ensures owned == map[] ==> (forall t :: 0 <= t < |delivered| ==> |delivered[t]| == 1)
    ensures forall e: Easy :: Sum(h.done, owned)[Offering(e)] <= 1 ==>
              h.cleaned[e] <= h.taken[e] <= 1 && e !in h.inside && (e in owned ==> e in multi)
    ensures owned == map[] ==> forall e: Easy ::
              && Sum(h.done, owned)[Offering(e)] == h.cleaned[e] + h.refused[e]
              && (Sum(h.done, owned)[Offering(e)] == 1 ==> h.cleaned[e] == 1)
  {
    assert forall e: Easy :: h.cleaned[e] + Claims(owned.Keys, h, e) == h.taken[e];
    assert forall e: Easy :: Sum(h.done, owned)[Offering(e)] >= h.done[Offering(e)] == h.taken[e] + h.refused[e];
    if owned == map[] {
      NothingLeft(multi, h);
      TotalEmpty();
      assert Sum(h.done, owned) == h.done;
      assert forall e: Easy :: h.done[Offering(e)] == h.cleaned[e] + h.refused[e];
    }
  }

  /** A callback that starts by handing the client the handle it was called for. */
  ghost predicate HandsBack(c: Callback, e: Easy) {
    e != 0 && c.actions != [] && c.actions[0].Add? && c.actions[0].easy == e
  }

  /** The case to avoid: the handle is new to the client, but its own callback hands it back, and it is cleaned up
      twice. */
  method HandedBackByItsCallback(client: CurlMulti, easy: Easy, callback: Callback, accepted: bool)
    requires client.Valid() && client.shutdown && client.closed && client.handles.leaving == multiset{}
    requires easy !in client.handles.taken && HandsBack(callback, easy)
    modifies client
    ensures client.handles.cleaned[easy] >= 2
  {
    client.AddTransfer(easy, callback, accepted);
    Quiescent(client.Owned(), client.delivered, client.multi, client.handles);
  }
}
