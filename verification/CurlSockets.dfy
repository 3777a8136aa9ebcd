/** The sockets and the timer the HTTP client watches for libcurl: waits handed to the event loop come back
    later, possibly after the socket is gone or its number belongs to another one, and timers come back
    possibly after a newer one was set. */
module CurlSockets {
  import opened Common

  type Fd = int

  datatype Dir = In | Out

  /** What libcurl asks to poll a socket for. */
  datatype What = Poll(dirs: set<Dir>) | Remove

  /** A registration: an id never used before, the directions last asked for, and the waits in flight. */
  datatype Socket = Socket(id: nat, action: set<Dir>, reading: bool, writing: bool)

  datatype Wait = Wait(fd: Fd, id: nat, dir: Dir)

  datatype Outcome = Success | OperationAborted | Failed

  predicate InFlight(s: Socket, d: Dir) { if d == In then s.reading else s.writing }

  function SetInFlight(s: Socket, d: Dir, b: bool): (r: Socket)
    ensures r.id == s.id && r.action == s.action && forall e :: InFlight(r, e) == if e == d then b else InFlight(s, e)
  { if d == In then s.(reading := b) else s.(writing := b) }

  // ----- what is kept

  /** A direction of a registered socket is marked as in flight exactly when one wait for it is outstanding,
      and no wait is ever outstanding twice. */
  ghost predicate Flagged(sockets: map<Fd, Socket>, waits: multiset<Wait>) {
    && (forall w: Wait :: waits[w] <= 1)
    && (forall fd, d :: fd in sockets ==> (InFlight(sockets[fd], d) <==> Wait(fd, sockets[fd].id, d) in waits))
  }

  ghost predicate Numbered(sockets: map<Fd, Socket>, waits: multiset<Wait>, next: nat) {
    && (forall fd :: fd in sockets ==> sockets[fd].id <= next)
    && (forall e, f :: e in sockets && f in sockets && sockets[e].id == sockets[f].id ==> e == f)
    && (forall w :: w in waits ==> w.id <= next)
  }

  ghost predicate Waiting(sockets: map<Fd, Socket>, waits: multiset<Wait>, next: nat) {
    Flagged(sockets, waits) && Numbered(sockets, waits, next)
  }

  lemma WaitingChanges(sockets: map<Fd, Socket>, waits: multiset<Wait>, next: nat, fd: Fd, dirs: set<Dir>)
    requires Waiting(sockets, waits, next)
    ensures Waiting(sockets - {fd}, waits, next)
    ensures fd !in sockets ==> Waiting(sockets[fd := Socket(next + 1, dirs, false, false)], waits, next + 1)
    ensures fd in sockets ==> Waiting(sockets[fd := sockets[fd].(action := dirs)], waits, next)
  {}

  function Armed(s: Socket, d: Dir): Socket { if d in s.action then SetInFlight(s, d, true) else s }

  /** At most one timer of a generation is outstanding, and none of a generation to come. */
  ghost predicate Timed(timers: multiset<nat>, generation: nat) {
    forall g: nat :: timers[g] <= if g <= generation then 1 else 0
  }

  /** No timer comes back under a generation that has been. */
  ghost predicate Renewed(before: multiset<nat>, from: nat, after: multiset<nat>, to: nat) {
    from <= to && forall g: nat :: g <= from ==> after[g] == before[g]
  }

  /** What libcurl last asked for is what is registered, unless registering failed. */
  ghost predicate Follows(sockets: map<Fd, Socket>, wanted: map<Fd, set<Dir>>, refused: set<Fd>) {
    && sockets.Keys <= wanted.Keys && (forall fd :: fd in sockets ==> sockets[fd].action == wanted[fd])
    && (forall fd :: fd in wanted && fd !in sockets ==> fd in refused)
    && refused !! sockets.Keys && refused <= wanted.Keys
  }

  // ----- what libcurl asks for

  /** What libcurl does in one call into it: it asks for a socket, whose registration, if it takes one, works or does
      not; it sets its timeout; it counts the transfers that run; or one that completes shuts the client down. */
  datatype Update = OfSocket(fd: Fd, what: What, registers: bool) | OfTimer(timeout: int) | OfCount(count: int) | Close

  /** The directions last asked for of every socket, and the sockets it could not be given. */
  datatype Demand = Demand(wanted: map<Fd, set<Dir>>, refused: set<Fd>)

  /** A socket asked for is given, unless it is not registered and cannot be. */
  ghost function Heard(d: Demand, u: Update): Demand {
    if !u.OfSocket? then d
    else if u.what.Remove? then Demand(d.wanted - {u.fd}, d.refused - {u.fd})
    else
      var known := u.fd in d.wanted && u.fd !in d.refused;
      Demand(d.wanted[u.fd := u.what.dirs], if known || u.registers then d.refused - {u.fd} else d.refused + {u.fd})
  }

  ghost function HeardAll(d: Demand, us: seq<Update>): Demand {
    if us == [] then d else Heard(HeardAll(d, us[..|us| - 1]), us[|us| - 1])
  }

  /** The count of running transfers: the one given last. */
  ghost function CountOver(n: int, us: seq<Update>): int {
    if us == [] then n
    else if us[|us| - 1].OfCount? then us[|us| - 1].count else CountOver(n, us[..|us| - 1])
  }

  ghost function LastTimeout(us: seq<Update>): Option<int> {
    if us == [] then None
    else if us[|us| - 1].OfTimer? then Some(us[|us| - 1].timeout) else LastTimeout(us[..|us| - 1])
  }

  /** The timer after some timeouts were set: what it was if there were none, and else one of a new generation for the
      last of them, or none if that was negative. */
  ghost predicate TimedBy(last: Option<int>, timers: multiset<nat>, generation: nat, timers': multiset<nat>,
                          generation': nat) {
    match last
    case None => timers' == timers && generation' == generation
    case Some(t) => generation' > generation && timers'[generation'] == if t < 0 then 0 else 1
  }

  lemma {:induction false} HeardBoth(d: Demand, us: seq<Update>, more: seq<Update>)
    ensures HeardAll(d, us + more) == HeardAll(HeardAll(d, us), more)
    decreases |more|
  {
    if more == [] {
      assert us + more == us;
    } else {
      var n := |more| - 1;
      HeardBoth(d, us, more[..n]);
      assert (us + more)[..|us + more| - 1] == us + more[..n];
    }
  }

  lemma {:induction false} CountBoth(n: int, us: seq<Update>, more: seq<Update>)
    ensures CountOver(n, us + more) == CountOver(CountOver(n, us), more)
    decreases |more|
  {
    if more == [] {
      assert us + more == us;
    } else {
      CountBoth(n, us, more[..|more| - 1]);
      assert (us + more)[..|us + more| - 1] == us + more[..|more| - 1];
    }
  }

  /** Only a request that could not be met leaves a socket refused. */
  lemma {:induction false} RefusedOnFailure(d: Demand, us: seq<Update>, fd: Fd)
    requires fd in HeardAll(d, us).refused
    ensures fd in d.refused || RegistrationFailed(us, fd)
    decreases |us|
  {
    if us != [] {
      var n := |us| - 1;
      if fd in HeardAll(d, us[..n]).refused {
        RefusedOnFailure(d, us[..n], fd);
        if fd !in d.refused {
          var i :| 0 <= i < n && FailsToRegister(us[..n][i], fd);
          assert FailsToRegister(us[i], fd);
        }
      } else {
        assert FailsToRegister(us[n], fd);
      }
    }
  }

  predicate FailsToRegister(u: Update, fd: Fd) { u.OfSocket? && u.fd == fd && u.what.Poll? && !u.registers }

  ghost predicate RegistrationFailed(us: seq<Update>, fd: Fd) {
    exists i :: 0 <= i < |us| && FailsToRegister(us[i], fd)
  }

  ghost predicate Closes(us: seq<Update>) { Close in us }

  ghost predicate PolledIn(us: seq<Update>, fd: Fd) {
    exists i :: 0 <= i < |us| && us[i].OfSocket? && us[i].fd == fd && us[i].what.Poll?
  }

  /** A socket not asked for meanwhile is the registration it was, and one that was asked for has no failed wait left
      behind. */
  ghost predicate Asked(before: map<Fd, Socket>, us: seq<Update>, after: map<Fd, Socket>, stalled: set<(nat, Dir)>) {
    forall fd :: fd in after ==>
      if PolledIn(us, fd) then forall d :: (after[fd].id, d) !in stalled
      else fd in before && before[fd].id == after[fd].id
  }

  lemma AskedNothing(before: map<Fd, Socket>, stalled: set<(nat, Dir)>)
    ensures Asked(before, [], before, stalled)
  {}

  /** It holds on, as marks are taken away and flags change. */
  lemma AskedStill(before: map<Fd, Socket>, us: seq<Update>, after: map<Fd, Socket>, stalled: set<(nat, Dir)>)
    requires Asked(before, us, after, stalled)
    ensures forall last: map<Fd, Socket>, fewer {:trigger Asked(before, us, last, fewer)} ::
              fewer <= stalled && (forall fd :: fd in last ==> fd in after && last[fd].id == after[fd].id)
              ==> Asked(before, us, last, fewer)
  {}

  lemma AskedAgain(before: map<Fd, Socket>, us: seq<Update>, i: nat, between: map<Fd, Socket>,
                   marks: set<(nat, Dir)>, after: map<Fd, Socket>, stalled: set<(nat, Dir)>)
    requires i < |us| && Asked(before, us[..i], between, marks) && stalled <= marks
    requires forall fd :: fd in after && !(us[i].OfSocket? && us[i].fd == fd && us[i].what.Poll?) ==>
               fd in between && between[fd].id == after[fd].id
    requires us[i].OfSocket? && us[i].what.Poll? && us[i].fd in after ==>
               stalled !! Both(after[us[i].fd].id)
    ensures Asked(before, us[..i + 1], after, stalled)
  {
    forall fd | fd in after
      ensures if PolledIn(us[..i + 1], fd) then forall d :: (after[fd].id, d) !in stalled
              else fd in before && before[fd].id == after[fd].id
    {
      if us[i].OfSocket? && us[i].fd == fd && us[i].what.Poll? {
        assert us[..i + 1][i] == us[i];
        forall d ensures (after[fd].id, d) in Both(after[fd].id) { if d == In {} }
      } else {
        assert PolledIn(us[..i + 1], fd) ==> PolledIn(us[..i], fd);
        if PolledIn(us[..i], fd) {
          var j :| 0 <= j < i && us[..i][j].OfSocket? && us[..i][j].fd == fd && us[..i][j].what.Poll?;
          assert us[..i + 1][j] == us[..i][j];
        }
      }
    }
  }

  lemma AskedFrom(before: map<Fd, Socket>, between: map<Fd, Socket>, us: seq<Update>)
    requires forall fd :: fd in between ==> fd in before && before[fd].id == between[fd].id
    ensures forall after, stalled {:trigger Asked(before, us, after, stalled)} ::
              Asked(between, us, after, stalled) ==> Asked(before, us, after, stalled)
  {}

  lemma OneMore(d: Demand, n: int, us: seq<Update>, i: nat)
    requires i < |us|
    ensures LastTimeout(us[..i + 1]) == if us[i].OfTimer? then Some(us[i].timeout) else LastTimeout(us[..i])
    ensures CountOver(n, us[..i + 1]) == if us[i].OfCount? then us[i].count else CountOver(n, us[..i])
    ensures HeardAll(d, us[..i + 1]) == Heard(HeardAll(d, us[..i]), us[i])
    ensures Closes(us[..i + 1]) <==> Closes(us[..i]) || us[i] == Close
  {
    assert us[..i + 1][..i] == us[..i];
    assert us[..i + 1] == us[..i] + [us[i]];
  }

  // ----- coverage

  ghost predicate Covered(fd: Fd, s: Socket, d: Dir, posted: multiset<Fd>, stalled: set<(nat, Dir)>) {
    InFlight(s, d) || fd in posted || (s.id, d) in stalled
  }

  /** Every direction asked for is in flight or will be driven again, but for those whose wait failed. */
  ghost predicate AllCovered(sockets: map<Fd, Socket>, posted: multiset<Fd>, stalled: set<(nat, Dir)>) {
    forall fd, d :: fd in sockets && d in sockets[fd].action ==> Covered(fd, sockets[fd], d, posted, stalled)
  }

  /** A socket is the registration it was before, with no wait lost, or one made since. */
  ghost predicate Newer(before: map<Fd, Socket>, next: nat, after: map<Fd, Socket>) {
    forall fd :: fd in after ==>
      after[fd].id > next
      || (fd in before && before[fd].id == after[fd].id
          && (before[fd].reading ==> after[fd].reading) && (before[fd].writing ==> after[fd].writing))
  }

  lemma NewerSelf(sockets: map<Fd, Socket>, next: nat)
    ensures Newer(sockets, next, sockets) && Newer(sockets, next, map[])
  {}

  lemma NewerTwice(a: map<Fd, Socket>, m: nat, b: map<Fd, Socket>, n: nat, c: map<Fd, Socket>)
    requires Newer(a, m, b) && Newer(b, n, c) && m <= n
    ensures Newer(a, m, c)
  {}

  /** The registration a request ends up with: the directions asked for are all in flight. */
  function Polled(sockets: map<Fd, Socket>, next: nat, fd: Fd, dirs: set<Dir>): (s: Socket)
    ensures s.action == dirs && forall d :: d in dirs ==> InFlight(s, d)
    ensures if fd in sockets then s.id == sockets[fd].id else s.id == next + 1
    ensures fd in sockets ==> forall d :: InFlight(s, d) <==> InFlight(sockets[fd], d) || d in dirs
    ensures fd !in sockets ==> forall d :: InFlight(s, d) <==> d in dirs
  {
    var s := if fd in sockets then sockets[fd].(action := dirs) else Socket(next + 1, dirs, false, false);
    Armed(Armed(s, In), Out)
  }

  lemma PollKeeps(sockets: map<Fd, Socket>, next: nat, fd: Fd, dirs: set<Dir>, wanted: map<Fd, set<Dir>>,
                  refused: set<Fd>, posted: multiset<Fd>, stalled: set<(nat, Dir)>)
    requires Follows(sockets, wanted, refused) && AllCovered(sockets, posted, stalled)
    ensures var after := sockets[fd := Polled(sockets, next, fd, dirs)];
            Follows(after, wanted[fd := dirs], refused - {fd}) && AllCovered(after, posted, stalled)
                && Newer(sockets, next, after)
    ensures fd in wanted && fd !in refused <==> fd in sockets
    ensures fd !in sockets ==> Follows(sockets, wanted[fd := dirs], refused + {fd})
  {}

  /** With all it asks for in flight, a socket has no use for the marks of its failed waits. */
  lemma AskedIsCovered(sockets: map<Fd, Socket>, waits: multiset<Wait>, next: nat, fd: Fd,
                       posted: multiset<Fd>, stalled: set<(nat, Dir)>)
    requires Waiting(sockets, waits, next) && AllCovered(sockets, posted, stalled) && fd in sockets
    requires forall d :: d in sockets[fd].action ==> InFlight(sockets[fd], d)
    ensures AllCovered(sockets, posted, stalled - Both(sockets[fd].id))
  {}

  lemma DropKeeps(sockets: map<Fd, Socket>, next: nat, fd: Fd, wanted: map<Fd, set<Dir>>, refused: set<Fd>,
                  posted: multiset<Fd>, stalled: set<(nat, Dir)>)
    requires Follows(sockets, wanted, refused) && AllCovered(sockets, posted, stalled)
    ensures Follows(sockets - {fd}, wanted - {fd}, refused - {fd}) && AllCovered(sockets - {fd}, posted, stalled)
    ensures Newer(sockets, next, sockets - {fd}) && Newer(sockets, next, sockets)
  {}

  function Both(id: nat): (marks: set<(nat, Dir)>)
    ensures forall m :: m in marks ==> m.0 == id
  { {(id, In), (id, Out)} }

  /** A socket with a re-drive posted, or with all it asks for in flight, is no longer stalled. */
  lemma Settles(sockets: map<Fd, Socket>, waits: multiset<Wait>, next: nat, fd: Fd, wanted: map<Fd, set<Dir>>,
                refused: set<Fd>, posted: multiset<Fd>, stalled: set<(nat, Dir)>)
    requires Waiting(sockets, waits, next) && AllCovered(sockets, posted, stalled) && fd in sockets
    ensures AllCovered(sockets, posted + multiset{fd}, stalled - Both(sockets[fd].id))
    ensures AllCovered(sockets[fd := Armed(Armed(sockets[fd], In), Out)], posted, stalled - Both(sockets[fd].id))
    ensures Follows(sockets, wanted, refused) ==>
              Follows(sockets[fd := Armed(Armed(sockets[fd], In), Out)], wanted, refused)
  {}

  /** A wait that is delivered clears the flag of the registration it was made for, and of no other. */
  lemma Delivers(sockets: map<Fd, Socket>, waits: multiset<Wait>, next: nat, w: Wait)
    requires Waiting(sockets, waits, next) && w in waits
    ensures Fresh(sockets, w) ==>
              Waiting(sockets[w.fd := SetInFlight(sockets[w.fd], w.dir, false)], waits - multiset{w}, next)
    ensures !Fresh(sockets, w) ==> Waiting(sockets, waits - multiset{w}, next)
  {}

  predicate Fresh(sockets: map<Fd, Socket>, w: Wait) { w.fd in sockets && sockets[w.fd].id == w.id }

  lemma Stalls(sockets: map<Fd, Socket>, w: Wait, wanted: map<Fd, set<Dir>>, refused: set<Fd>,
               posted: multiset<Fd>, stalled: set<(nat, Dir)>)
    requires AllCovered(sockets, posted, stalled) && Fresh(sockets, w)
    ensures AllCovered(sockets[w.fd := SetInFlight(sockets[w.fd], w.dir, false)], posted, stalled + {(w.id, w.dir)})
    ensures Follows(sockets, wanted, refused) ==>
              Follows(sockets[w.fd := SetInFlight(sockets[w.fd], w.dir, false)], wanted, refused)
  {}

  /** No other socket has come by an id there was. */
  lemma IdStays(before: map<Fd, Socket>, waits: multiset<Wait>, next: nat, after: map<Fd, Socket>, fd: Fd, id: nat)
    requires Waiting(before, waits, next) && Newer(before, next, after)
    requires id <= next && fd in before && before[fd].id == id
    ensures forall f :: f in after && after[f].id == id ==> f == fd
  {}

  /** Marks of a registration that is gone, or that has nothing left uncovered, can be taken back. */
  lemma Forgets(sockets: map<Fd, Socket>, waits: multiset<Wait>, next: nat, fd: Fd, id: nat, marks: set<(nat, Dir)>,
                posted: multiset<Fd>, stalled: set<(nat, Dir)>)
    requires Waiting(sockets, waits, next) && AllCovered(sockets, posted, stalled)
              && (forall m :: m in marks ==> m.0 == id)
    requires forall f :: f in sockets && sockets[f].id == id ==> f == fd
    requires fd in sockets ==> forall e :: e in sockets[fd].action ==> InFlight(sockets[fd], e) || fd in posted
    ensures AllCovered(sockets, posted, stalled - marks)
  {}

  class CurlMulti {
    var sockets: map<Fd, Socket>
    var nextSocketId: nat
    var timerGeneration: nat
    var running: int
    var shutdown: bool

    /** What the event loop still has to deliver: waits, posted re-drives and timers. */
    var waits: multiset<Wait>
    var posted: multiset<Fd>
    var timers: multiset<nat>

    ghost var wanted: map<Fd, set<Dir>>
    ghost var refused: set<Fd>
    /** The directions whose wait failed or was aborted, since they were last armed. */
    ghost var stalled: set<(nat, Dir)>

    ghost function Demands(): Demand
      reads this
    { Demand(wanted, refused) }

    ghost predicate Valid()
      reads this
    {
      && Waiting(sockets, waits, nextSocketId)
      && Timed(timers, timerGeneration)
      && (if shutdown then sockets == map[] else Follows(sockets, wanted, refused))
      && AllCovered(sockets, posted, stalled)
    }

    constructor ()
      ensures Valid() && !shutdown && sockets == map[] && stalled == {} && refused == {} && running == 0
      ensures waits == multiset{} && posted == multiset{} && timers == multiset{}
    {
      sockets, nextSocketId, timerGeneration, running, shutdown := map[], 0, 0, 0, false;
      waits, posted, timers := multiset{}, multiset{}, multiset{};
      wanted, refused, stalled := map[], {}, {};
    }

    /** Starts a wait for a direction that is asked for and has none. */
    method Arm(fd: Fd, d: Dir)
      requires Waiting(sockets, waits, nextSocketId) && fd in sockets
      modifies this`sockets, this`waits
      ensures Waiting(sockets, waits, nextSocketId)
      ensures sockets == old(sockets)[fd := Armed(old(sockets)[fd], d)]
      ensures waits == if d in old(sockets)[fd].action && !InFlight(old(sockets)[fd], d)
                       then old(waits) + multiset{Wait(fd, old(sockets)[fd].id, d)} else old(waits)
    {
      var s := sockets[fd];
      if d !in s.action || InFlight(s, d) {
        assert sockets == sockets[fd := s];
        return;
      }
      sockets := sockets[fd := SetInFlight(s, d, true)];
      waits := waits + multiset{Wait(fd, s.id, d)};
    }

    method ArmSocket(fd: Fd)
      requires Waiting(sockets, waits, nextSocketId)
      modifies this`sockets, this`waits
      ensures Waiting(sockets, waits, nextSocketId) && old(waits) <= waits
      ensures fd !in old(sockets) ==> sockets == old(sockets)
      ensures fd in old(sockets) ==> sockets == old(sockets)[fd := Armed(Armed(old(sockets)[fd], In), Out)]
    {
      hide Waiting;
      if fd !in sockets { return; }
      Arm(fd, In);
      Arm(fd, Out);
    }

    /** Notes what a socket is asked for, under a new id when it is not registered, and arms it. */
    method Ask(fd: Fd, dirs: set<Dir>)
      requires Waiting(sockets, waits, nextSocketId)
      modifies this`sockets, this`waits, this`nextSocketId
      ensures Waiting(sockets, waits, nextSocketId) && old(waits) <= waits && old(nextSocketId) <= nextSocketId
      ensures sockets == old(sockets)[fd := Polled(old(sockets), old(nextSocketId), fd, dirs)]
    {
      hide Waiting;
      WaitingChanges(sockets, waits, nextSocketId, fd, dirs);
      if fd in sockets {
        sockets := sockets[fd := sockets[fd].(action := dirs)];
      } else {
        nextSocketId := nextSocketId + 1;
        sockets := sockets[fd := Socket(nextSocketId, dirs, false, false)];
      }
      ArmSocket(fd);
      assert sockets == old(sockets)[fd := Polled(old(sockets), old(nextSocketId), fd, dirs)];
    }

    /** libcurl asks for a socket to be polled or dropped. Registering an unknown one may fail. What is registered has
        no failed wait left behind, as all it is asked for is in flight again. */
    method OnSocketUpdate(fd: Fd, what: What, registers: bool)
      requires Valid()
      modifies this`sockets, this`waits, this`nextSocketId, this`wanted, this`refused, this`stalled
      ensures Valid() && old(waits) <= waits && old(nextSocketId) <= nextSocketId && stalled <= old(stalled)
      ensures Newer(old(sockets), old(nextSocketId), sockets)
      ensures shutdown ==> unchanged(this)
      ensures !shutdown ==> Demands() == Heard(old(Demands()), OfSocket(fd, what, registers))
      ensures !shutdown && what.Remove? ==> sockets == old(sockets) - {fd} && waits == old(waits)
      ensures !shutdown && what.Poll? && (fd in old(sockets) || registers) ==>
                && sockets == old(sockets)[fd := Polled(old(sockets), old(nextSocketId), fd, what.dirs)]
                && stalled !! Both(sockets[fd].id)
      ensures !shutdown && what.Poll? && fd !in old(sockets) && !registers ==>
                sockets == old(sockets) && waits == old(waits)
    {
      hide Waiting, Timed, Follows, AllCovered, Newer, Both;
      if shutdown {
        assert Newer(sockets, nextSocketId, sockets) by { NewerSelf(sockets, nextSocketId); }
        return;
      }
      DropKeeps(sockets, nextSocketId, fd, wanted, refused, posted, stalled);
      PollKeeps(sockets, nextSocketId, fd, if what.Poll? then what.dirs else {}, wanted, refused, posted, stalled);
      if what.Remove? {
        WaitingChanges(sockets, waits, nextSocketId, fd, {});
        sockets := sockets - {fd};
        wanted, refused := wanted - {fd}, refused - {fd};
        return;
      }
      wanted := wanted[fd := what.dirs];
      if fd !in sockets && !registers {
        refused := refused + {fd};
        return;
      }
      refused := refused - {fd};
      Ask(fd, what.dirs);
      AskedIsCovered(sockets, waits, nextSocketId, fd, posted, stalled);
      stalled := stalled - Both(sockets[fd].id);
    }

    /** libcurl sets its one timeout, or with a negative one drops it. Whatever was outstanding is superseded. */
    method TimerCallback(timeout: int)
      requires Timed(timers, timerGeneration)
      modifies this`timerGeneration, this`timers
      ensures Timed(timers, timerGeneration) && Renewed(old(timers), old(timerGeneration), timers, timerGeneration)
      ensures shutdown ==> timerGeneration == old(timerGeneration) && timers == old(timers)
      ensures !shutdown ==>
                timerGeneration > old(timerGeneration) && timers[timerGeneration] == if timeout < 0 then 0 else 1
    {
      if shutdown { return; }
      timerGeneration := timerGeneration + 1;
      if timeout < 0 { return; }
      timers := timers + multiset{timerGeneration};
    }

    /** Drops every socket and supersedes the timer. */
    method Shutdown()
      requires Valid()
      modifies this`shutdown, this`timerGeneration, this`sockets
      ensures Valid() && shutdown && sockets == map[] && (!old(shutdown) ==> timers[timerGeneration] == 0)
      ensures Renewed(timers, old(timerGeneration), timers, timerGeneration)
    {
      if shutdown { return; }
      shutdown := true;
      timerGeneration := timerGeneration + 1;
      sockets := map[];
    }

    /** A call into libcurl: it and the transfer callbacks that complete in it may update any sockets, set the
        timer and shut the client down, in any order, and the number of running transfers changes. */
    method SocketAction(updates: seq<Update>)
      requires Valid() && !shutdown
      modifies this`sockets, this`waits, this`nextSocketId, this`wanted, this`refused, this`stalled,
               this`timerGeneration, this`timers, this`running, this`shutdown
      ensures Valid() && old(waits) <= waits && old(nextSocketId) <= nextSocketId && stalled <= old(stalled)
      ensures Newer(old(sockets), old(nextSocketId), sockets)
      ensures Renewed(old(timers), old(timerGeneration), timers, timerGeneration)
      ensures (shutdown <==> Closes(updates)) && (!shutdown ==> Demands() == HeardAll(old(Demands()), updates))
      ensures Asked(old(sockets), updates, sockets, stalled) && running == CountOver(old(running), updates)
      ensures !shutdown ==>
                TimedBy(LastTimeout(updates), old(timers), old(timerGeneration), timers, timerGeneration)
    {
      hide Waiting, Timed, Follows, AllCovered, Heard, Closes, Newer, Asked, Both, CountOver,
           LastTimeout;
      NewerSelf(sockets, nextSocketId);
      AskedNothing(sockets, stalled);
      NothingHeard(Demands(), running);
      for i := 0 to |updates|
        invariant Valid() && old(waits) <= waits && old(nextSocketId) <= nextSocketId && stalled <= old(stalled)
        invariant Newer(old(sockets), old(nextSocketId), sockets)
        invariant Renewed(old(timers), old(timerGeneration), timers, timerGeneration)
        invariant (shutdown <==> Closes(updates[..i])) && running == CountOver(old(running), updates[..i])
        invariant !shutdown ==> Demands() == HeardAll(old(Demands()), updates[..i])
        invariant Asked(old(sockets), updates[..i], sockets, stalled) && (shutdown ==> sockets == map[])
        invariant !shutdown ==>
                    TimedBy(LastTimeout(updates[..i]), old(timers), old(timerGeneration), timers, timerGeneration)
      {
        OneMore(old(Demands()), old(running), updates, i);
        ghost var between, next, marks := sockets, nextSocketId, stalled;
        TakeUpdate(updates[i]);
        NewerTwice(old(sockets), old(nextSocketId), between, next, sockets);
        AskedAgain(old(sockets), updates, i, between, marks, sockets, stalled);
      }
      assert updates[..|updates|] == updates;
    }

    /** One of the things libcurl may do, none of which but the count has an effect after a shutdown. */
    method TakeUpdate(u: Update)
      requires Valid()
      modifies this`sockets, this`waits, this`nextSocketId, this`wanted, this`refused, this`stalled,
               this`timerGeneration, this`timers, this`running, this`shutdown
      ensures Valid() && old(waits) <= waits && old(nextSocketId) <= nextSocketId && stalled <= old(stalled)
      ensures Newer(old(sockets), old(nextSocketId), sockets)
      ensures Renewed(old(timers), old(timerGeneration), timers, timerGeneration)
      ensures running == if u.OfCount? then u.count else old(running)
      ensures !old(shutdown) && !u.Close? ==>
                TimedBy(if u.OfTimer? then Some(u.timeout) else None, old(timers), old(timerGeneration),
                        timers, timerGeneration)
      ensures (shutdown <==> old(shutdown) || u.Close?) && (!shutdown ==> Demands() == Heard(old(Demands()), u))
      ensures forall fd :: fd in sockets && !(u.OfSocket? && u.fd == fd && u.what.Poll?) ==>
                fd in old(sockets) && old(sockets)[fd].id == sockets[fd].id
      ensures u.OfSocket? && u.what.Poll? && u.fd in sockets ==> stalled !! Both(sockets[u.fd].id)
    {
      hide Waiting, Timed, Follows, AllCovered, Heard, Newer, Both;
      NewerSelf(sockets, nextSocketId);
      match u {
        case OfSocket(fd, what, registers) => OnSocketUpdate(fd, what, registers);
        case OfTimer(timeout) =>
          OthersChangeNothing(Demands(), u);
          TimerCallback(timeout);
        case OfCount(count) =>
          OthersChangeNothing(Demands(), u);
          running := count;
        case Close => Shutdown();
      }
    }

    /** Whether a poll of a socket libcurl still wants to read finds it readable. */
    method StillReadable(fd: Fd, polled: bool) returns (r: bool)
      ensures r <==> fd in sockets && In in sockets[fd].action && polled
    {
      if fd !in sockets || In !in sockets[fd].action { return false; }
      return polled;
    }

    /** A re-drive, if transfers run and the socket is still wanted for reading and found readable. */
    ghost function Redriven(fd: Fd, polled: bool): multiset<Fd>
      reads this
    {
      if running > 0 && fd in sockets && In in sockets[fd].action && polled then multiset{fd} else multiset{}
    }

    /** Lets libcurl work on the socket and then makes sure it is driven again: by a posted re-drive, or by
        arming what libcurl wants now. */
    method DriveSocket(fd: Fd, d: Dir, updates: seq<Update>, polled: bool)
      requires Valid() && !shutdown
      modifies this
      ensures Valid() && old(waits) <= waits && old(posted) <= posted && stalled <= old(stalled)
      ensures old(nextSocketId) <= nextSocketId && Newer(old(sockets), old(nextSocketId), sockets)
      ensures fd in sockets ==> forall e :: e in sockets[fd].action ==> InFlight(sockets[fd], e) || fd in posted
      ensures fd in sockets ==> stalled !! Both(sockets[fd].id)
      ensures (shutdown <==> Closes(updates)) && (!shutdown ==> Demands() == HeardAll(old(Demands()), updates))
      ensures Asked(old(sockets), updates, sockets, stalled) && running == CountOver(old(running), updates)
      ensures var again := d == In && running > 0 && fd in sockets && In in sockets[fd].action && polled;
              && posted == old(posted) + (if again then multiset{fd} else multiset{})
              && (!again && fd in sockets ==> forall e :: e in sockets[fd].action ==> InFlight(sockets[fd], e))
    {
      hide Waiting, Timed, Newer, AllCovered, Follows, Both, Closes, HeardAll, Asked, CountOver;
      SocketAction(updates);
      AskedStill(old(sockets), updates, sockets, stalled);
      ghost var between := sockets;
      ghost var next := nextSocketId;
      NewerSelf(sockets, nextSocketId);
      if d == In && running > 0 {
        var readable := StillReadable(fd, polled);
        if readable {
          Settles(sockets, waits, nextSocketId, fd, wanted, refused, posted, stalled);
          posted := posted + multiset{fd};
          stalled := stalled - Both(sockets[fd].id);
          return;
        }
      }
      Rearm(fd);
      NewerTwice(old(sockets), old(nextSocketId), between, next, sockets);
    }

    method Rearm(fd: Fd)
      requires Valid()
      modifies this`sockets, this`waits, this`stalled
      ensures Valid() && old(waits) <= waits && stalled <= old(stalled)
      ensures forall f :: f in sockets ==>
                f in old(sockets) && sockets[f].id == old(sockets)[f].id && sockets[f].action == old(sockets)[f].action
      ensures sockets.Keys == old(sockets).Keys && Newer(old(sockets), nextSocketId, sockets)
      ensures fd in sockets ==>
                (forall e :: e in sockets[fd].action ==> InFlight(sockets[fd], e)) && stalled !! Both(sockets[fd].id)
    {
      hide Waiting, Timed, AllCovered, Follows, Both;
      if fd in sockets {
        Settles(sockets, waits, nextSocketId, fd, wanted, refused, posted, stalled);
        stalled := stalled - Both(sockets[fd].id);
      }
      ArmSocket(fd);
    }

    /** A wait comes back. One made for a registration that is gone does nothing, whoever has its number now. */
    method OnSocketReady(w: Wait, outcome: Outcome, updates: seq<Update>, polled: bool)
      requires Valid() && w in waits
      modifies this
      ensures Valid()
      ensures !Fresh(old(sockets), w) ==>
                && unchanged(`sockets, `nextSocketId, `timerGeneration, `running, `shutdown, `posted, `timers, `stalled)
                && waits == old(waits) - multiset{w} && Demands() == old(Demands())
      ensures Fresh(old(sockets), w) && outcome.OperationAborted? ==>
                && sockets == old(sockets)[w.fd := SetInFlight(old(sockets)[w.fd], w.dir, false)]
                    && waits == old(waits) - multiset{w}
                && unchanged(`nextSocketId, `timerGeneration, `running, `shutdown, `posted, `timers)
                && stalled == old(stalled) + {(w.id, w.dir)} && Demands() == old(Demands())
      ensures Fresh(old(sockets), w) && !outcome.OperationAborted? ==>
                && (shutdown <==> Closes(updates)) && (!shutdown ==> Demands() == HeardAll(old(Demands()), updates))
                && Asked(old(sockets), updates, sockets, stalled) && running == CountOver(old(running), updates)
      ensures outcome.Failed? ==> posted == old(posted) && stalled <= old(stalled) + {(w.id, w.dir)}
      ensures outcome.Success? ==> stalled <= old(stalled)
      ensures outcome.Success? && Fresh(old(sockets), w) ==>
                posted == old(posted) + (if w.dir == In then Redriven(w.fd, polled) else multiset{})
      ensures outcome.Success? && Fresh(old(sockets), w) && w.fd in sockets ==>
                forall e :: e in sockets[w.fd].action ==> InFlight(sockets[w.fd], e) || w.fd in posted
    {
      hide Waiting, Timed, Follows, AllCovered, Newer, SetInFlight, Closes, HeardAll, Asked, CountOver;
      Delivers(sockets, waits, nextSocketId, w);
      IdBound(sockets, waits, nextSocketId, w);
      waits := waits - multiset{w};
      if shutdown || w.fd !in sockets || sockets[w.fd].id != w.id { return; }
      Stalls(sockets, w, wanted, refused, posted, stalled);
      sockets := sockets[w.fd := SetInFlight(sockets[w.fd], w.dir, false)];
      stalled := stalled + {(w.id, w.dir)};
      if outcome.OperationAborted? { return; }
      AskedFrom(old(sockets), sockets, updates);
      if outcome.Failed? {
        SocketAction(updates);
        return;
      }
      Respond(w, updates, polled);
    }

    /** A successful wait: the socket is driven, which settles whatever it wants. */
    method Respond(w: Wait, updates: seq<Update>, polled: bool)
      requires Valid() && !shutdown && Fresh(sockets, w) && w.id <= nextSocketId
      modifies this
      ensures Valid() && stalled <= old(stalled) - {(w.id, w.dir)}
      ensures w.fd in sockets ==> forall e :: e in sockets[w.fd].action ==> InFlight(sockets[w.fd], e) || w.fd in posted
      ensures posted == old(posted) + (if w.dir == In then Redriven(w.fd, polled) else multiset{})
      ensures (shutdown <==> Closes(updates)) && (!shutdown ==> Demands() == HeardAll(old(Demands()), updates))
      ensures Asked(old(sockets), updates, sockets, stalled) && running == CountOver(old(running), updates)
    {
      hide Waiting, Timed, Follows, AllCovered, Newer, Closes, HeardAll, Asked, CountOver;
      DriveSocket(w.fd, w.dir, updates, polled);
      IdStays(old(sockets), old(waits), old(nextSocketId), sockets, w.fd, w.id);
      Forgets(sockets, waits, nextSocketId, w.fd, w.id, {(w.id, w.dir)}, posted, stalled);
      AskedStill(old(sockets), updates, sockets, stalled);
      stalled := stalled - {(w.id, w.dir)};
    }

    /** A posted re-drive comes back; it goes by the number alone. */
    method OnRedrive(fd: Fd, updates: seq<Update>, polled: bool)
      requires Valid() && fd in posted
      modifies this
      ensures Valid() && stalled <= old(stalled)
      ensures posted == old(posted) - multiset{fd} + (if old(shutdown) then multiset{} else Redriven(fd, polled))
      ensures old(shutdown) ==>
                && unchanged(`sockets, `waits, `nextSocketId, `timerGeneration, `running, `shutdown, `timers, `stalled)
                && Demands() == old(Demands())
      ensures !old(shutdown) ==>
                && (shutdown <==> Closes(updates)) && (!shutdown ==> Demands() == HeardAll(old(Demands()), updates))
                && Asked(old(sockets), updates, sockets, stalled) && running == CountOver(old(running), updates)
      ensures !old(shutdown) && fd in sockets ==> forall e :: e in sockets[fd].action ==>
                InFlight(sockets[fd], e) || fd in posted
    {
      hide Waiting, Timed, Follows, AllCovered, Newer, Both, Closes, HeardAll, Asked, CountOver;
      Redrives(sockets, fd, posted, stalled);
      posted := posted - multiset{fd};
      if shutdown { return; }
      ghost var before := sockets;
      ghost var waiting := waits;
      ghost var next := nextSocketId;
      if fd in sockets { stalled := stalled + Both(sockets[fd].id); }
      DriveSocket(fd, In, updates, polled);
      AskedStill(old(sockets), updates, sockets, stalled);
      if fd in before {
        IdsBound(before, waiting, next);
        IdStays(before, waiting, next, sockets, fd, before[fd].id);
        Forgets(sockets, waits, nextSocketId, fd, before[fd].id, Both(before[fd].id), posted, stalled);
        stalled := stalled - Both(before[fd].id);
      }
    }

    /** A timer comes back, expired or cancelled. Only one of the current generation acts, and none of its
        generation is left to act again. */
    method OnTimeout(generation: nat, expired: bool, updates: seq<Update>)
      requires Valid() && generation in timers
      modifies this
      ensures Valid() && stalled <= old(stalled) && posted == old(posted) && timers[generation] == 0
      ensures if !expired || old(shutdown) || generation != old(timerGeneration) then
                && unchanged(`sockets, `waits, `nextSocketId, `timerGeneration, `running, `shutdown, `stalled)
                && timers == old(timers) - multiset{generation} && Demands() == old(Demands())
              else
                && (shutdown <==> Closes(updates)) && (!shutdown ==> Demands() == HeardAll(old(Demands()), updates))
                && Asked(old(sockets), updates, sockets, stalled) && running == CountOver(old(running), updates)
    {
      hide Waiting, Follows, AllCovered, Newer, Closes, HeardAll, Asked, CountOver;
      timers := timers - multiset{generation};
      if !expired || shutdown || generation != timerGeneration { return; }
      SocketAction(updates);
    }
  }

  lemma IdBound(sockets: map<Fd, Socket>, waits: multiset<Wait>, next: nat, w: Wait)
    requires Waiting(sockets, waits, next) && w in waits
    ensures w.id <= next
  {}

  lemma IdsBound(sockets: map<Fd, Socket>, waits: multiset<Wait>, next: nat)
    requires Waiting(sockets, waits, next)
    ensures forall fd :: fd in sockets ==> sockets[fd].id <= next
    ensures forall e, f :: e in sockets && f in sockets && sockets[e].id == sockets[f].id ==> e == f
  {}

  lemma Redrives(sockets: map<Fd, Socket>, fd: Fd, posted: multiset<Fd>, stalled: set<(nat, Dir)>)
    requires AllCovered(sockets, posted, stalled) && fd in posted
    ensures fd !in sockets ==> AllCovered(sockets, posted - multiset{fd}, stalled)
    ensures fd in sockets ==> AllCovered(sockets, posted - multiset{fd}, stalled + Both(sockets[fd].id))
  {}

  // ----- whole runs

  /** What the event loop may deliver, and calls from outside that reach libcurl, each with what libcurl does then
      and what polling the socket after that says. */
  datatype Event =
    | Ready(w: Wait, outcome: Outcome, updates: seq<Update>, polled: bool)
    | Posted(fd: Fd, updates: seq<Update>, polled: bool)
    | Timeout(generation: nat, expired: bool, updates: seq<Update>)
    | Call(updates: seq<Update>)
    | Stop

  function UpdatesOf(e: Event): seq<Update> { if e.Stop? then [] else e.updates }

  predicate FailsFor(e: Event, w: Wait) { e.Ready? && !e.outcome.Success? && e.w == w }

  /** A wait for this registration and direction came back aborted or failed, and libcurl has not asked for the
      socket since. */
  ghost predicate Unanswered(events: seq<Event>, heard: seq<seq<Update>>, w: Wait) {
    exists i :: 0 <= i < |events| && FailsFor(events[i], w) && Unasked(heard, i, w.fd)
  }

  ghost predicate Unasked(heard: seq<seq<Update>>, from: nat, fd: Fd) {
    forall j :: from <= j < |heard| ==> !PolledIn(heard[j], fd)
  }

  /** Whether libcurl is called for an event: not for stale waits and timers, and not after a shutdown. */
  ghost predicate Reaches(client: CurlMulti, event: Event)
    reads client
  {
    !client.shutdown &&
    match event
    case Ready(w, outcome, _, _) => w in client.waits && Fresh(client.sockets, w) && !outcome.OperationAborted?
    case Posted(fd, _, _) => fd in client.posted
    case Timeout(generation, expired, _) =>
      generation in client.timers && expired && generation == client.timerGeneration
    case Call(_) => true
    case Stop => false
  }

  method TakeEvent(client: CurlMulti, event: Event) returns (ghost told: seq<Update>)
    requires client.Valid()
    modifies client
    ensures client.Valid()
    ensures told == if old(Reaches(client, event)) then UpdatesOf(event) else []
    ensures client.shutdown <==> old(client.shutdown) || event.Stop? || Closes(told)
    ensures client.running == CountOver(old(client.running), told)
    ensures !client.shutdown ==> client.Demands() == HeardAll(old(client.Demands()), told)
    ensures forall fd, d :: fd in client.sockets && (client.sockets[fd].id, d) in client.stalled ==>
              && !PolledIn(told, fd) && fd in old(client.sockets) && old(client.sockets)[fd].id == client.sockets[fd].id
              && ((client.sockets[fd].id, d) in old(client.stalled)
                  || FailsFor(event, Wait(fd, client.sockets[fd].id, d)))
  {
    hide Waiting, Timed, Follows, AllCovered, Closes, HeardAll, Heard, CountOver;
    IdsBound(client.sockets, client.waits, client.nextSocketId);
    told := if Reaches(client, event) then UpdatesOf(event) else [];
    assert !Closes([]) && HeardAll(client.Demands(), []) == client.Demands() by { NothingHeard(client.Demands(), 0); }
    NothingHeard(client.Demands(), client.running);
    match event {
      case Ready(w, outcome, updates, polled) =>
        if w in client.waits { client.OnSocketReady(w, outcome, updates, polled); }
      case Posted(fd, updates, polled) =>
        if fd in client.posted { client.OnRedrive(fd, updates, polled); }
      case Timeout(generation, expired, updates) =>
        if generation in client.timers { client.OnTimeout(generation, expired, updates); }
      case Call(updates) => if !client.shutdown { client.SocketAction(updates); }
      case Stop => client.Shutdown();
    }
  }

  ghost function Said(heard: seq<seq<Update>>): seq<Update> {
    if heard == [] then [] else Said(heard[..|heard| - 1]) + heard[|heard| - 1]
  }

  /** Whatever is delivered in whatever order, each direction of a registered socket has exactly one wait
      outstanding or none, as its flag says, and at most one timer of the current generation is outstanding.
      Every direction libcurl wants of a registered socket is in flight or about to be driven again, unless a wait
      made for that registration and direction failed and libcurl has not asked for the socket since. All that
      libcurl has asked for in the calls that reached it is registered as asked for, but for the sockets that could
      not be registered when they were last asked for. */
  method Run(client: CurlMulti, events: seq<Event>) returns (ghost heard: seq<seq<Update>>)
    requires client.Valid()
    modifies client
    ensures client.Valid()
    ensures forall fd, d :: fd in client.sockets ==>
              client.waits[Wait(fd, client.sockets[fd].id, d)] == if InFlight(client.sockets[fd], d) then 1 else 0
    ensures client.timers[client.timerGeneration] <= 1
    ensures |heard| == |events|
    ensures forall i :: 0 <= i < |events| ==> heard[i] == [] || heard[i] == UpdatesOf(events[i])
    ensures forall fd, d :: fd in client.sockets && d in client.sockets[fd].action ==>
              var w := Wait(fd, client.sockets[fd].id, d);
              || w in client.waits || fd in client.posted
              || (w.id, d) in old(client.stalled) || Unanswered(events, heard, w)
    ensures client.shutdown <==> old(client.shutdown) || Closes(Said(heard)) || Stop in events
    ensures client.running == CountOver(old(client.running), Said(heard))
    ensures !client.shutdown ==>
              && client.Demands() == HeardAll(old(client.Demands()), Said(heard))
              && client.sockets.Keys == client.wanted.Keys - client.refused
              && (forall fd :: fd in client.sockets ==> client.sockets[fd].action == client.wanted[fd])
              && (forall fd :: fd in client.refused ==>
                  fd in old(client.refused) || RegistrationFailed(Said(heard), fd))
  {
    heard := RunEvents(client, events);
    Settled(client.sockets, client.waits, client.nextSocketId, client.wanted, client.refused, client.posted,
            client.stalled, client.shutdown);
    if !client.shutdown {
      forall fd | fd in client.refused ensures fd in old(client.refused) || RegistrationFailed(Said(heard), fd) {
        RefusedOnFailure(old(client.Demands()), Said(heard), fd);
      }
    }
  }

  method RunEvents(client: CurlMulti, events: seq<Event>) returns (ghost heard: seq<seq<Update>>)
    requires client.Valid()
    modifies client
    ensures client.Valid() && |heard| == |events|
    ensures forall i :: 0 <= i < |events| ==> heard[i] == [] || heard[i] == UpdatesOf(events[i])
    ensures forall fd, d :: fd in client.sockets && (client.sockets[fd].id, d) in client.stalled ==>
              (client.sockets[fd].id, d) in old(client.stalled)
              || Unanswered(events, heard, Wait(fd, client.sockets[fd].id, d))
    ensures client.shutdown <==> old(client.shutdown) || Closes(Said(heard)) || Stop in events
    ensures client.running == CountOver(old(client.running), Said(heard))
    ensures !client.shutdown ==> client.Demands() == HeardAll(old(client.Demands()), Said(heard))
  {
    heard := [];
    for i := 0 to |events|
      invariant client.Valid() && |heard| == i
      invariant forall k :: 0 <= k < i ==> heard[k] == [] || heard[k] == UpdatesOf(events[k])
      invariant forall fd, d :: fd in client.sockets && (client.sockets[fd].id, d) in client.stalled ==>
                  (client.sockets[fd].id, d) in old(client.stalled)
                  || Unanswered(events[..i], heard, Wait(fd, client.sockets[fd].id, d))
      invariant client.shutdown <==> old(client.shutdown) || Closes(Said(heard)) || Stop in events[..i]
      invariant client.running == CountOver(old(client.running), Said(heard))
      invariant !client.shutdown ==> client.Demands() == HeardAll(old(client.Demands()), Said(heard))
    {
      hide CurlMulti.Valid, HeardAll, Heard, CountOver, Unanswered, PolledIn;
      ghost var before, stalled, told := client.sockets, client.stalled, Said(heard);
      ghost var more := TakeEvent(client, events[i]);
      HeardBoth(old(client.Demands()), told, more);
      CountBoth(old(client.running), told, more);
      assert (heard + [more])[..i] == heard && events[..i + 1] == events[..i] + [events[i]];
      forall fd, d | fd in client.sockets && (client.sockets[fd].id, d) in client.stalled
        ensures (client.sockets[fd].id, d) in old(client.stalled)
                || Unanswered(events[..i + 1], heard + [more], Wait(fd, client.sockets[fd].id, d))
      {
        StillUnanswered(events, i, heard, more, Wait(fd, client.sockets[fd].id, d));
      }
      heard := heard + [more];
    }
    assert events[..|events|] == events;
  }

  lemma StillUnanswered(events: seq<Event>, i: nat, heard: seq<seq<Update>>, more: seq<Update>, w: Wait)
    requires i < |events| && |heard| == i && !PolledIn(more, w.fd)
    ensures Unanswered(events[..i], heard, w) || FailsFor(events[i], w) ==>
              Unanswered(events[..i + 1], heard + [more], w)
  {
    if Unanswered(events[..i], heard, w) {
      var j :| 0 <= j < i && FailsFor(events[..i][j], w) && Unasked(heard, j, w.fd);
      assert FailsFor(events[..i + 1][j], w) && Unasked(heard + [more], j, w.fd);
    }
    if FailsFor(events[i], w) { assert FailsFor(events[..i + 1][i], w) && Unasked(heard + [more], i, w.fd); }
  }

  lemma NothingHeard(d: Demand, n: int)
    ensures !Closes([]) && HeardAll(d, []) == d && CountOver(n, []) == n && LastTimeout([]) == None
  {}

  lemma OthersChangeNothing(d: Demand, u: Update)
    requires !u.OfSocket?
    ensures Heard(d, u) == d
  {}

  lemma Settled(sockets: map<Fd, Socket>, waits: multiset<Wait>, next: nat, wanted: map<Fd, set<Dir>>, refused: set<Fd>,
                posted: multiset<Fd>, stalled: set<(nat, Dir)>, shutdown: bool)
    requires Waiting(sockets, waits, next) && AllCovered(sockets, posted, stalled)
    requires !shutdown ==> Follows(sockets, wanted, refused)
    ensures forall fd, d :: fd in sockets ==>
              waits[Wait(fd, sockets[fd].id, d)] == if InFlight(sockets[fd], d) then 1 else 0
    ensures forall fd, d :: fd in sockets && d in sockets[fd].action ==>
              Wait(fd, sockets[fd].id, d) in waits || fd in posted || (sockets[fd].id, d) in stalled
    ensures !shutdown ==>
              sockets.Keys == wanted.Keys - refused && forall fd :: fd in sockets ==> sockets[fd].action == wanted[fd]
  {
    if !shutdown {
      assert forall fd :: fd in sockets.Keys <==> fd in wanted.Keys - refused;
    }
    forall fd, d | fd in sockets && d in sockets[fd].action
      ensures Wait(fd, sockets[fd].id, d) in waits || fd in posted || (sockets[fd].id, d) in stalled
    {
      assert Covered(fd, sockets[fd], d, posted, stalled);
    }
  }
}
