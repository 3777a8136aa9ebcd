/** Loading the stored torrents: keyset paging in two phases over a fixed table, with chunks that
    may throw at any row, and the job that retries until everything was passed once. */
module LoadTorrents {
  import opened Common

  const INT64_MIN := -0x8000_0000_0000_0000
  const INT64_MAX := 0x7fff_ffff_ffff_ffff

  /** A stored torrent; an unreadable one is passed over without being handed on. */
  datatype Row = Row(id: int, position: int, readable: bool)

  predicate AtMost(a: Row, b: Row) { a.position < b.position || (a.position == b.position && a.id <= b.id) }

  /** The schema: ids are unique and not negative, positions are 64-bit. */
  ghost predicate IsTable(rows: set<Row>) {
    && (forall a, b :: a in rows && b in rows && a.id == b.id ==> a == b)
    && (forall a :: a in rows ==> a.id >= 0 && INT64_MIN <= a.position <= INT64_MAX)
  }

  // ----- the order in which rows are loaded

  ghost predicate IsLeast(m: Row, rows: set<Row>) { m in rows && forall r :: r in rows ==> AtMost(m, r) }

  lemma {:induction false} LeastExists(rows: set<Row>)
    requires rows != {}
    ensures exists m :: IsLeast(m, rows)
    decreases |rows|
  {
    var some :| some in rows;
    var rest := rows - {some};
    if rest == {} {
      assert rows == {some};
      assert IsLeast(some, rows);
    } else {
      LeastExists(rest);
      var m :| IsLeast(m, rest);
      assert rows == rest + {some};
      assert IsLeast(if AtMost(m, some) then m else some, rows);
    }
  }

  ghost function Least(rows: set<Row>): (m: Row)
    requires rows != {}
    ensures IsLeast(m, rows)
  {
    LeastExists(rows);
    var m :| IsLeast(m, rows);
    m
  }

  /** Rows by (position, id). */
  ghost function Sorted(rows: set<Row>): seq<Row>
    decreases |rows|
  {
    if rows == {} then [] else [Least(rows)] + Sorted(rows - {Least(rows)})
  }

  ghost function Queued(rows: set<Row>): set<Row> { set r | r in rows && r.position >= 0 }

  ghost function Unqueued(rows: set<Row>): set<Row> { set r | r in rows && r.position < 0 }

  /** Queued rows in queue order, then the unqueued ones. */
  ghost function LoadOrder(rows: set<Row>): seq<Row> { Sorted(Queued(rows)) + Sorted(Unqueued(rows)) }

  lemma {:induction false} SortedIsOrdered(rows: set<Row>)
    requires IsTable(rows)
    ensures forall r :: r in Sorted(rows) <==> r in rows
    ensures forall i, j :: 0 <= i < j < |Sorted(rows)| ==>
              AtMost(Sorted(rows)[i], Sorted(rows)[j]) && Sorted(rows)[i] != Sorted(rows)[j]
    decreases |rows|
  {
    if rows != {} { SortedIsOrdered(rows - {Least(rows)}); }
  }

  /** The load order lists every row exactly once. */
  lemma LoadOrderListsAll(rows: set<Row>)
    requires IsTable(rows)
    ensures forall r :: r in LoadOrder(rows) <==> r in rows
    ensures forall i, j :: 0 <= i < j < |LoadOrder(rows)| ==> LoadOrder(rows)[i] != LoadOrder(rows)[j]
  {
    SortedIsOrdered(Queued(rows));
    SortedIsOrdered(Unqueued(rows));
    var q, u := Sorted(Queued(rows)), Sorted(Unqueued(rows));
    forall i, j | 0 <= i < j < |q + u| ensures (q + u)[i] != (q + u)[j] {
      if i < |q| <= j { assert q[i] in Queued(rows) && u[j - |q|] in Unqueued(rows); }
    }
  }

  // ----- one page

  class Cursor {
    var unqueued: bool
    var position: int
    var id: int

    constructor ()
      ensures !unqueued && position == 0 && id == -1
    { unqueued, position, id := false, 0, -1; }
  }

  /** The rows the WHERE clause leaves. */
  function Beyond(rows: set<Row>, unqueued: bool, position: int, id: int): set<Row> {
    set r | r in rows && r.position <= (if unqueued then -1 else INT64_MAX) && r.position >= position
            && (r.position > position || r.id > id)
  }

  /** What is still to come from a cursor. */
  ghost function Remaining(rows: set<Row>, unqueued: bool, position: int, id: int): seq<Row> {
    Sorted(Beyond(rows, unqueued, position, id)) + if unqueued then [] else Sorted(Unqueued(rows))
  }

  lemma StartsWithEverything(rows: set<Row>)
    requires IsTable(rows)
    ensures Remaining(rows, false, 0, -1) == LoadOrder(rows)
    ensures Remaining(rows, true, INT64_MIN, -1) == Sorted(Unqueued(rows))
  {
    assert Beyond(rows, false, 0, -1) == Queued(rows);
    assert Beyond(rows, true, INT64_MIN, -1) == Unqueued(rows);
  }

  /** Moving the cursor onto the first row of what is left leaves the rest. */
  lemma StepsOver(rows: set<Row>, unqueued: bool, position: int, id: int)
    requires IsTable(rows) && Beyond(rows, unqueued, position, id) != {}
    ensures IsTable(Beyond(rows, unqueued, position, id))
    ensures var r := Least(Beyond(rows, unqueued, position, id));
            && Beyond(rows, unqueued, position, id) - {r} == Beyond(rows, unqueued, r.position, r.id)
            && Remaining(rows, unqueued, position, id) == [r] + Remaining(rows, unqueued, r.position, r.id)
  {}

  /** Past the last row of the first phase, what is left is the second phase; past the last of that, nothing. */
  lemma PhaseEnds(rows: set<Row>, unqueued: bool, position: int, id: int)
    requires IsTable(rows) && Beyond(rows, unqueued, position, id) == {}
    ensures Remaining(rows, unqueued, position, id) == if unqueued then [] else Remaining(rows, true, INT64_MIN, -1)
  {
    StartsWithEverything(rows);
  }

  /** What happens to a row handed on: added to the session, refused by it, or an exception. */
  datatype Outcome = Added | Refused | Throws

  /** The session rows are handed on to and the database they come from, with the rows offered, those taken, and how
      often an exception came from either. */
  class Session {
    var offered: seq<Row>
    var taken: seq<Row>
    ghost var faults: nat

    constructor ()
      ensures offered == taken == [] && faults == 0
    {
      offered, taken, faults := [], [], 0;
    }

    /** Its answer for one row; anything may happen. */
    method HandOn(row: Row) returns (outcome: Outcome)
      modifies this
      ensures offered == old(offered) + [row] && taken == old(taken) + if outcome.Added? then [row] else []
      ensures faults == old(faults) + if outcome.Throws? then 1 else 0
    {
      outcome := *;
      offered := offered + [row];
      if outcome.Added? { taken := taken + [row]; }
      faults := faults + if outcome.Throws? then 1 else 0;
    }

    /** Whether the database fails at this point; anything may happen. */
    method DatabaseFails() returns (fails: bool)
      modifies this`faults
      ensures faults == old(faults) + if fails then 1 else 0
    {
      fails := *;
      faults := faults + if fails then 1 else 0;
    }
  }

  /** The rows that can be read, in order. */
  ghost function Readable(rows: seq<Row>): seq<Row> {
    if rows == [] then []
    else Readable(rows[..|rows| - 1]) + if rows[|rows| - 1].readable then [rows[|rows| - 1]] else []
  }

  lemma {:induction false} ReadableConcat(a: seq<Row>, b: seq<Row>)
    ensures Readable(a + b) == Readable(a) + Readable(b)
    decreases |b|
  {
    if b == [] {
      assert a + b == a;
    } else {
      ReadableConcat(a, b[..|b| - 1]);
      assert (a + b)[..|a + b| - 1] == a + b[..|b| - 1];
    }
  }

  /** The next row of the statement's result. */
  method Fetch(left: set<Row>) returns (r: Row)
    requires left != {} && IsTable(left)
    ensures r == Least(left)
  {
    assert IsLeast(Least(left), left);
    r :| r in left && forall x :: x in left ==> AtMost(r, x);
    assert AtMost(r, Least(left)) && AtMost(Least(left), r);
  }

  /** One chunk: up to `max` rows beyond the cursor, which moves with every row read, even when
      handing the row on throws. Every row passed that can be read was offered to the session, in order.
      False only once the second phase has no rows left. */
  method Next(rows: set<Row>, session: Session, cursor: Cursor, max: nat)
      returns (more: bool, threw: bool, loaded: nat, ghost passed: seq<Row>)
    requires IsTable(rows) && max > 0
    modifies cursor, session
    ensures Remaining(rows, old(cursor.unqueued), old(cursor.position), old(cursor.id))
         == passed + Remaining(rows, cursor.unqueued, cursor.position, cursor.id)
    ensures |passed| <= max && session.offered == old(session.offered) + Readable(passed)
    ensures |session.taken| == |old(session.taken)| + loaded && old(session.taken) <= session.taken
    ensures session.faults == old(session.faults) + if threw then 1 else 0
    ensures cursor.unqueued != old(cursor.unqueued) ==> cursor.unqueued && !threw
    ensures !threw && cursor.unqueued == old(cursor.unqueued) && |passed| < max ==>
              Beyond(rows, cursor.unqueued, cursor.position, cursor.id) == {}
    ensures !threw && more ==> passed != [] || (cursor.unqueued && !old(cursor.unqueued))
    ensures !threw && !more ==> Remaining(rows, cursor.unqueued, cursor.position, cursor.id) == []
  {
    hide Sorted, Remaining, Beyond;
    loaded, passed := 0, [];
    var count := 0;
    var left := Beyond(rows, cursor.unqueued, cursor.position, cursor.id);
    ghost var before := Remaining(rows, cursor.unqueued, cursor.position, cursor.id);
    while true
      invariant cursor.unqueued == old(cursor.unqueued)
      invariant left == Beyond(rows, cursor.unqueued, cursor.position, cursor.id)
      invariant before == passed + Remaining(rows, cursor.unqueued, cursor.position, cursor.id)
      invariant count == |passed| <= max && session.offered == old(session.offered) + Readable(passed)
      invariant |session.taken| == |old(session.taken)| + loaded && old(session.taken) <= session.taken
      invariant session.faults == old(session.faults)
      decreases max - count
    {
      var fails := session.DatabaseFails();
      if fails { return false, true, loaded, passed; }
      if count == max || left == {} { break; }
      StepsOver(rows, cursor.unqueued, cursor.position, cursor.id);
      var row := Fetch(left);
      ghost var tail := Remaining(rows, cursor.unqueued, row.position, row.id);
      count := count + 1;
      cursor.position := row.position;
      cursor.id := row.id;
      left := left - {row};
      assert passed + ([row] + tail) == (passed + [row]) + tail;
      ReadableConcat(passed, [row]);
      passed := passed + [row];
      if row.readable {
        var outcome := session.HandOn(row);
        if outcome.Throws? { return false, true, loaded, passed; }
        if outcome.Added? { loaded := loaded + 1; }
      }
    }
    if count > 0 { return true, false, loaded, passed; }
    PhaseEnds(rows, cursor.unqueued, cursor.position, cursor.id);
    if cursor.unqueued { return false, false, loaded, passed; }
    cursor.unqueued := true;
    cursor.position := INT64_MIN;
    cursor.id := -1;
    return true, false, loaded, passed;
  }

  // ----- the job

  const CHUNK_SIZE := 100
  const MAX_CHUNK_ERRORS := 8
  const RETRY_BASE_DELAY := 100
  const RETRY_MAX_DELAY := 5000

  function Pow2(n: nat): nat { if n == 0 then 1 else 2 * Pow2(n - 1) }

  /** The wait before retry number `errors`, in milliseconds. */
  function RetryDelay(errors: nat): nat
    requires errors >= 1
  {
    var delay := RETRY_BASE_DELAY * Pow2(errors - 1);
    if delay < RETRY_MAX_DELAY then delay else RETRY_MAX_DELAY
  }

  /** The delay doubles from the base until it stays at the maximum. */
  lemma RetryDelayGrows(errors: nat)
    requires errors >= 1
    ensures RETRY_BASE_DELAY <= RetryDelay(errors) <= RETRY_MAX_DELAY
    ensures RetryDelay(errors + 1) == if 2 * RetryDelay(errors) < RETRY_MAX_DELAY
              then 2 * RetryDelay(errors) else RETRY_MAX_DELAY
  {
    PowPositive(errors - 1);
  }

  lemma {:induction false} PowPositive(n: nat)
    ensures Pow2(n) >= 1
  {
    if n > 0 { PowPositive(n - 1); }
  }

  /** The load of one session's table. The callback is the one promised to whoever started it. */
  class Job {
    const rows: set<Row>
    const session: Session
    const cursor: Cursor
    var loaded: nat
    var chunks: nat
    var errors: nat
    var failed: bool
    var callback: bool        // still owed
    var calls: nat            // how often it was called
    var resumes: nat          // how often the scheduler was resumed
    ghost var finished: bool
    ghost var passed: seq<Row>
    ghost var promised: bool

    /** What was passed and what is still to come make up the load order, at every moment, and what was
        passed and can be read was offered to the session. */
    ghost predicate Valid()
      reads this, cursor, session
    {
      && IsTable(rows)
      && LoadOrder(rows) == passed + Remaining(rows, cursor.unqueued, cursor.position, cursor.id)
      && session.offered == Readable(passed) && loaded == |session.taken|
      && Owing()
      && resumes == (if finished then 1 else 0)
      && (finished ==> !callback)
      && (failed ==> finished && errors > MAX_CHUNK_ERRORS)
      && (!failed ==> errors <= MAX_CHUNK_ERRORS)
      && (finished && !failed ==> passed == LoadOrder(rows))
    }

    /** The callback is either still owed or was called once; there may be none. */
    ghost predicate Owing()
      reads this
    { calls == (if promised && !callback then 1 else 0) && (callback ==> promised) }

    constructor (rows: set<Row>, hasCallback: bool)
      requires IsTable(rows)
      ensures Valid() && fresh(cursor) && fresh(session) && this.rows == rows && promised == callback == hasCallback
                && !finished
      ensures passed == [] && !cursor.unqueued && cursor.position == 0 && cursor.id == -1
      ensures errors == chunks == loaded == 0
    {
      StartsWithEverything(rows);
      this.rows := rows;
      cursor := new Cursor();
      session := new Session();
      loaded, chunks, errors, failed, callback, calls, resumes := 0, 0, 0, false, hasCallback, 0, 0;
      finished, passed, promised := false, [], hasCallback;
    }

    /** How much work is left, for the order in which runs make progress. */
    ghost function Phase(): nat
      reads this, cursor
    { if cursor.unqueued then 0 else 1 }

    ghost function Left(): nat
      reads this, cursor
    { |Remaining(rows, cursor.unqueued, cursor.position, cursor.id)| }

    /** One run. Either it asks to run again, having passed a row, changed phase or used up one retry,
        or the load is over: everything passed, or nine chunks in a row failed. */
    method Run() returns (again: bool, delay: nat, ghost threw: bool)
      requires Valid() && !finished
      modifies this, cursor, session
      ensures Valid() && promised == old(promised) && old(passed) <= passed
      ensures session.faults == old(session.faults) + if threw then 1 else 0
      ensures threw ==> errors == old(errors) + 1 && (again <==> errors <= MAX_CHUNK_ERRORS) && failed == !again
      ensures threw && again ==> delay == RetryDelay(errors)
      ensures !threw ==> errors == 0 && !failed && (again ==> delay == 0)
      ensures chunks == old(chunks) + if again && !threw then 1 else 0
      ensures again <==> !finished
      ensures again ==> callback == old(callback)
      ensures again ==> Phase() < old(Phase())
                        || (Phase() == old(Phase()) && Left() < old(Left()))
                        || (Phase() == old(Phase()) && Left() == old(Left()) && errors > old(errors))
    {
      hide LoadOrder, Remaining, RetryDelay, Readable, IsTable;
      var more, throws, loadedNow;
      ghost var justPassed;
      more, throws, loadedNow, justPassed := Next(rows, session, cursor, CHUNK_SIZE);
      threw := throws;
      ReadableConcat(passed, justPassed);
      ghost var left := Remaining(rows, cursor.unqueued, cursor.position, cursor.id);
      assert passed + (justPassed + left) == (passed + justPassed) + left;
      passed, loaded := passed + justPassed, loaded + loadedNow;
      if throws {
        errors := errors + 1;
        if errors <= MAX_CHUNK_ERRORS { return true, RetryDelay(errors), threw; }
        failed := true;
        more := false;
      } else {
        errors := 0;
      }
      if more {
        chunks := chunks + 1;
        return true, 0, threw;
      }
      Finish();
      return false, 0, threw;
    }

    /** Resumes the scheduler, once, and leaves the promise kept, once, whether or not it was kept already. */
    method Finish()
      requires !finished && resumes == 0 && Owing()
      modifies this`finished, this`resumes, this`callback, this`calls
      ensures finished && resumes == 1 && Owing() && calls == if promised then 1 else 0
    {
      finished := true;
      resumes := resumes + 1;
      Complete();
    }

    /** Leaves the promise kept, once. */
    method Complete()
      requires Owing()
      modifies this`callback, this`calls
      ensures Owing() && !callback && calls == if promised then 1 else 0
    {
      var owed := callback;
      callback := false;
      if owed { calls := calls + 1; }
    }

    /** Called when the scheduler stops, before or after the load is over. */
    method Stopped()
      requires Valid()
      modifies this`callback, this`calls
      ensures Valid() && !callback && calls == if promised then 1 else 0
    {
      Complete();
    }
  }

  // ----- whole loads

  /** How many of the latest outcomes are failures, in a row. */
  ghost function Streak(threw: seq<bool>): (n: nat)
    ensures n <= |threw| && (forall j :: |threw| - n <= j < |threw| ==> threw[j])
    ensures n < |threw| ==> !threw[|threw| - n - 1]
  {
    if threw == [] || !threw[|threw| - 1] then 0 else Streak(threw[..|threw| - 1]) + 1
  }

  /** The first `k` outcomes end with more failures in a row than are borne. */
  ghost predicate TooMany(threw: seq<bool>, k: nat)
    requires k <= |threw|
  { k > MAX_CHUNK_ERRORS && forall j :: k - MAX_CHUNK_ERRORS - 1 <= j < k ==> threw[j] }

  lemma StreakIsTooMany(threw: seq<bool>)
    ensures Streak(threw) > MAX_CHUNK_ERRORS <==> TooMany(threw, |threw|)
  {}

  ghost function Failures(threw: seq<bool>): nat {
    if threw == [] then 0 else Failures(threw[..|threw| - 1]) + if threw[|threw| - 1] then 1 else 0
  }

  ghost function Fails(n: nat): seq<bool> { seq(n, _ => true) }

  /** The load is given up exactly at the first row of failures that is too long, which is the last there is. */
  ghost predicate GivenUp(threw: seq<bool>, failed: bool) {
    (failed <==> TooMany(threw, |threw|)) && forall k :: 0 <= k < |threw| ==> !TooMany(threw, k)
  }

  lemma GivenUpNext(threw: seq<bool>, last: bool, failed: bool)
    requires GivenUp(threw, false) && (failed <==> Streak(threw + [last]) > MAX_CHUNK_ERRORS)
    ensures GivenUp(threw + [last], failed)
  {
    StreakIsTooMany(threw + [last]);
    OneMoreOutcome(threw, last);
    assert forall k :: 0 <= k < |threw| ==> !TooMany(threw, k);
  }

  lemma NotGivenUpYet(n: nat)
    requires n <= MAX_CHUNK_ERRORS
    ensures GivenUp(Fails(n), false) && Streak(Fails(n)) == n
  {
    assert Streak(Fails(n)) == n;
  }

  /** One more outcome: it ends the row of failures or makes it longer. */
  lemma OneMoreOutcome(threw: seq<bool>, last: bool)
    ensures Streak(threw + [last]) == if last then Streak(threw) + 1 else 0
    ensures Failures(threw + [last]) == Failures(threw) + if last then 1 else 0
    ensures forall k :: 0 <= k <= |threw| ==> (TooMany(threw + [last], k) <==> TooMany(threw, k))
  {
    assert (threw + [last])[..|threw|] == threw;
  }

  /** Runs until the job stops asking or the scheduler stops, and is told of a stop in either case: whatever
      throws, the callback was called exactly once if there is one, and no row was passed twice. Unless it was
      stopped in between, the load ends with the scheduler resumed and every row passed, or given up exactly when
      nine chunks in a row failed, those that failed before counted in; and every row passed that can be read was
      offered to the session, in the load order. `threw` says of each chunk whether it failed. */
  method LoadAll(job: Job) returns (stopped: bool, ghost threw: seq<bool>)
    requires job.Valid() && !job.finished
    modifies job, job.cursor, job.session
    ensures job.Valid() && (stopped || job.finished) && job.resumes == if job.finished then 1 else 0
    ensures job.promised == old(job.promised) && job.calls == if job.promised then 1 else 0
    ensures job.passed <= LoadOrder(job.rows) && job.session.offered == Readable(job.passed)
    ensures !stopped && !job.failed ==> job.passed == LoadOrder(job.rows)
    ensures job.session.faults == old(job.session.faults) + Failures(threw)
    ensures var all := Fails(old(job.errors)) + threw;
            && (job.failed <==> TooMany(all, |all|))
            && forall k :: 0 <= k < |all| ==> !TooMany(all, k)
  {
    hide Job.Valid, Streak, TooMany, Failures, LoadOrder;
    ghost var before := job.errors;
    stopped, threw := RunUntilOver(job);
    assert GivenUp(Fails(before) + threw, job.failed);
    job.Stopped();
    EndsOfLoad(job);
  }

  /** What a valid job says of its rows. */
  lemma EndsOfLoad(job: Job)
    requires job.Valid()
    ensures job.passed <= LoadOrder(job.rows) && job.session.offered == Readable(job.passed)
    ensures job.resumes == if job.finished then 1 else 0
    ensures job.finished && !job.failed ==> job.passed == LoadOrder(job.rows)
  {}

  lemma FewErrors(job: Job)
    requires job.Valid() && !job.failed
    ensures job.errors <= MAX_CHUNK_ERRORS
  {}

  lemma UnfinishedHasNotFailed(job: Job)
    requires job.Valid() && !job.finished
    ensures !job.failed
  {}

  method RunUntilOver(job: Job) returns (stopped: bool, ghost threw: seq<bool>)
    requires job.Valid() && !job.finished
    modifies job, job.cursor, job.session
    ensures job.Valid() && (stopped || job.finished) && job.promised == old(job.promised)
    ensures job.session.faults == old(job.session.faults) + Failures(threw)
    ensures GivenUp(Fails(old(job.errors)) + threw, job.failed)
  {
    var again := true;
    stopped, threw := false, [];
    ghost var all := Fails(job.errors);
    UnfinishedHasNotFailed(job);
    FewErrors(job);
    NotGivenUpYet(job.errors);
    assert all + [] == all;
    while again && !stopped
      invariant job.Valid() && again == !job.finished && job.promised == old(job.promised)
      invariant all == Fails(old(job.errors)) + threw && Streak(all) == job.errors
      invariant job.session.faults == old(job.session.faults) + Failures(threw)
      invariant GivenUp(all, job.failed)
      decreases again, !stopped, job.Phase(), job.Left(), MAX_CHUNK_ERRORS + 1 - job.errors
    {
      hide Job.Valid, Streak, GivenUp, Failures, Fails;
      stopped := *;
      if !stopped {
        UnfinishedHasNotFailed(job);
        FewErrors(job);
        var delay;
        ghost var last;
        again, delay, last := job.Run();
        OneMoreOutcome(all, last);
        OneMoreOutcome(threw, last);
        GivenUpNext(all, last, job.failed);
        assert all + [last] == Fails(old(job.errors)) + (threw + [last]);
        all, threw := all + [last], threw + [last];
      }
    }
  }
}
