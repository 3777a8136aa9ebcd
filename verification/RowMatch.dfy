/** Which stored row an info hash selects: the WHERE clause under SQL's three-valued logic,
    against containment of the stored halves. */
module RowMatch {
  import opened Common

  datatype Truth = True | False | Unknown

  function And(a: Truth, b: Truth): Truth {
    if a == False || b == False then False else if a == True && b == True then True else Unknown
  }

  function Or(a: Truth, b: Truth): Truth {
    if a == True || b == True then True else if a == False && b == False then False else Unknown
  }

  /** `=` on columns that may be NULL. */
  function Equals(a: Option<nat>, b: Option<nat>): Truth {
    if a.None? || b.None? then Unknown else if a == b then True else False
  }

  function IsNull(a: Option<nat>): Truth { if a.None? then True else False }

  /** NULL is unknown: a conjunction is false as soon as one side is, a disjunction true, and a comparison with it is
      neither. */
  lemma ThreeValued(a: Truth, b: Truth, x: Option<nat>, y: Option<nat>)
    ensures And(a, b) == True <==> a == True && b == True
    ensures And(a, b) == False <==> a == False || b == False
    ensures Or(a, b) == True <==> a == True || b == True
    ensures Or(a, b) == False <==> a == False && b == False
    ensures Equals(x, y) == Unknown <==> x == None || y == None
    ensures Equals(x, y) == True <==> x == y && x != None
  {}

  /** The halves of an info hash; None is the half that is absent, or a NULL column. */
  datatype Halves = Halves(v1: Option<nat>, v2: Option<nat>)

  /** The clause as written, for one row of the session. */
  function Clause(row: Halves, hash: Halves): Truth {
    Or(And(Equals(row.v1, hash.v1), Or(IsNull(row.v2), Equals(row.v2, hash.v2))),
       And(Equals(row.v2, hash.v2), Or(IsNull(row.v1), Equals(row.v1, hash.v1))))
  }

  ghost predicate StoredIn(stored: Option<nat>, half: Option<nat>) { stored.None? || stored == half }

  /** A row is selected exactly when every half it stores is a half of the hash, and it stores one. */
  lemma SelectsContainedHalves(row: Halves, hash: Halves)
    ensures Clause(row, hash) == True <==>
              StoredIn(row.v1, hash.v1) && StoredIn(row.v2, hash.v2) && (row.v1.Some? || row.v2.Some?)
  {}

  // ----- a session's rows

  function Selected(rows: set<Halves>, hash: Halves): set<Halves> { set r | r in rows && Clause(r, hash) == True }

  predicate SharesHalf(a: Halves, b: Halves) { (a.v1.Some? && a.v1 == b.v1) || (a.v2.Some? && a.v2 == b.v2) }

  /** The schema's constraints: a row stores a half, and no two rows store the same one. */
  ghost predicate IsTable(rows: set<Halves>) {
    && (forall r :: r in rows ==> r.v1.Some? || r.v2.Some?)
    && (forall a, b :: a in rows && b in rows && SharesHalf(a, b) ==> a == b)
  }

  /** A hash selects one row at most, unless both its halves are stored as separate magnets. */
  lemma SelectsOneOrBothMagnets(rows: set<Halves>, hash: Halves)
    requires IsTable(rows)
    ensures |Selected(rows, hash)| <= 1 || Selected(rows, hash) == {Halves(hash.v1, None), Halves(None, hash.v2)}
  {
    var sel := Selected(rows, hash);
    if sel != {} {
      var a :| a in sel;
      if forall b :: b in sel ==> b == a {
        assert sel == {a};
      } else {
        var b :| b in sel && b != a;
        assert !SharesHalf(a, b);
        assert forall c :: c in sel ==> SharesHalf(c, a) || SharesHalf(c, b);
        assert sel == {a, b};
      }
    }
  }

  function Delete(rows: set<Halves>, hash: Halves): set<Halves> { rows - Selected(rows, hash) }

  /** INSERT ... ON CONFLICT DO NOTHING. */
  function Insert(rows: set<Halves>, hash: Halves): set<Halves> {
    if exists r :: r in rows && SharesHalf(r, hash) then rows else rows + {hash}
  }

  /** Storing a torrent after deleting what its hash selects keeps the constraints, and loses the new
      row exactly when some row sharing a half stores another half too. */
  lemma ReplacingStores(rows: set<Halves>, hash: Halves)
    requires IsTable(rows) && (hash.v1.Some? || hash.v2.Some?)
    ensures IsTable(Insert(Delete(rows, hash), hash))
    ensures hash in Insert(Delete(rows, hash), hash)
            <==> forall r :: r in rows && SharesHalf(r, hash) ==> StoredIn(r.v1, hash.v1) && StoredIn(r.v2, hash.v2)
  {}
}
