/** The one-row edit distance behind the "did you mean" suggestions: its recursive form,
    edit scripts as an independent meaning, the metric laws, and the in-place loop. */
module EditDistance {

  function Min(a: nat, b: nat): nat { if a < b then a else b }

  function Max(a: nat, b: nat): nat { if a < b then b else a }

  function Init(s: string): string
    requires s != []
  { s[..|s| - 1] }

  function Last(s: string): char
    requires s != []
  { s[|s| - 1] }

  function Mismatch(a: char, b: char): nat { if a == b then 0 else 1 }

  /** The textbook recursion over the last characters. */
  function Distance(a: string, b: string): nat
    decreases |a| + |b|
  {
    if a == [] then |b|
    else if b == [] then |a|
    else Min(Min(Distance(Init(a), b) + 1, Distance(a, Init(b)) + 1),
        Distance(Init(a), Init(b)) + Mismatch(Last(a), Last(b)))
  }

  // ----- edit scripts

  datatype Edit = Keep | Substitute(c: char) | Insert(c: char) | Delete

  /** Whether a script, read from the last edit backwards, rewrites `a` into `b`. */
  ghost predicate Rewrites(script: seq<Edit>, a: string, b: string)
    decreases |script|
  {
    if script == [] then a == [] && b == []
    else
      var rest := script[..|script| - 1];
      match script[|script| - 1]
      case Keep => a != [] && b != [] && Last(a) == Last(b) && Rewrites(rest, Init(a), Init(b))
      case Substitute(c) => a != [] && b != [] && Last(b) == c && Rewrites(rest, Init(a), Init(b))
      case Insert(c) => b != [] && Last(b) == c && Rewrites(rest, a, Init(b))
      case Delete => a != [] && Rewrites(rest, Init(a), b)
  }

  function Cost(script: seq<Edit>): nat {
    if script == [] then 0
    else Cost(script[..|script| - 1]) + if script[|script| - 1].Keep? then 0 else 1
  }

  /** No script is cheaper than the distance. */
  lemma {:induction false} ScriptCostsAtLeast(script: seq<Edit>, a: string, b: string)
    requires Rewrites(script, a, b)
    ensures Distance(a, b) <= Cost(script)
    decreases |script|
  {
    if script != [] {
      var rest := script[..|script| - 1];
      match script[|script| - 1] {
        case Keep => ScriptCostsAtLeast(rest, Init(a), Init(b));
        case Substitute(_) => ScriptCostsAtLeast(rest, Init(a), Init(b));
        case Insert(_) => ScriptCostsAtLeast(rest, a, Init(b)); DropLast(b, a); Symmetric(a, b); Symmetric(a, Init(b));
        case Delete => ScriptCostsAtLeast(rest, Init(a), b); DropLast(a, b);
      }
    }
  }

  /** Some script costs exactly the distance. */
  lemma {:induction false} CheapestScript(a: string, b: string) returns (script: seq<Edit>)
    ensures Rewrites(script, a, b) && Cost(script) == Distance(a, b)
    decreases |a| + |b|
  {
    if a == [] && b == [] {
      script := [];
    } else {
      var rest: seq<Edit>;
      var edit: Edit;
      if b == [] || (a != [] && Distance(a, b) == Distance(Init(a), b) + 1) {
        rest := CheapestScript(Init(a), b);
        edit := Delete;
      } else if a == [] || Distance(a, b) == Distance(a, Init(b)) + 1 {
        rest := CheapestScript(a, Init(b));
        edit := Insert(Last(b));
      } else {
        rest := CheapestScript(Init(a), Init(b));
        edit := if Last(a) == Last(b) then Keep else Substitute(Last(b));
      }
      script := rest + [edit];
      assert script[..|script| - 1] == rest;
    }
  }

  /** The distance is the least cost of any script from `a` to `b`. */
  lemma DistanceIsLeastCost(a: string, b: string)
    ensures exists s :: Rewrites(s, a, b) && Cost(s) == Distance(a, b)
    ensures forall s :: Rewrites(s, a, b) ==> Distance(a, b) <= Cost(s)
  {
    var s := CheapestScript(a, b);
    forall s | Rewrites(s, a, b) ensures Distance(a, b) <= Cost(s) {
      ScriptCostsAtLeast(s, a, b);
    }
  }

  // ----- metric laws

  lemma {:induction false} Symmetric(a: string, b: string)
    ensures Distance(a, b) == Distance(b, a)
    decreases |a| + |b|
  {
    if a != [] && b != [] {
      Symmetric(Init(a), b);
      Symmetric(a, Init(b));
      Symmetric(Init(a), Init(b));
    }
  }

  lemma {:induction false} ZeroIffEqual(a: string, b: string)
    ensures Distance(a, b) == 0 <==> a == b
    decreases |a| + |b|
  {
    if a != [] && b != [] {
      ZeroIffEqual(Init(a), Init(b));
      assert a == Init(a) + [Last(a)] && b == Init(b) + [Last(b)];
    }
  }

  /** The distance lies between the difference of the lengths and the greater length. */
  lemma {:induction false} Bounds(a: string, b: string)
    ensures |a| - |b| <= Distance(a, b) && |b| - |a| <= Distance(a, b) <= Max(|a|, |b|)
    decreases |a| + |b|
  {
    if a != [] && b != [] {
      Bounds(Init(a), b);
      Bounds(a, Init(b));
      Bounds(Init(a), Init(b));
    }
  }

  /** Dropping a character costs at most one edit. */
  lemma {:induction false} DropLast(a: string, b: string)
    requires a != []
    ensures Distance(a, b) <= Distance(Init(a), b) + 1
  {}

  lemma {:induction false} Triangle(a: string, b: string, c: string)
    ensures Distance(a, c) <= Distance(a, b) + Distance(b, c)
    decreases |a| + |b| + |c|
  {
    if a == [] {
      Bounds(b, c);
    } else if c == [] {
      Bounds(a, b);
    } else if b == [] {
      Bounds(a, c);
    } else if Distance(a, b) == Distance(Init(a), b) + 1 {
      Triangle(Init(a), b, c);
    } else if Distance(b, c) == Distance(b, Init(c)) + 1 {
      Triangle(a, b, Init(c));
    } else if Distance(a, b) == Distance(a, Init(b)) + 1 {
      if Distance(b, c) == Distance(Init(b), c) + 1 {
        Triangle(a, Init(b), c);
      } else {
        Triangle(a, Init(b), Init(c));
      }
    } else if Distance(b, c) == Distance(Init(b), c) + 1 {
      Triangle(Init(a), Init(b), c);
    } else {
      Triangle(Init(a), Init(b), Init(c));
    }
  }

  // ----- the loop

  /** The table entry for the first i characters of `a` and the first j of `b`. */
  function Cell(a: string, b: string, i: nat, j: nat): nat
    requires i <= |a| && j <= |b|
  { Distance(a[..i], b[..j]) }

  lemma CellEdge(a: string, b: string, k: nat)
    ensures k <= |a| ==> Cell(a, b, k, 0) == k
    ensures k <= |b| ==> Cell(a, b, 0, k) == k
  {}

  lemma CellCorner(a: string, b: string)
    ensures Cell(a, b, |a|, |b|) == Distance(a, b)
  {
    assert a[..|a|] == a && b[..|b|] == b;
  }

  lemma CellStep(a: string, b: string, i: nat, j: nat)
    requires 1 <= i <= |a| && 1 <= j <= |b|
    ensures Cell(a, b, i, j) == Min(Min(Cell(a, b, i - 1, j) + 1, Cell(a, b, i, j - 1) + 1),
                                    Cell(a, b, i - 1, j - 1) + Mismatch(a[i - 1], b[j - 1]))
  {
    assert Init(a[..i]) == a[..i - 1] && Init(b[..j]) == b[..j - 1];
  }

  /** One row of the table, overwritten in place for each character of `a`; `diag` and `up`
      keep the two cells of the previous row that the overwriting would lose. */
  method Levenshtein(a: string, b: string) returns (distance: nat)
    ensures distance == Distance(a, b)
  {
    hide Cell;
    var row := new nat[|b| + 1];
    for j := 0 to |b| + 1
      invariant forall k :: 0 <= k < j ==> row[k] == Cell(a, b, 0, k)
    {
      row[j] := j;
      CellEdge(a, b, j);
    }
    for i := 1 to |a| + 1
      invariant forall k :: 0 <= k <= |b| ==> row[k] == Cell(a, b, i - 1, k)
    {
      var diag := row[0];
      row[0] := i;
      CellEdge(a, b, i);
      for j := 1 to |b| + 1
        invariant forall k :: 0 <= k < j ==> row[k] == Cell(a, b, i, k)
        invariant forall k :: j <= k <= |b| ==> row[k] == Cell(a, b, i - 1, k)
        invariant diag == Cell(a, b, i - 1, j - 1)
      {
        var up := row[j];
        CellStep(a, b, i, j);
        row[j] := Min(Min(row[j] + 1, row[j - 1] + 1), diag + Mismatch(a[i - 1], b[j - 1]));
        diag := up;
      }
    }
    CellCorner(a, b);
    return row[|b|];
  }

  /** names[i] is within two edits of `name`, no name is nearer and no earlier one as near. */
  ghost predicate Nearest(name: string, names: seq<string>, i: nat) {
    && i < |names|
    && Distance(name, names[i]) < 3
    && (forall k :: 0 <= k < i ==> Distance(name, names[k]) > Distance(name, names[i]))
    && (forall k :: i <= k < |names| ==> Distance(name, names[k]) >= Distance(name, names[i]))
  }

  /** The suggestion for an unknown name; empty when no registered name is near enough. */
  method Suggest(name: string, names: seq<string>) returns (best: string)
    requires [] !in names
    ensures best == [] <==> forall k :: 0 <= k < |names| ==> Distance(name, names[k]) >= 3
    ensures best != [] ==> exists i: nat :: Nearest(name, names, i) && best == names[i]
  {
    best := [];
    var bestDistance := 3;
    ghost var at := 0;
    for i := 0 to |names|
      invariant bestDistance <= 3 && (best == [] <==> bestDistance == 3)
      invariant forall k :: 0 <= k < i ==> Distance(name, names[k]) >= bestDistance
      invariant best != [] ==> at < i && best == names[at] && Distance(name, names[at]) == bestDistance
      invariant best != [] ==> forall k :: 0 <= k < at ==> Distance(name, names[k]) > bestDistance
    {
      var d := Levenshtein(name, names[i]);
      if d < bestDistance {
        best := names[i];
        bestDistance := d;
        at := i;
      }
    }
    assert best != [] ==> Nearest(name, names, at);
  }
}
