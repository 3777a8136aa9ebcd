/** The depth check over the token list and the recursive-descent parser with its shared cursor.
    The parser's rules carry, as preconditions met at every call, how deep the recursion is. */
module PqlParser {
  import opened Common
  import opened PqlGrammar

  const MAX_QUERY_DEPTH := 64

  // ----- the depth check

  /** Open parentheses minus closed ones in the first p tokens. */
  function DepthAt(ts: seq<Token>, p: nat): int
    requires p <= |ts|
  {
    if p == 0 then 0
    else DepthAt(ts, p - 1) + if ts[p - 1] == LPAREN then 1 else if ts[p - 1] == RPAREN then -1 else 0
  }

  /** How many NOTs in a row end the first p tokens. */
  function NotRunAt(ts: seq<Token>, p: nat): nat
    requires p <= |ts|
  {
    if p == 0 || ts[p - 1] != NOT then 0 else NotRunAt(ts, p - 1) + 1
  }

  ghost predicate ShallowAt(ts: seq<Token>, p: nat)
    requires p <= |ts|
  { DepthAt(ts, p) <= MAX_QUERY_DEPTH && NotRunAt(ts, p) <= MAX_QUERY_DEPTH }

  /** Nowhere in the list are more than 64 parentheses open or more than 64 NOTs in a row. */
  ghost predicate Shallow(ts: seq<Token>) { forall p :: 0 <= p <= |ts| ==> ShallowAt(ts, p) }

  method CheckDepth(ts: seq<Token>) returns (ok: bool)
    ensures ok <==> Shallow(ts)
  {
    var depth, notRun := 0, 0;
    for i := 0 to |ts|
      invariant depth == DepthAt(ts, i) && notRun == NotRunAt(ts, i)
      invariant forall p :: 0 <= p <= i ==> ShallowAt(ts, p)
    {
      match ts[i] {
        case LPAREN => depth, notRun := depth + 1, 0;
        case RPAREN => depth, notRun := depth - 1, 0;
        case NOT => notRun := notRun + 1;
        case _ => notRun := 0;
      }
      assert depth == DepthAt(ts, i + 1) && notRun == NotRunAt(ts, i + 1);
      if depth > MAX_QUERY_DEPTH || notRun > MAX_QUERY_DEPTH {
        assert !ShallowAt(ts, i + 1);
        return false;
      }
    }
    return true;
  }

  // ----- the parser

  /** How deep the rules are nested at some moment of a parse: open groups, NOTs directly above the
      current operand, and NOTs above the enclosing groups. */
  ghost predicate Nested(ts: seq<Token>, p: nat, groups: nat, nots: nat, outerNots: nat) {
    && p <= |ts| && Shallow(ts)
    && DepthAt(ts, p) == groups && NotRunAt(ts, p) == nots
    && groups <= MAX_QUERY_DEPTH && nots <= MAX_QUERY_DEPTH
    && outerNots <= MAX_QUERY_DEPTH * groups
  }

  lemma NestedSteps(ts: seq<Token>, p: nat, groups: nat, nots: nat, outerNots: nat)
    requires Nested(ts, p, groups, nots, outerNots) && p < |ts|
    ensures ts[p] == NOT ==> Nested(ts, p + 1, groups, nots + 1, outerNots)
    ensures ts[p] == LPAREN ==> Nested(ts, p + 1, groups + 1, 0, outerNots + nots)
    ensures ts[p] == RPAREN ==> DepthAt(ts, p + 1) == groups - 1 && NotRunAt(ts, p + 1) == 0
    ensures ts[p] != NOT && ts[p] != LPAREN && ts[p] != RPAREN ==> Nested(ts, p + 1, groups, 0, outerNots)
  {
    assert ShallowAt(ts, p + 1);
  }

  class Parser {
    const tokens: seq<Token>
    var pos: nat

    constructor (tokens: seq<Token>)
      ensures this.tokens == tokens && pos == 0
    { this.tokens, pos := tokens, 0; }

    method Match(t: Token) returns (ok: bool)
      modifies this
      ensures ok <==> LA(tokens, old(pos)) == t
      ensures pos == if ok && t != EOF then old(pos) + 1 else old(pos)
    {
      ok := LA(tokens, pos) == t;
      if ok && t != EOF { pos := pos + 1; }
    }

    method Query() returns (r: Option<PqlGrammar.Query>)
      requires pos == 0 && Shallow(tokens)
      requires forall t :: t in tokens ==> t != EOF
      modifies this
      ensures r == ParseQuery(tokens)
    {
      var result := Everything;
      if StartsUnary(LA(tokens, pos)) {
        assert ShallowAt(tokens, 0);
        var e := OrRule(0, 0);
        if e.None? { return None; }
        result := Matching(e.value);
      }
      assert pos < |tokens| ==> tokens[pos] in tokens;
      var end := Match(EOF);
      return if end then Some(result) else None;
    }

    method OrRule(ghost groups: nat, ghost outerNots: nat) returns (r: Option<OrExpr>)
      requires Nested(tokens, pos, groups, 0, outerNots)
      modifies this
      ensures r.Some? <==> ParseOr(tokens, old(pos)).Some?
      ensures r.Some? ==> ParseOr(tokens, old(pos)) == Some((r.value, pos)) && Nested(tokens, pos, groups, 0, outerNots)
      decreases |tokens| - pos, 5
    {
      var first := AndRule(groups, outerNots);
      if first.None? { return None; }
      ghost var start := pos;
      var rest: seq<AndExpr> := [];
      hide ParseAlternatives, ParseAnd, DepthAt, NotRunAt, Shallow;
      PrependNone(ParseAlternatives(tokens, pos));
      while LA(tokens, pos) == OR
        invariant start <= pos && old(pos) < pos && Nested(tokens, pos, groups, 0, outerNots)
        invariant ParseAlternatives(tokens, start) == Prepend(rest, ParseAlternatives(tokens, pos))
        decreases |tokens| - pos
      {
        NestedSteps(tokens, pos, groups, 0, outerNots);
        AlternativesStep(tokens, pos, rest);
        pos := pos + 1;
        var a := AndRule(groups, outerNots);
        if a.None? { return None; }
        rest := rest + [a.value];
      }
      AlternativesStep(tokens, pos, rest);
      return Some(Or(first.value, rest));
    }

    method AndRule(ghost groups: nat, ghost outerNots: nat) returns (r: Option<AndExpr>)
      requires Nested(tokens, pos, groups, 0, outerNots)
      modifies this
      ensures r.Some? <==> ParseAnd(tokens, old(pos)).Some?
      ensures r.Some? ==>
                ParseAnd(tokens, old(pos)) == Some((r.value, pos)) && Nested(tokens, pos, groups, 0, outerNots)
      decreases |tokens| - pos, 4
    {
      hide ParseConjuncts, ParseConjunct, ParseUnary, DepthAt, NotRunAt, Shallow;
      var first := UnaryRule(groups, 0, outerNots);
      if first.None? { return None; }
      ghost var start := pos;
      var rest: seq<Conjunct> := [];
      PrependNone(ParseConjuncts(tokens, pos));
      while StartsConjunct(LA(tokens, pos))
        invariant start <= pos && old(pos) < pos && Nested(tokens, pos, groups, 0, outerNots)
        invariant ParseConjuncts(tokens, start) == Prepend(rest, ParseConjuncts(tokens, pos))
        decreases |tokens| - pos
      {
        ConjunctsStep(tokens, pos, rest);
        var c := ConjunctStep(groups, outerNots);
        if c.None? { return None; }
        rest := rest + [c.value];
      }
      ConjunctsStep(tokens, pos, rest);
      return Some(And(first.value, rest));
    }

    /** One turn of that loop: an AND if it is written, and an operand. */
    method ConjunctStep(ghost groups: nat, ghost outerNots: nat) returns (r: Option<Conjunct>)
      requires Nested(tokens, pos, groups, 0, outerNots)
      modifies this
      ensures r.Some? <==> ParseConjunct(tokens, old(pos)).Some?
      ensures r.Some? ==>
                ParseConjunct(tokens, old(pos)) == Some((r.value, pos)) && Nested(tokens, pos, groups, 0, outerNots)
      decreases |tokens| - pos, 3
    {
      var written := LA(tokens, pos) == AND;
      if written {
        NestedSteps(tokens, pos, groups, 0, outerNots);
        pos := pos + 1;
      }
      var u := UnaryRule(groups, 0, outerNots);
      return if u.Some? then Some(Conjunct(written, u.value)) else None;
    }

    /** `groups` groups are open and `nots + outerNots` operand rules sit above for their NOTs. */
    method UnaryRule(ghost groups: nat, ghost nots: nat, ghost outerNots: nat) returns (r: Option<Unary>)
      requires Nested(tokens, pos, groups, nots, outerNots)
      modifies this
      ensures r.Some? <==> ParseUnary(tokens, old(pos)).Some?
      ensures r.Some? ==>
                ParseUnary(tokens, old(pos)) == Some((r.value, pos)) && Nested(tokens, pos, groups, 0, outerNots)
      decreases |tokens| - pos, 2
    {
      if LA(tokens, pos) == NOT {
        NestedSteps(tokens, pos, groups, nots, outerNots);
        pos := pos + 1;
        var u := UnaryRule(groups, nots + 1, outerNots);
        return if u.Some? then Some(Not(u.value)) else None;
      }
      var x := PrimaryRule(groups, nots, outerNots);
      return if x.Some? then Some(Plain(x.value)) else None;
    }

    method PrimaryRule(ghost groups: nat, ghost nots: nat, ghost outerNots: nat) returns (r: Option<Primary>)
      requires Nested(tokens, pos, groups, nots, outerNots)
      modifies this
      ensures r.Some? <==> ParsePrimary(tokens, old(pos)).Some?
      ensures r.Some? ==>
                ParsePrimary(tokens, old(pos)) == Some((r.value, pos)) && Nested(tokens, pos, groups, 0, outerNots)
      decreases |tokens| - pos, 1
    {
      hide DepthAt, NotRunAt, Shallow, ParseOr;
      if pos < |tokens| { NestedSteps(tokens, pos, groups, nots, outerNots); }
      match LA(tokens, pos) {
        case LPAREN =>
          pos := pos + 1;
          var e := OrRule(groups + 1, outerNots + nots);
          if e.None? { return None; }
          if pos < |tokens| { NestedSteps(tokens, pos, groups + 1, 0, outerNots + nots); }
          var closed := Match(RPAREN);
          return if closed then Some(Group(e.value)) else None;
        case FIELD(f) =>
          pos := pos + 1;
          var op := None;
          if IsOp(LA(tokens, pos)) {
            NestedSteps(tokens, pos, groups, 0, outerNots);
            op := Some(LA(tokens, pos));
            pos := pos + 1;
          }
          var value := LA(tokens, pos);
          if !IsValue(value) { return None; }
          NestedSteps(tokens, pos, groups, 0, outerNots);
          pos := pos + 1;
          return Some(Qualifier(f, op, value));
        case WORD(_) =>
          r := Some(Text(LA(tokens, pos)));
          pos := pos + 1;
        case STRING(_) =>
          r := Some(Text(LA(tokens, pos)));
          pos := pos + 1;
        case _ =>
          return None;
      }
    }
  }

  function Prepend<T>(front: seq<T>, r: Parsed<seq<T>>): Parsed<seq<T>> {
    match r
    case None => None
    case Some((rest, p)) => Some((front + rest, p))
  }

  lemma PrependNone<T>(r: Parsed<seq<T>>)
    ensures Prepend([], r) == r
  {
    if r.Some? { assert [] + r.value.0 == r.value.0; }
  }

  lemma PrependOne<T>(front: seq<T>, x: T, r: Parsed<seq<T>>)
    ensures Prepend(front, Prepend([x], r)) == Prepend(front + [x], r)
  {
    if r.Some? { assert front + ([x] + r.value.0) == (front + [x]) + r.value.0; }
  }

  /** What one turn of the loop over alternatives adds to the list parsed so far. */
  lemma AlternativesStep(ts: seq<Token>, p: nat, front: seq<AndExpr>)
    requires p <= |ts|
    ensures LA(ts, p) != OR ==> Prepend(front, ParseAlternatives(ts, p)) == Some((front, p))
    ensures LA(ts, p) == OR ==>
              var r := ParseAnd(ts, p + 1);
              Prepend(front, ParseAlternatives(ts, p))
              == if r.None? then None else Prepend(front + [r.value.0], ParseAlternatives(ts, r.value.1))
  {
    assert front + [] == front;
    if LA(ts, p) == OR && ParseAnd(ts, p + 1).Some? {
      var (a, q) := ParseAnd(ts, p + 1).value;
      PrependOne(front, a, ParseAlternatives(ts, q));
    }
  }

  /** The same for the loop over conjuncts. */
  lemma ConjunctsStep(ts: seq<Token>, p: nat, front: seq<Conjunct>)
    requires p <= |ts|
    ensures !StartsConjunct(LA(ts, p)) ==> Prepend(front, ParseConjuncts(ts, p)) == Some((front, p))
    ensures StartsConjunct(LA(ts, p)) ==>
              var r := ParseConjunct(ts, p);
              Prepend(front, ParseConjuncts(ts, p))
              == if r.None? then None else Prepend(front + [r.value.0], ParseConjuncts(ts, r.value.1))
  {
    assert front + [] == front;
    if StartsConjunct(LA(ts, p)) && ParseConjunct(ts, p).Some? {
      var (c, q) := ParseConjunct(ts, p).value;
      PrependOne(front, c, ParseConjuncts(ts, q));
    }
  }

  // ----- what the check means for trees

  /** At most g groups nested and at most 64 NOTs directly above an operand. */
  ghost predicate ShallowOr(e: OrExpr, g: int) { ShallowAnd(e.first, g) && ShallowAlternatives(e.rest, g) }

  ghost predicate ShallowAlternatives(rest: seq<AndExpr>, g: int) {
    rest == [] || (ShallowAnd(rest[0], g) && ShallowAlternatives(rest[1..], g))
  }

  ghost predicate ShallowAnd(a: AndExpr, g: int) {
    ShallowUnary(a.first, g, MAX_QUERY_DEPTH) && ShallowConjuncts(a.rest, g)
  }

  ghost predicate ShallowConjuncts(rest: seq<Conjunct>, g: int) {
    rest == [] || (ShallowConjunct(rest[0], g) && ShallowConjuncts(rest[1..], g))
  }

  ghost predicate ShallowConjunct(c: Conjunct, g: int) { ShallowUnary(c.operand, g, MAX_QUERY_DEPTH) }

  ghost predicate ShallowUnary(u: Unary, g: int, n: int) {
    match u
    case Not(v) => n > 0 && ShallowUnary(v, g, n - 1)
    case Plain(p) => ShallowPrimary(p, g)
  }

  ghost predicate ShallowPrimary(p: Primary, g: int) { p.Group? ==> g > 0 && ShallowOr(p.inner, g - 1) }

  /** Shallow at every place after p up to q. */
  ghost predicate ShallowOver(ts: seq<Token>, p: nat, q: nat)
    requires p <= q <= |ts|
  { forall x :: p < x <= q ==> ShallowAt(ts, x) }

  /** The part from p to q leaves the depth as it was, ends in no NOT, and, where parentheses are not
      already too many, is shallow exactly when its tree is. */
  ghost predicate Measures(ts: seq<Token>, p: nat, q: nat, treeShallow: bool) {
    && p <= q <= |ts| && DepthAt(ts, q) == DepthAt(ts, p) && (p < q || NotRunAt(ts, p) == 0 ==> NotRunAt(ts, q) == 0)
    && (DepthAt(ts, p) <= MAX_QUERY_DEPTH ==> (ShallowOver(ts, p, q) <==> treeShallow))
  }

  lemma MeasuresJoin(ts: seq<Token>, p: nat, q: nat, r: nat, a: bool, b: bool)
    requires Measures(ts, p, q, a) && Measures(ts, q, r, b)
    ensures Measures(ts, p, r, a && b)
  {}

  lemma PlainToken(ts: seq<Token>, p: nat)
    requires p < |ts| && ts[p] != LPAREN && ts[p] != RPAREN && ts[p] != NOT
    ensures Measures(ts, p, p + 1, true)
  {}

  ghost function Room(ts: seq<Token>, p: nat): int
    requires p <= |ts|
  { MAX_QUERY_DEPTH - DepthAt(ts, p) }

  lemma {:induction false} OrMeasures(e: OrExpr, ts: seq<Token>, p: nat)
    requires ProperOr(e) && StandsAt(ts, p, PrintOr(e)) && NotRunAt(ts, p) == 0
    ensures Measures(ts, p, p + |PrintOr(e)|, ShallowOr(e, Room(ts, p)))
    decreases e, 0
  {
    StandsSplit(ts, p, PrintAnd(e.first), PrintAlternatives(e.rest));
    var q, g := p + |PrintAnd(e.first)|, Room(ts, p);
    AndMeasures(e.first, ts, p);
    AlternativesMeasure(e.rest, ts, q);
    MeasuresJoin(ts, p, q, q + |PrintAlternatives(e.rest)|, ShallowAnd(e.first, g), ShallowAlternatives(e.rest, g));
  }

  lemma {:induction false} AlternativesMeasure(rest: seq<AndExpr>, ts: seq<Token>, p: nat)
    requires forall i :: 0 <= i < |rest| ==> ProperAnd(rest[i])
    requires StandsAt(ts, p, PrintAlternatives(rest)) && NotRunAt(ts, p) == 0
    ensures Measures(ts, p, p + |PrintAlternatives(rest)|, ShallowAlternatives(rest, Room(ts, p)))
    decreases rest, 0
  {
    if rest != [] {
      StandsSplit(ts, p, [OR], PrintAnd(rest[0]) + PrintAlternatives(rest[1..]));
      StandsOne(ts, p, OR);
      StandsSplit(ts, p + 1, PrintAnd(rest[0]), PrintAlternatives(rest[1..]));
      var q, g := p + 1 + |PrintAnd(rest[0])|, Room(ts, p);
      PlainToken(ts, p);
      AndMeasures(rest[0], ts, p + 1);
      MeasuresJoin(ts, p, p + 1, q, true, ShallowAnd(rest[0], g));
      AlternativesMeasure(rest[1..], ts, q);
      MeasuresJoin(ts, p, q, q + |PrintAlternatives(rest[1..])|, ShallowAnd(rest[0], g),
          ShallowAlternatives(rest[1..], g));
    }
  }

  lemma {:induction false} AndMeasures(a: AndExpr, ts: seq<Token>, p: nat)
    requires ProperAnd(a) && StandsAt(ts, p, PrintAnd(a)) && NotRunAt(ts, p) == 0
    ensures |PrintAnd(a)| > 0 && Measures(ts, p, p + |PrintAnd(a)|, ShallowAnd(a, Room(ts, p)))
    decreases a, 0
  {
    StandsSplit(ts, p, PrintUnary(a.first), PrintConjuncts(a.rest));
    var q, g := p + |PrintUnary(a.first)|, Room(ts, p);
    UnaryMeasures(a.first, ts, p);
    ConjunctsMeasure(a.rest, ts, q);
    MeasuresJoin(ts, p, q, q + |PrintConjuncts(a.rest)|, ShallowUnary(a.first, g, MAX_QUERY_DEPTH),
        ShallowConjuncts(a.rest, g));
  }

  lemma {:induction false} ConjunctsMeasure(rest: seq<Conjunct>, ts: seq<Token>, p: nat)
    requires forall i :: 0 <= i < |rest| ==> ProperConjunct(rest[i])
    requires StandsAt(ts, p, PrintConjuncts(rest)) && NotRunAt(ts, p) == 0
    ensures Measures(ts, p, p + |PrintConjuncts(rest)|, ShallowConjuncts(rest, Room(ts, p)))
    decreases rest, 0
  {
    if rest != [] {
      StandsSplit(ts, p, PrintConjunct(rest[0]), PrintConjuncts(rest[1..]));
      var q, g := p + |PrintConjunct(rest[0])|, Room(ts, p);
      ConjunctMeasures(rest[0], ts, p);
      ConjunctsMeasure(rest[1..], ts, q);
      MeasuresJoin(ts, p, q, q + |PrintConjuncts(rest[1..])|, ShallowConjunct(rest[0], g),
          ShallowConjuncts(rest[1..], g));
    }
  }

  lemma {:induction false} ConjunctMeasures(c: Conjunct, ts: seq<Token>, p: nat)
    requires ProperConjunct(c) && StandsAt(ts, p, PrintConjunct(c)) && NotRunAt(ts, p) == 0
    ensures |PrintConjunct(c)| > 0 && Measures(ts, p, p + |PrintConjunct(c)|, ShallowConjunct(c, Room(ts, p)))
    decreases c, 0
  {
    var lead := if c.written then [AND] else [];
    StandsSplit(ts, p, lead, PrintUnary(c.operand));
    var q := p + |lead|;
    if c.written {
      StandsOne(ts, p, AND);
      PlainToken(ts, p);
    }
    UnaryMeasures(c.operand, ts, q);
    if c.written { MeasuresJoin(ts, p, q, q + |PrintUnary(c.operand)|, true, ShallowConjunct(c, Room(ts, p))); }
  }

  /** Under a run of NOTs the allowance shrinks by as many. */
  lemma {:induction false} UnaryMeasures(u: Unary, ts: seq<Token>, p: nat)
    requires ProperUnary(u) && StandsAt(ts, p, PrintUnary(u))
    ensures |PrintUnary(u)| > 0
    ensures Measures(ts, p, p + |PrintUnary(u)|, ShallowUnary(u, Room(ts, p), MAX_QUERY_DEPTH - NotRunAt(ts, p)))
    decreases u, 0
  {
    match u {
      case Not(v) =>
        StandsSplit(ts, p, [NOT], PrintUnary(v));
        StandsOne(ts, p, NOT);
        UnaryMeasures(v, ts, p + 1);
        NotMeasures(ts, p, p + 1 + |PrintUnary(v)|,
            ShallowUnary(v, Room(ts, p), MAX_QUERY_DEPTH - NotRunAt(ts, p) - 1));
      case Plain(x) =>
        PrimaryMeasures(x, ts, p);
    }
  }

  lemma NotMeasures(ts: seq<Token>, p: nat, q: nat, b: bool)
    requires p + 1 < q && p < |ts| && ts[p] == NOT && Measures(ts, p + 1, q, b)
    ensures Measures(ts, p, q, MAX_QUERY_DEPTH - NotRunAt(ts, p) > 0 && b)
  {
    assert ShallowOver(ts, p, q) <==> ShallowAt(ts, p + 1) && ShallowOver(ts, p + 1, q);
  }

  lemma {:induction false} PrimaryMeasures(x: Primary, ts: seq<Token>, p: nat)
    requires ProperPrimary(x) && StandsAt(ts, p, PrintPrimary(x))
    ensures |PrintPrimary(x)| > 0 && Measures(ts, p, p + |PrintPrimary(x)|, ShallowPrimary(x, Room(ts, p)))
    decreases x, 0
  {
    hide DepthAt, NotRunAt, Measures, PrintOr, StandsAt, ShallowOr;
    match x {
      case Group(e) =>
        StandsSplit(ts, p, [LPAREN], PrintOr(e) + [RPAREN]);
        StandsOne(ts, p, LPAREN);
        StandsSplit(ts, p + 1, PrintOr(e), [RPAREN]);
        StandsOne(ts, p + 1 + |PrintOr(e)|, RPAREN);
        OpensGroup(ts, p);
        OrMeasures(e, ts, p + 1);
        GroupMeasures(ts, p, p + 1 + |PrintOr(e)|, ShallowOr(e, Room(ts, p) - 1));
      case Qualifier(f, op, value) =>
        var ops := if op.Some? then [op.value] else [];
        StandsSplit(ts, p, [FIELD(f)], ops + [value]);
        StandsOne(ts, p, FIELD(f));
        StandsSplit(ts, p + 1, ops, [value]);
        StandsOne(ts, p + 1 + |ops|, value);
        PlainToken(ts, p);
        PlainToken(ts, p + 1 + |ops|);
        if op.Some? {
          StandsOne(ts, p + 1, op.value);
          PlainToken(ts, p + 1);
          MeasuresJoin(ts, p, p + 1, p + 2, true, true);
        }
        MeasuresJoin(ts, p, p + 1 + |ops|, p + 2 + |ops|, true, true);
      case Text(t) =>
        StandsOne(ts, p, t);
        PlainToken(ts, p);
    }
  }

  lemma OpensGroup(ts: seq<Token>, p: nat)
    requires p < |ts| && ts[p] == LPAREN
    ensures NotRunAt(ts, p + 1) == 0 && Room(ts, p + 1) == Room(ts, p) - 1
  {}

  lemma GroupMeasures(ts: seq<Token>, p: nat, q: nat, b: bool)
    requires p + 1 <= q < |ts| && ts[p] == LPAREN && ts[q] == RPAREN && Measures(ts, p + 1, q, b)
    ensures Measures(ts, p, q + 1, Room(ts, p) > 0 && b)
  {
    assert DepthAt(ts, q + 1) == DepthAt(ts, p) && NotRunAt(ts, p + 1) == NotRunAt(ts, q + 1) == 0;
    assert ShallowOver(ts, p, q + 1) <==> ShallowAt(ts, p + 1) && ShallowOver(ts, p + 1, q) && ShallowAt(ts, q + 1);
  }

  /** For an accepted query the check passes exactly when its tree nests at most 64 groups and puts at
      most 64 NOTs on an operand, which bounds every recursion over the tree. */
  lemma CheckBoundsTree(ts: seq<Token>, q: Query)
    requires ParseQuery(ts) == Some(q)
    ensures Shallow(ts) <==> q.Matching? ==> ShallowOr(q.e, MAX_QUERY_DEPTH)
  {
    ParseIffPrint(ts, q);
    assert ShallowAt(ts, 0);
    if q.Matching? {
      OrMeasures(q.e, ts, 0);
      assert ShallowOver(ts, 0, |ts|) <==> Shallow(ts);
    } else {
      assert Shallow(ts);
    }
  }
}
