/** The query language: its trees with every written AND recorded, how they print, the parser as a
    function of the token list, and that the two are inverse to each other. */
module PqlGrammar {
  import opened Common

  datatype Token =
    | OR | AND | NOT | LPAREN | RPAREN
    | FIELD(text: string) | STRING(text: string) | WORD(text: string)
    | V_GTE | V_LTE | V_GT | V_LT | V_EQ
    | V_STRING(text: string) | V_WORD(text: string)
    | EOF

  datatype OrExpr = Or(first: AndExpr, rest: seq<AndExpr>)

  datatype AndExpr = And(first: Unary, rest: seq<Conjunct>)

  /** A later operand of a conjunction, and whether AND was written before it. */
  datatype Conjunct = Conjunct(written: bool, operand: Unary)

  datatype Unary = Not(operand: Unary) | Plain(primary: Primary)

  datatype Primary = Group(inner: OrExpr) | Qualifier(field: string, op: Option<Token>, value: Token)
      | Text(token: Token)

  predicate IsOp(t: Token) { t.V_GTE? || t.V_LTE? || t.V_GT? || t.V_LT? || t.V_EQ? }

  predicate IsValue(t: Token) { t.V_WORD? || t.V_STRING? }

  predicate IsText(t: Token) { t.WORD? || t.STRING? }

  predicate StartsUnary(t: Token) { t.NOT? || t.LPAREN? || t.FIELD? || t.STRING? || t.WORD? }

  predicate StartsConjunct(t: Token) { t.AND? || StartsUnary(t) }

  // ----- trees whose leaves are of the right kinds

  ghost predicate ProperOr(e: OrExpr) { ProperAnd(e.first) && forall i :: 0 <= i < |e.rest| ==> ProperAnd(e.rest[i]) }

  ghost predicate ProperAnd(a: AndExpr) {
    ProperUnary(a.first) && forall i :: 0 <= i < |a.rest| ==> ProperConjunct(a.rest[i])
  }

  ghost predicate ProperConjunct(c: Conjunct) { ProperUnary(c.operand) }

  ghost predicate ProperUnary(u: Unary) {
    match u
    case Not(v) => ProperUnary(v)
    case Plain(p) => ProperPrimary(p)
  }

  ghost predicate ProperPrimary(p: Primary) {
    match p
    case Group(e) => ProperOr(e)
    case Qualifier(_, op, value) => (op.Some? ==> IsOp(op.value)) && IsValue(value)
    case Text(t) => IsText(t)
  }

  // ----- printing

  function PrintOr(e: OrExpr): seq<Token> { PrintAnd(e.first) + PrintAlternatives(e.rest) }

  function PrintAlternatives(rest: seq<AndExpr>): seq<Token> {
    if rest == [] then [] else [OR] + (PrintAnd(rest[0]) + PrintAlternatives(rest[1..]))
  }

  function PrintAnd(a: AndExpr): seq<Token> { PrintUnary(a.first) + PrintConjuncts(a.rest) }

  function PrintConjuncts(rest: seq<Conjunct>): seq<Token> {
    if rest == [] then [] else PrintConjunct(rest[0]) + PrintConjuncts(rest[1..])
  }

  function PrintConjunct(c: Conjunct): seq<Token> { (if c.written then [AND] else []) + PrintUnary(c.operand) }

  function PrintUnary(u: Unary): seq<Token> {
    match u
    case Not(v) => [NOT] + PrintUnary(v)
    case Plain(p) => PrintPrimary(p)
  }

  function PrintPrimary(p: Primary): seq<Token> {
    match p
    case Group(e) => [LPAREN] + (PrintOr(e) + [RPAREN])
    case Qualifier(f, op, value) => [FIELD(f)] + ((if op.Some? then [op.value] else []) + [value])
    case Text(t) => [t]
  }

  // ----- the parser: one function a rule, from a position to a tree and the next position

  /** The first syntax error aborts the parse. */
  type Parsed<T> = Option<(T, nat)>

  function LA(ts: seq<Token>, p: nat): Token { if p < |ts| then ts[p] else EOF }

  function ParseOr(ts: seq<Token>, p: nat): (r: Parsed<OrExpr>)
    ensures r.Some? ==> p < r.value.1 <= |ts|
    decreases |ts| - p, 6
  {
    match ParseAnd(ts, p)
    case None => None
    case Some((first, q)) =>
      match ParseAlternatives(ts, q)
      case None => None
      case Some((rest, q')) => Some((Or(first, rest), q'))
  }

  function ParseAlternatives(ts: seq<Token>, p: nat): (r: Parsed<seq<AndExpr>>)
    requires p <= |ts|
    ensures r.Some? ==> p <= r.value.1 <= |ts|
    decreases |ts| - p, 7
  {
    if LA(ts, p) != OR then Some(([], p))
    else match ParseAnd(ts, p + 1)
      case None => None
      case Some((a, q)) =>
        match ParseAlternatives(ts, q)
        case None => None
        case Some((rest, q')) => Some(([a] + rest, q'))
  }

  function ParseAnd(ts: seq<Token>, p: nat): (r: Parsed<AndExpr>)
    ensures r.Some? ==> p < r.value.1 <= |ts|
    decreases |ts| - p, 5
  {
    match ParseUnary(ts, p)
    case None => None
    case Some((first, q)) =>
      match ParseConjuncts(ts, q)
      case None => None
      case Some((rest, q')) => Some((And(first, rest), q'))
  }

  function ParseConjuncts(ts: seq<Token>, p: nat): (r: Parsed<seq<Conjunct>>)
    requires p <= |ts|
    ensures r.Some? ==> p <= r.value.1 <= |ts|
    decreases |ts| - p, 4
  {
    if !StartsConjunct(LA(ts, p)) then Some(([], p))
    else match ParseConjunct(ts, p)
      case None => None
      case Some((c, q)) =>
        match ParseConjuncts(ts, q)
        case None => None
        case Some((rest, q')) => Some(([c] + rest, q'))
  }

  function ParseConjunct(ts: seq<Token>, p: nat): (r: Parsed<Conjunct>)
    ensures r.Some? ==> p < r.value.1 <= |ts|
    decreases |ts| - p, 2
  {
    var written := LA(ts, p) == AND;
    match ParseUnary(ts, if written then p + 1 else p)
    case None => None
    case Some((u, q)) => Some((Conjunct(written, u), q))
  }

  function ParseUnary(ts: seq<Token>, p: nat): (r: Parsed<Unary>)
    ensures r.Some? ==> p < r.value.1 <= |ts|
    decreases |ts| - p, 1
  {
    match LA(ts, p)
    case NOT =>
      (match ParseUnary(ts, p + 1)
       case None => None
       case Some((u, q)) => Some((Not(u), q)))
    case _ =>
      match ParsePrimary(ts, p)
      case None => None
      case Some((x, q)) => Some((Plain(x), q))
  }

  function ParsePrimary(ts: seq<Token>, p: nat): (r: Parsed<Primary>)
    ensures r.Some? ==> p < r.value.1 <= |ts|
    decreases |ts| - p, 0
  {
    match LA(ts, p)
    case LPAREN =>
      (match ParseOr(ts, p + 1)
       case None => None
       case Some((e, q)) => if LA(ts, q) == RPAREN then Some((Group(e), q + 1)) else None)
    case FIELD(f) =>
      var hasOp := IsOp(LA(ts, p + 1));
      var q := if hasOp then p + 2 else p + 1;
      if IsValue(LA(ts, q))
          then Some((Qualifier(f, if hasOp then Some(LA(ts, p + 1)) else None, LA(ts, q)), q + 1)) else None
    case WORD(_) => Some((Text(LA(ts, p)), p + 1))
    case STRING(_) => Some((Text(LA(ts, p)), p + 1))
    case _ => None
  }

  /** A whole query: nothing at all, or one expression up to the end. */
  datatype Query = Everything | Matching(e: OrExpr)

  function ParseQuery(ts: seq<Token>): Option<Query> {
    if StartsUnary(LA(ts, 0)) then
      match ParseOr(ts, 0)
      case None => None
      case Some((e, q)) => if q == |ts| then Some(Matching(e)) else None
    else if |ts| == 0 then Some(Everything) else None
  }

  /** What a single qualifier is read as: with any of the five operators, or none, and a word or a quoted text; and
      what free text is. Nothing else may stand between the field and its value. */
  lemma QualifiersAreRead(field: string, op: Token, value: Token)
    ensures var read := Qualifier(field, Some(op), value);
            ParsePrimary([FIELD(field), op, value], 0) ==
              if op in {V_GTE, V_LTE, V_GT, V_LT, V_EQ} && (value.V_WORD? || value.V_STRING?) then Some((read, 3))
              else if op.V_WORD? || op.V_STRING? then Some((Qualifier(field, None, op), 2)) else None
    ensures ParsePrimary([value], 0) ==
              if value.WORD? || value.STRING? then Some((Text(value), 1)) else None
  {}

  ghost predicate ProperQuery(q: Query) { q.Matching? ==> ProperOr(q.e) }

  function PrintQuery(q: Query): seq<Token> {
    match q
    case Everything => []
    case Matching(e) => PrintOr(e)
  }

  // ----- parts of a token list

  lemma StandsJoin(ts: seq<Token>, p: nat, a: seq<Token>, b: seq<Token>)
    requires StandsAt(ts, p, a) && StandsAt(ts, p + |a|, b)
    ensures StandsAt(ts, p, a + b)
  {}

  lemma StandsOne(ts: seq<Token>, p: nat, t: Token)
    ensures StandsAt(ts, p, [t]) <==> p < |ts| && ts[p] == t
  {
    if StandsAt(ts, p, [t]) { assert ts[p + 0] == [t][0]; }
  }

  // ----- what parses prints back

  lemma {:induction false} OrPrintsBack(ts: seq<Token>, p: nat)
    requires ParseOr(ts, p).Some?
    ensures var (e, q) := ParseOr(ts, p).value; ProperOr(e) && q == p + |PrintOr(e)| && StandsAt(ts, p, PrintOr(e))
    decreases |ts| - p, 6
  {
    var (first, q) := ParseAnd(ts, p).value;
    var (rest, _) := ParseAlternatives(ts, q).value;
    AndPrintsBack(ts, p);
    AlternativesPrintBack(ts, q);
    StandsJoin(ts, p, PrintAnd(first), PrintAlternatives(rest));
  }

  lemma {:induction false} AlternativesPrintBack(ts: seq<Token>, p: nat)
    requires p <= |ts| && ParseAlternatives(ts, p).Some?
    ensures var (rest, q) := ParseAlternatives(ts, p).value;
            && q == p + |PrintAlternatives(rest)| && StandsAt(ts, p, PrintAlternatives(rest))
            && forall i :: 0 <= i < |rest| ==> ProperAnd(rest[i])
    decreases |ts| - p, 7
  {
    if LA(ts, p) == OR {
      var (a, q) := ParseAnd(ts, p + 1).value;
      var (rest, _) := ParseAlternatives(ts, q).value;
      AndPrintsBack(ts, p + 1);
      AlternativesPrintBack(ts, q);
      assert ([a] + rest)[0] == a && ([a] + rest)[1..] == rest;
      StandsOne(ts, p, OR);
      StandsJoin(ts, p + 1, PrintAnd(a), PrintAlternatives(rest));
      StandsJoin(ts, p, [OR], PrintAnd(a) + PrintAlternatives(rest));
    }
  }

  lemma {:induction false} AndPrintsBack(ts: seq<Token>, p: nat)
    requires ParseAnd(ts, p).Some?
    ensures var (a, q) := ParseAnd(ts, p).value; ProperAnd(a) && q == p + |PrintAnd(a)| && StandsAt(ts, p, PrintAnd(a))
    decreases |ts| - p, 5
  {
    var (first, q) := ParseUnary(ts, p).value;
    var (rest, _) := ParseConjuncts(ts, q).value;
    UnaryPrintsBack(ts, p);
    ConjunctsPrintBack(ts, q);
    StandsJoin(ts, p, PrintUnary(first), PrintConjuncts(rest));
  }

  lemma {:induction false} ConjunctsPrintBack(ts: seq<Token>, p: nat)
    requires p <= |ts| && ParseConjuncts(ts, p).Some?
    ensures var (rest, q) := ParseConjuncts(ts, p).value;
            && q == p + |PrintConjuncts(rest)| && StandsAt(ts, p, PrintConjuncts(rest))
            && forall i :: 0 <= i < |rest| ==> ProperConjunct(rest[i])
    decreases |ts| - p, 4
  {
    if StartsConjunct(LA(ts, p)) {
      var (c, q) := ParseConjunct(ts, p).value;
      var (rest, _) := ParseConjuncts(ts, q).value;
      ConjunctPrintsBack(ts, p);
      ConjunctsPrintBack(ts, q);
      assert ([c] + rest)[0] == c && ([c] + rest)[1..] == rest;
      StandsJoin(ts, p, PrintConjunct(c), PrintConjuncts(rest));
    }
  }

  lemma {:induction false} ConjunctPrintsBack(ts: seq<Token>, p: nat)
    requires ParseConjunct(ts, p).Some?
    ensures var (c, q) := ParseConjunct(ts, p).value;
            ProperConjunct(c) && q == p + |PrintConjunct(c)| && StandsAt(ts, p, PrintConjunct(c))
    decreases |ts| - p, 2
  {
    var (c, _) := ParseConjunct(ts, p).value;
    var lead := if c.written then [AND] else [];
    UnaryPrintsBack(ts, p + |lead|);
    if c.written { StandsOne(ts, p, AND); }
    StandsJoin(ts, p, lead, PrintUnary(c.operand));
  }

  lemma {:induction false} UnaryPrintsBack(ts: seq<Token>, p: nat)
    requires ParseUnary(ts, p).Some?
    ensures var (u, q) := ParseUnary(ts, p).value;
            ProperUnary(u) && q == p + |PrintUnary(u)| && StandsAt(ts, p, PrintUnary(u))
    decreases |ts| - p, 1
  {
    if LA(ts, p) == NOT {
      UnaryPrintsBack(ts, p + 1);
      StandsOne(ts, p, NOT);
      StandsJoin(ts, p, [NOT], PrintUnary(ParseUnary(ts, p + 1).value.0));
    } else {
      PrimaryPrintsBack(ts, p);
    }
  }

  lemma {:induction false} PrimaryPrintsBack(ts: seq<Token>, p: nat)
    requires ParsePrimary(ts, p).Some?
    ensures var (x, q) := ParsePrimary(ts, p).value;
            ProperPrimary(x) && q == p + |PrintPrimary(x)| && StandsAt(ts, p, PrintPrimary(x))
    decreases |ts| - p, 0
  {
    match LA(ts, p) {
      case LPAREN =>
        var (e, q) := ParseOr(ts, p + 1).value;
        OrPrintsBack(ts, p + 1);
        StandsOne(ts, p, LPAREN);
        StandsOne(ts, q, RPAREN);
        StandsJoin(ts, p + 1, PrintOr(e), [RPAREN]);
        StandsJoin(ts, p, [LPAREN], PrintOr(e) + [RPAREN]);
      case FIELD(f) =>
      case _ =>
    }
  }

  // ----- what is printed parses back

  lemma {:induction false} OrParsesBack(e: OrExpr, ts: seq<Token>, p: nat)
    requires ProperOr(e) && StandsAt(ts, p, PrintOr(e))
    requires !StartsConjunct(LA(ts, p + |PrintOr(e)|)) && LA(ts, p + |PrintOr(e)|) != OR
    ensures ParseOr(ts, p) == Some((e, p + |PrintOr(e)|))
    decreases e, 0
  {
    StandsSplit(ts, p, PrintAnd(e.first), PrintAlternatives(e.rest));
    var q := p + |PrintAnd(e.first)|;
    if e.rest != [] { assert ts[q + 0] == PrintAlternatives(e.rest)[0]; }
    AndParsesBack(e.first, ts, p);
    AlternativesParseBack(e.rest, ts, q);
  }

  lemma {:induction false} AlternativesParseBack(rest: seq<AndExpr>, ts: seq<Token>, p: nat)
    requires p <= |ts| && StandsAt(ts, p, PrintAlternatives(rest))
    requires forall i :: 0 <= i < |rest| ==> ProperAnd(rest[i])
    requires !StartsConjunct(LA(ts, p + |PrintAlternatives(rest)|)) && LA(ts, p + |PrintAlternatives(rest)|) != OR
    ensures ParseAlternatives(ts, p) == Some((rest, p + |PrintAlternatives(rest)|))
    decreases rest, 0
  {
    if rest != [] {
      var tail := PrintAnd(rest[0]) + PrintAlternatives(rest[1..]);
      StandsSplit(ts, p, [OR], tail);
      StandsOne(ts, p, OR);
      StandsSplit(ts, p + 1, PrintAnd(rest[0]), PrintAlternatives(rest[1..]));
      var q := p + 1 + |PrintAnd(rest[0])|;
      if rest[1..] != [] { assert ts[q + 0] == PrintAlternatives(rest[1..])[0]; }
      AndParsesBack(rest[0], ts, p + 1);
      AlternativesParseBack(rest[1..], ts, q);
      assert [rest[0]] + rest[1..] == rest;
    }
  }

  lemma {:induction false} AndParsesBack(a: AndExpr, ts: seq<Token>, p: nat)
    requires ProperAnd(a) && StandsAt(ts, p, PrintAnd(a))
    requires !StartsConjunct(LA(ts, p + |PrintAnd(a)|))
    ensures ParseAnd(ts, p) == Some((a, p + |PrintAnd(a)|))
    decreases a, 0
  {
    StandsSplit(ts, p, PrintUnary(a.first), PrintConjuncts(a.rest));
    UnaryParsesBack(a.first, ts, p);
    ConjunctsParseBack(a.rest, ts, p + |PrintUnary(a.first)|);
  }

  lemma {:induction false} ConjunctsParseBack(rest: seq<Conjunct>, ts: seq<Token>, p: nat)
    requires p <= |ts| && StandsAt(ts, p, PrintConjuncts(rest))
    requires forall i :: 0 <= i < |rest| ==> ProperConjunct(rest[i])
    requires !StartsConjunct(LA(ts, p + |PrintConjuncts(rest)|))
    ensures ParseConjuncts(ts, p) == Some((rest, p + |PrintConjuncts(rest)|))
    decreases rest, 0
  {
    if rest != [] {
      StandsSplit(ts, p, PrintConjunct(rest[0]), PrintConjuncts(rest[1..]));
      ConjunctParsesBack(rest[0], ts, p);
      ConjunctsParseBack(rest[1..], ts, p + |PrintConjunct(rest[0])|);
      assert [rest[0]] + rest[1..] == rest;
    }
  }

  lemma {:induction false} ConjunctParsesBack(c: Conjunct, ts: seq<Token>, p: nat)
    requires ProperConjunct(c) && StandsAt(ts, p, PrintConjunct(c))
    ensures StartsConjunct(LA(ts, p)) && ParseConjunct(ts, p) == Some((c, p + |PrintConjunct(c)|))
    decreases c, 0
  {
    var lead := if c.written then [AND] else [];
    StandsSplit(ts, p, lead, PrintUnary(c.operand));
    if c.written { StandsOne(ts, p, AND); }
    UnaryStarts(c.operand);
    assert ts[p + |lead| + 0] == PrintUnary(c.operand)[0];
    UnaryParsesBack(c.operand, ts, p + |lead|);
  }

  /** A printed operand begins with a token that can start one, so it is never taken for AND. */
  lemma UnaryStarts(u: Unary)
    requires ProperUnary(u)
    ensures PrintUnary(u) != [] && StartsUnary(PrintUnary(u)[0])
  {}

  lemma {:induction false} UnaryParsesBack(u: Unary, ts: seq<Token>, p: nat)
    requires ProperUnary(u) && StandsAt(ts, p, PrintUnary(u))
    ensures ParseUnary(ts, p) == Some((u, p + |PrintUnary(u)|))
    decreases u, 0
  {
    match u {
      case Not(v) =>
        StandsSplit(ts, p, [NOT], PrintUnary(v));
        StandsOne(ts, p, NOT);
        UnaryParsesBack(v, ts, p + 1);
      case Plain(x) =>
        UnaryStarts(u);
        assert PrintUnary(u) == PrintPrimary(x);
        assert ts[p + 0] == PrintPrimary(x)[0];
        PrimaryParsesBack(x, ts, p);
    }
  }

  lemma {:induction false} PrimaryParsesBack(x: Primary, ts: seq<Token>, p: nat)
    requires ProperPrimary(x) && StandsAt(ts, p, PrintPrimary(x))
    ensures ParsePrimary(ts, p) == Some((x, p + |PrintPrimary(x)|))
    decreases x, 0
  {
    UnaryStarts(Plain(x));
    assert PrintUnary(Plain(x)) == PrintPrimary(x);
    assert ts[p + 0] == PrintPrimary(x)[0];
    match x {
      case Group(e) =>
        StandsSplit(ts, p, [LPAREN], PrintOr(e) + [RPAREN]);
        StandsSplit(ts, p + 1, PrintOr(e), [RPAREN]);
        StandsOne(ts, p + 1 + |PrintOr(e)|, RPAREN);
        OrParsesBack(e, ts, p + 1);
      case Qualifier(f, op, value) =>
        assert ts[p + 1] == PrintPrimary(x)[1];
        if op.Some? { assert ts[p + 2] == PrintPrimary(x)[2]; }
      case Text(t) =>
    }
  }

  // ----- the whole query

  /** Printing and parsing are inverse: a token list is accepted with a tree exactly when it is that
      tree printed. So no list has two trees, and no two trees print alike. */
  lemma ParseIffPrint(ts: seq<Token>, q: Query)
    ensures ParseQuery(ts) == Some(q) <==> ProperQuery(q) && PrintQuery(q) == ts
  {
    if ParseQuery(ts) == Some(q) && q.Matching? {
      OrPrintsBack(ts, 0);
      assert forall i {:trigger ts[i]} :: 0 <= i < |ts| ==> ts[0 + i] == PrintOr(q.e)[i];
    }
    if ProperQuery(q) && PrintQuery(q) == ts && q.Matching? {
      assert ProperAnd(q.e.first) && ProperUnary(q.e.first.first);
      UnaryStarts(q.e.first.first);
      assert PrintAnd(q.e.first)[0] == PrintUnary(q.e.first.first)[0] == ts[0];
      assert StandsAt(ts, 0, PrintOr(q.e));
      OrParsesBack(q.e, ts, 0);
    }
  }

  // ----- AND may be left out anywhere

  function PlainOr(e: OrExpr): OrExpr { Or(PlainAnd(e.first), PlainAnds(e.rest)) }

  function PlainAnds(rest: seq<AndExpr>): seq<AndExpr> {
    if rest == [] then [] else [PlainAnd(rest[0])] + PlainAnds(rest[1..])
  }

  function PlainAnd(a: AndExpr): AndExpr { And(PlainUnary(a.first), PlainConjuncts(a.rest)) }

  function PlainConjuncts(rest: seq<Conjunct>): seq<Conjunct> {
    if rest == [] then []
    else [PlainConjunct(rest[0])] + PlainConjuncts(rest[1..])
  }

  function PlainConjunct(c: Conjunct): Conjunct { Conjunct(false, PlainUnary(c.operand)) }

  function PlainUnary(u: Unary): Unary {
    match u
    case Not(v) => Not(PlainUnary(v))
    case Plain(p) => Plain(match p case Group(e) => Group(PlainOr(e)) case _ => p)
  }

  /** The tree with no AND recorded: what the compiler sees. */
  function PlainQuery(q: Query): Query {
    match q
    case Everything => Everything
    case Matching(e) => Matching(PlainOr(e))
  }

  /** However many of its ANDs are written out, a tree parses back to itself. */
  lemma AndIsOptional(tree: Query, written: Query)
    requires ProperQuery(written) && PlainQuery(written) == PlainQuery(tree)
    ensures ParseQuery(PrintQuery(written)).Some?
    ensures PlainQuery(ParseQuery(PrintQuery(written)).value) == PlainQuery(tree)
  {
    ParseIffPrint(PrintQuery(written), written);
  }
}
