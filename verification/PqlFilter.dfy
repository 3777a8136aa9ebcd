/** Compiling a query tree into a filter, and that the filter means what the tree says. */
module PqlFilter {
  import opened Common
  import opened Glob
  import opened PqlGrammar
  import opened PqlValues
  import opened PqlLeaves

  /** What a filter looks at: the torrent's status, its client data and the time of evaluation. */
  datatype Context = Context(
    now: int, name: string, v1: Option<seq<Byte>>, v2: Option<seq<Byte>>,
    flags: Bits, state: nat, tags: Option<seq<string>>)

  type Filter = Context -> bool

  datatype Field = Field(
    name: string, kind: Kind,
    text: Context -> Option<string>, number: Context -> Option<real>, boolean: Context -> Option<bool>)

  /** The registries and the platform a query is compiled against. */
  datatype Env = Env(fields: map<string, Field>, flags: map<string, Bits>, states: map<string, nat>, clock: Clock,
      time: int)

  function OperOf(op: Option<Token>): Oper {
    match op
    case None => Bare
    case Some(V_GTE) => Gte
    case Some(V_LTE) => Lte
    case Some(V_GT) => Gt
    case Some(V_LT) => Lt
    case Some(_) => Eq
  }

  function ValueOf(t: Token): Value
    requires IsValue(t) || IsText(t)
  {
    if t.V_STRING? || t.STRING? then Value(Unescaped(t.text, 1), true) else Value(t.text, false)
  }

  // ----- what a query means

  ghost predicate HashMeans(p: string, ctx: Context) {
    (ctx.v1.Some? && p <= HexOf(ctx.v1.value)) || (ctx.v2.Some? && p <= HexOf(ctx.v2.value))
  }

  predicate IsPlain(oper: Oper) { oper == Bare || oper == Eq }

  function BoolOf(text: string): Option<bool> {
    var t := Lower(text);
    if t == "true" || t == "1" || t == "yes" then Some(true)
    else if t == "false" || t == "0" || t == "no" then Some(false)
    else None
  }

  predicate HasPresence(kind: Kind) { !kind.BoolK? && !kind.FlagsK? && !kind.HashK? && !kind.StateK? }

  ghost predicate PresenceMeans(f: Field, ctx: Context) {
    match f.kind
    case TagK => ctx.tags.Some? && ctx.tags.value != []
    case TextK => f.text(ctx).Some? && f.text(ctx).value != []
    case _ => f.number(ctx).Some?
  }

  ghost predicate HasOk(env: Env, oper: Oper, v: Value) {
    oper == Bare && forall i :: 0 <= i < |Items(v)| ==>
        Lower(Items(v)[i]) in env.fields && HasPresence(env.fields[Lower(Items(v)[i])].kind)
  }

  ghost predicate HasMeans(env: Env, v: Value, ctx: Context) {
    exists i :: 0 <= i < |Items(v)| && Lower(Items(v)[i]) in env.fields
        && PresenceMeans(env.fields[Lower(Items(v)[i])], ctx)
  }

  /** Some item of the value fits the text. */
  ghost predicate TextMeans(v: Value, default: Mode, text: string) {
    exists i :: 0 <= i < |Items(v)| && ItemMeans(Items(v)[i], v.quoted, default, text)
  }

  /** Whether a qualifier compiles. */
  ghost predicate QualifierOk(env: Env, field: string, oper: Oper, v: Value) {
    var name := Lower(field);
    if name == "has" then HasOk(env, oper, v)
    else name in env.fields
         && match env.fields[name].kind
            case TextK => IsPlain(oper)
            case TagK => IsPlain(oper)
            case HashK => IsPlain(oper) && forall i :: 0 <= i < |Items(v)| ==>
                4 <= |Items(v)[i]| <= 64 && IsHex(Items(v)[i])
            case StateK => IsPlain(oper) && forall i :: 0 <= i < |Items(v)| ==> Lower(Items(v)[i]) in env.states
            case BoolK => IsPlain(oper) && BoolOf(v.text).Some?
            case FlagsK => oper == Bare && FlagsOk(env.flags, Items(v))
            case kind => NumberOk(env.clock, env.time, kind, oper, v)
  }

  /** What a qualifier asks of a torrent, field kind by field kind. */
  ghost predicate QualifierMeans(env: Env, field: string, oper: Oper, v: Value, ctx: Context) {
    var name := Lower(field);
    if name == "has" then HasMeans(env, v, ctx)
    else name in env.fields
         && var f := env.fields[name];
            match f.kind
            case TextK =>
              f.text(ctx).Some? && TextMeans(v, if oper == Eq then Equals else Contains, f.text(ctx).value)
            case TagK =>
              ctx.tags.Some? && exists t :: 0 <= t < |ctx.tags.value| && TextMeans(v, Equals, ctx.tags.value[t])
            case HashK => exists i :: 0 <= i < |Items(v)| && HashMeans(Lower(Items(v)[i]), ctx)
            case StateK => exists i ::
                0 <= i < |Items(v)| && Lower(Items(v)[i]) in env.states && ctx.state == env.states[Lower(Items(v)[i])]
            case BoolK => f.boolean(ctx).Some? && f.boolean(ctx) == BoolOf(v.text)
            case FlagsK =>
              forall i :: 0 <= i < |Items(v)| ==>
                  FlagName(Items(v)[i]) in env.flags && Holds(FlagOf(env.flags, Items(v)[i]), ctx.flags)
            case kind => f.number(ctx).Some? && NumberMeans(env.clock, kind, oper, v, f.number(ctx).value, ctx.now)
  }

  /** Free text: the name holds it, or, unquoted and looking like a hash, it starts a hash. */
  ghost predicate FreeTextMeans(v: Value, ctx: Context) {
    || HoldsItem(v.text, ctx.name)
    || (!v.quoted && 8 <= |v.text| <= 64 && IsHex(Lower(v.text)) && HashMeans(Lower(v.text), ctx))
  }

  ghost predicate MeansOr(env: Env, e: OrExpr, ctx: Context)
    requires ProperOr(e)
  {
    MeansAnd(env, e.first, ctx) || exists i :: 0 <= i < |e.rest| && MeansAnd(env, e.rest[i], ctx)
  }

  ghost predicate MeansAnd(env: Env, a: AndExpr, ctx: Context)
    requires ProperAnd(a)
  {
    MeansUnary(env, a.first, ctx) && forall i :: 0 <= i < |a.rest| ==> MeansConjunct(env, a.rest[i], ctx)
  }

  ghost predicate MeansConjunct(env: Env, c: Conjunct, ctx: Context)
    requires ProperConjunct(c)
  { MeansUnary(env, c.operand, ctx) }

  ghost predicate MeansUnary(env: Env, u: Unary, ctx: Context)
    requires ProperUnary(u)
  {
    match u
    case Not(x) => !MeansUnary(env, x, ctx)
    case Plain(p) => MeansPrimary(env, p, ctx)
  }

  ghost predicate MeansPrimary(env: Env, p: Primary, ctx: Context)
    requires ProperPrimary(p)
  {
    match p
    case Group(e) => MeansOr(env, e, ctx)
    case Qualifier(f, op, t) => QualifierMeans(env, f, OperOf(op), ValueOf(t), ctx)
    case Text(t) => FreeTextMeans(ValueOf(t), ctx)
  }

  /** Whether every qualifier of a tree compiles. */
  ghost predicate OkOr(env: Env, e: OrExpr)
    requires ProperOr(e)
  { OkAnd(env, e.first) && forall i :: 0 <= i < |e.rest| ==> OkAnd(env, e.rest[i]) }

  ghost predicate OkAnd(env: Env, a: AndExpr)
    requires ProperAnd(a)
  { OkUnary(env, a.first) && forall i :: 0 <= i < |a.rest| ==> OkConjunct(env, a.rest[i]) }

  ghost predicate OkConjunct(env: Env, c: Conjunct)
    requires ProperConjunct(c)
  { OkUnary(env, c.operand) }

  ghost predicate OkUnary(env: Env, u: Unary)
    requires ProperUnary(u)
  {
    match u
    case Not(x) => OkUnary(env, x)
    case Plain(p) => OkPrimary(env, p)
  }

  ghost predicate OkPrimary(env: Env, p: Primary)
    requires ProperPrimary(p)
  {
    match p
    case Group(e) => OkOr(env, e)
    case Qualifier(f, op, t) => QualifierOk(env, f, OperOf(op), ValueOf(t))
    case Text(_) => true
  }

  // ----- leaf filters

  predicate HashHasPrefix(ctx: Context, prefixes: seq<string>) {
    || (ctx.v1.Some? && exists i :: 0 <= i < |prefixes| && HasHexPrefix(ctx.v1.value, prefixes[i]))
    || (ctx.v2.Some? && exists i :: 0 <= i < |prefixes| && HasHexPrefix(ctx.v2.value, prefixes[i]))
  }

  lemma HashHasPrefixMeans(ctx: Context, prefixes: seq<string>)
    ensures HashHasPrefix(ctx, prefixes) <==> exists i :: 0 <= i < |prefixes| && HashMeans(prefixes[i], ctx)
  {
    forall i | 0 <= i < |prefixes|
      ensures ctx.v1.Some? ==> (HasHexPrefix(ctx.v1.value, prefixes[i]) <==> prefixes[i] <= HexOf(ctx.v1.value))
      ensures ctx.v2.Some? ==> (HasHexPrefix(ctx.v2.value, prefixes[i]) <==> prefixes[i] <= HexOf(ctx.v2.value))
    {
      if ctx.v1.Some? { PrefixOfHex(ctx.v1.value, prefixes[i]); }
      if ctx.v2.Some? { PrefixOfHex(ctx.v2.value, prefixes[i]); }
    }
  }

  predicate AnyMatches(ms: seq<Matcher>, text: string) { exists i :: 0 <= i < |ms| && MatcherMatches(ms[i], text) }

  lemma AnyMatchesMeans(ms: seq<Matcher>, v: Value, default: Mode, text: string)
    requires |ms| == |Items(v)| && forall i :: 0 <= i < |ms| ==> ms[i] == MatcherOf(Items(v)[i], v.quoted, default)
    ensures AnyMatches(ms, text) <==> TextMeans(v, default, text)
  {
    hide MatcherMatches, ItemMeans, MatcherOf, Items;
    forall i | 0 <= i < |ms| ensures MatcherMatches(ms[i], text) <==> ItemMeans(Items(v)[i], v.quoted, default, text) {
      MatcherMeansItem(Items(v)[i], v.quoted, default, text);
    }
  }

  method BuildText(f: Field, oper: Oper, v: Value) returns (r: Option<Filter>)
    ensures r.Some? <==> IsPlain(oper)
    ensures r.Some? ==> forall ctx :: r.value(ctx) <==>
              f.text(ctx).Some? && TextMeans(v, if oper == Eq then Equals else Contains, f.text(ctx).value)
  {
    hide Items, TextMeans, AnyMatches;
    if !IsPlain(oper) { return None; }
    var mode := if oper == Eq then Equals else Contains;
    var ms := MatchersOf(v, mode);
    forall text { AnyMatchesMeans(ms, v, mode, text); }
    var get := f.text;
    return Some((ctx: Context) => get(ctx).Some? && AnyMatches(ms, get(ctx).value));
  }

  method BuildTag(oper: Oper, v: Value) returns (r: Option<Filter>)
    ensures r.Some? <==> IsPlain(oper)
    ensures r.Some? ==> forall ctx :: r.value(ctx) <==>
              ctx.tags.Some? && exists t :: 0 <= t < |ctx.tags.value| && TextMeans(v, Equals, ctx.tags.value[t])
  {
    hide Items, TextMeans, AnyMatches;
    if !IsPlain(oper) { return None; }
    var ms := MatchersOf(v, Equals);
    forall text { AnyMatchesMeans(ms, v, Equals, text); }
    return Some((ctx: Context) => ctx.tags.Some? && exists t ::
        0 <= t < |ctx.tags.value| && AnyMatches(ms, ctx.tags.value[t]));
  }

  method BuildHash(oper: Oper, v: Value) returns (r: Option<Filter>)
    ensures r.Some? <==> IsPlain(oper) && forall i :: 0 <= i < |Items(v)| ==>
              4 <= |Items(v)[i]| <= 64 && IsHex(Items(v)[i])
    ensures r.Some? ==> forall ctx :: r.value(ctx) <==>
              exists i :: 0 <= i < |Items(v)| && HashMeans(Lower(Items(v)[i]), ctx)
  {
    hide Items, IsHex, HashMeans, HashHasPrefix, Lower;
    if !IsPlain(oper) { return None; }
    var items := ListOf(v);
    var prefixes: seq<string> := [];
    for i := 0 to |items|
      invariant |prefixes| == i
      invariant forall x :: 0 <= x < i ==> 4 <= |items[x]| <= 64 && IsHex(items[x]) && prefixes[x] == Lower(items[x])
    {
      if |items[i]| < 4 || |items[i]| > 64 || !IsHex(items[i]) { return None; }
      prefixes := prefixes + [Lower(items[i])];
    }
    forall ctx { HashHasPrefixMeans(ctx, prefixes); }
    return Some((ctx: Context) => HashHasPrefix(ctx, prefixes));
  }

  method BuildState(states: map<string, nat>, oper: Oper, v: Value) returns (r: Option<Filter>)
    ensures r.Some? <==> IsPlain(oper) && forall i :: 0 <= i < |Items(v)| ==> Lower(Items(v)[i]) in states
    ensures r.Some? ==> forall ctx :: r.value(ctx) <==>
              exists i :: 0 <= i < |Items(v)| && Lower(Items(v)[i]) in states && ctx.state == states[Lower(Items(v)[i])]
  {
    hide Items, Lower;
    if !IsPlain(oper) { return None; }
    var items := ListOf(v);
    var wanted: seq<nat> := [];
    for i := 0 to |items|
      invariant |wanted| == i
      invariant forall x :: 0 <= x < i ==> Lower(items[x]) in states && wanted[x] == states[Lower(items[x])]
    {
      if Lower(items[i]) !in states { return None; }
      wanted := wanted + [states[Lower(items[i])]];
    }
    return Some((ctx: Context) => exists i :: 0 <= i < |wanted| && ctx.state == wanted[i]);
  }

  method BuildFlags(names: map<string, Bits>, oper: Oper, v: Value) returns (r: Option<Filter>)
    ensures r.Some? <==> oper == Bare && FlagsOk(names, Items(v))
    ensures r.Some? ==> forall ctx :: r.value(ctx) <==>
              forall i :: 0 <= i < |Items(v)| ==>
                  FlagName(Items(v)[i]) in names && Holds(FlagOf(names, Items(v)[i]), ctx.flags)
  {
    hide Items, FlagName, Holds, MaskOf, WantOf;
    if oper != Bare { return None; }
    var items := ListOf(v);
    var compiled := CompileFlags(names, items);
    if compiled.None? { return None; }
    var (mask, want) := compiled.value;
    ghost var fs := FlagsOf(names, items);
    forall ctx: Context ensures ctx.flags * mask == want <==>
              forall i :: 0 <= i < |items| ==> FlagName(items[i]) in names && Holds(FlagOf(names, items[i]), ctx.flags)
    {
      MaskDecidesAll(fs, ctx.flags);
    }
    return Some((ctx: Context) => ctx.flags * mask == want);
  }

  method PresenceOf(f: Field) returns (r: Option<Filter>)
    ensures r.Some? <==> HasPresence(f.kind)
    ensures r.Some? ==> forall ctx :: r.value(ctx) <==> PresenceMeans(f, ctx)
  {
    match f.kind {
      case TagK => return Some((ctx: Context) => ctx.tags.Some? && ctx.tags.value != []);
      case TextK => var get := f.text; return Some((ctx: Context) => get(ctx).Some? && get(ctx).value != []);
      case BoolK => return None;
      case FlagsK => return None;
      case HashK => return None;
      case StateK => return None;
      case _ => var get := f.number; return Some((ctx: Context) => get(ctx).Some?);
    }
  }

  /** All of the filters; a single one is returned as it is. */
  function All(filters: seq<Filter>): (f: Filter)
    requires filters != []
    ensures forall ctx :: f(ctx) <==> forall i :: 0 <= i < |filters| ==> filters[i](ctx)
  {
    if |filters| == 1 then filters[0] else (ctx: Context) => forall i :: 0 <= i < |filters| ==> filters[i](ctx)
  }

  /** Any of the filters; a single one is returned as it is. */
  function Any(filters: seq<Filter>): (f: Filter)
    requires filters != []
    ensures forall ctx :: f(ctx) <==> exists i :: 0 <= i < |filters| && filters[i](ctx)
  {
    if |filters| == 1 then filters[0] else (ctx: Context) => exists i :: 0 <= i < |filters| && filters[i](ctx)
  }

  lemma AllOfCons(f: Filter, rest: seq<Filter>, ctx: Context)
    ensures All([f] + rest)(ctx) <==> f(ctx) && forall i :: 0 <= i < |rest| ==> rest[i](ctx)
  {
    var filters := [f] + rest;
    assert filters[0] == f && forall i :: 0 <= i < |rest| ==> filters[i + 1] == rest[i];
    assert forall i :: 1 <= i < |filters| ==> filters[i] == rest[i - 1];
  }

  lemma AnyOfCons(f: Filter, rest: seq<Filter>, ctx: Context)
    ensures Any([f] + rest)(ctx) <==> f(ctx) || exists i :: 0 <= i < |rest| && rest[i](ctx)
  {
    var filters := [f] + rest;
    assert filters[0] == f && forall i :: 0 <= i < |rest| ==> filters[i + 1] == rest[i];
    assert forall i :: 1 <= i < |filters| ==> filters[i] == rest[i - 1];
  }

  lemma ItemsNotEmpty(v: Value)
    ensures Items(v) != []
  {}

  method BuildHas(env: Env, oper: Oper, v: Value) returns (r: Option<Filter>)
    ensures r.Some? <==> HasOk(env, oper, v)
    ensures r.Some? ==> forall ctx :: r.value(ctx) <==> HasMeans(env, v, ctx)
  {
    hide Items, Lower, PresenceMeans;
    if oper != Bare { return None; }
    var items := ListOf(v);
    ItemsNotEmpty(v);
    var checks: seq<Filter> := [];
    for i := 0 to |items|
      invariant |checks| == i
      invariant forall x :: 0 <= x < i ==>
                Lower(items[x]) in env.fields && HasPresence(env.fields[Lower(items[x])].kind)
      invariant forall x, ctx :: 0 <= x < i ==> (checks[x](ctx) <==> PresenceMeans(env.fields[Lower(items[x])], ctx))
    {
      if Lower(items[i]) !in env.fields { return None; }
      var check := PresenceOf(env.fields[Lower(items[i])]);
      if check.None? { return None; }
      checks := checks + [check.value];
    }
    return Some(Any(checks));
  }

  method BuildBool(f: Field, oper: Oper, v: Value) returns (r: Option<Filter>)
    ensures r.Some? <==> IsPlain(oper) && BoolOf(v.text).Some?
    ensures r.Some? ==> forall ctx :: r.value(ctx) <==> f.boolean(ctx).Some? && f.boolean(ctx) == BoolOf(v.text)
    ensures r.Some? <==> IsPlain(oper) && (SaysTrue(v.text) || SaysFalse(v.text))
    ensures r.Some? ==> forall ctx :: r.value(ctx) <==> f.boolean(ctx) == Some(SaysTrue(v.text))
  {
    hide BoolOf, SaysTrue, SaysFalse;
    BoolWords(v.text);
    BoolOfIsOne(v.text);
    var wanted := BoolOf(v.text);
    if !IsPlain(oper) || wanted.None? { return None; }
    var get := f.boolean;
    return Some((ctx: Context) => get(ctx) == wanted);
  }

  method BuildNumeric(env: Env, f: Field, oper: Oper, v: Value) returns (r: Option<Filter>)
    ensures r.Some? <==> NumberOk(env.clock, env.time, f.kind, oper, v)
    ensures r.Some? ==> forall ctx :: r.value(ctx) <==>
              f.number(ctx).Some? && NumberMeans(env.clock, f.kind, oper, v, f.number(ctx).value, ctx.now)
  {
    hide BuildInterval, InInterval, NumberMeans, NumberOk;
    var built := BuildInterval(env.clock, env.time, f.kind, oper, v);
    IntervalMeansNumber(env.clock, env.time, f.kind, oper, v, 0.0, 0);
    if built.None? { return None; }
    var iv, get := built.value, f.number;
    forall x: real, now: int { IntervalMeansNumber(env.clock, env.time, f.kind, oper, v, x, now); }
    return Some((ctx: Context) => get(ctx).Some? && InInterval(iv, get(ctx).value, ctx.now));
  }

  method BuildQualifier(env: Env, field: string, oper: Oper, v: Value) returns (r: Option<Filter>)
    ensures r.Some? <==> QualifierOk(env, field, oper, v)
    ensures r.Some? ==> forall ctx :: r.value(ctx) <==> QualifierMeans(env, field, oper, v, ctx)
  {
    hide Lower, Items, IsPlain, HasOk, HasMeans, FlagsOk, NumberOk, TextMeans, HashMeans, NumberMeans, IsHex,
         BoolOf;
    var name := Lower(field);
    if name == "has" {
      r := BuildHas(env, oper, v);
    } else if name !in env.fields {
      r := None;
    } else {
      var f := env.fields[name];
      match f.kind {
        case TextK => r := BuildText(f, oper, v);
        case TagK => r := BuildTag(oper, v);
        case HashK => r := BuildHash(oper, v);
        case StateK => r := BuildState(env.states, oper, v);
        case BoolK => r := BuildBool(f, oper, v);
        case FlagsK => r := BuildFlags(env.flags, oper, v);
        case _ => r := BuildNumeric(env, f, oper, v);
      }
    }
  }

  method BuildFreeText(v: Value) returns (f: Filter)
    ensures forall ctx :: f(ctx) <==> FreeTextMeans(v, ctx)
  {
    hide Found, HoldsItem, HashHasPrefix, HashMeans, IsHex, Lower;
    var lower := Lower(v.text);
    var asHash := !v.quoted && 8 <= |lower| <= 64 && IsHex(lower);
    var prefixes := [lower];
    forall ctx: Context ensures HashHasPrefix(ctx, prefixes) <==> HashMeans(lower, ctx) {
      HashHasPrefixMeans(ctx, prefixes);
      assert prefixes[0] == lower;
    }
    forall ctx: Context { FoundIsHeld(ctx.name, v.text); }
    f := (ctx: Context) => Found(ctx.name, lower) || (asHash && HashHasPrefix(ctx, prefixes));
  }

  // ----- the tree

  method BuildPrimary(env: Env, p: Primary) returns (r: Option<Filter>)
    requires ProperPrimary(p)
    ensures r.Some? <==> OkPrimary(env, p)
    ensures r.Some? ==> forall ctx :: r.value(ctx) <==> MeansPrimary(env, p, ctx)
    decreases p, 0
  {
    hide QualifierOk, QualifierMeans, FreeTextMeans;
    match p {
      case Group(e) => r := BuildOr(env, e);
      case Qualifier(f, op, t) => r := BuildQualifier(env, f, OperOf(op), ValueOf(t));
      case Text(t) =>
        var f := BuildFreeText(ValueOf(t));
        r := Some(f);
    }
  }

  method BuildUnary(env: Env, u: Unary) returns (r: Option<Filter>)
    requires ProperUnary(u)
    ensures r.Some? <==> OkUnary(env, u)
    ensures r.Some? ==> forall ctx :: r.value(ctx) <==> MeansUnary(env, u, ctx)
    decreases u, 0
  {
    match u {
      case Not(x) =>
        r := BuildUnary(env, x);
        if r.Some? {
          var inner := r.value;
          r := Some((ctx: Context) => !inner(ctx));
        }
      case Plain(p) => r := BuildPrimary(env, p);
    }
  }

  method BuildConjunct(env: Env, c: Conjunct) returns (r: Option<Filter>)
    requires ProperConjunct(c)
    ensures r.Some? <==> OkConjunct(env, c)
    ensures r.Some? ==> forall ctx :: r.value(ctx) <==> MeansConjunct(env, c, ctx)
    decreases c, 0
  {
    r := BuildUnary(env, c.operand);
  }

  method BuildAnd(env: Env, a: AndExpr) returns (r: Option<Filter>)
    requires ProperAnd(a)
    ensures r.Some? <==> OkAnd(env, a)
    ensures r.Some? ==> forall ctx :: r.value(ctx) <==> MeansAnd(env, a, ctx)
    decreases a, 0
  {
    hide MeansUnary, MeansConjunct, OkUnary, OkConjunct;
    var first := BuildUnary(env, a.first);
    if first.None? { return None; }
    var filters: seq<Filter> := [];
    for i := 0 to |a.rest|
      invariant |filters| == i
      invariant forall x :: 0 <= x < i ==> OkConjunct(env, a.rest[x])
      invariant forall x, ctx :: 0 <= x < i ==> (filters[x](ctx) <==> MeansConjunct(env, a.rest[x], ctx))
    {
      var f := BuildConjunct(env, a.rest[i]);
      if f.None? { return None; }
      filters := filters + [f.value];
    }
    r := Some(All([first.value] + filters));
    forall ctx { AllOfCons(first.value, filters, ctx); }
  }

  method BuildOr(env: Env, e: OrExpr) returns (r: Option<Filter>)
    requires ProperOr(e)
    ensures r.Some? <==> OkOr(env, e)
    ensures r.Some? ==> forall ctx :: r.value(ctx) <==> MeansOr(env, e, ctx)
    decreases e, 0
  {
    hide MeansAnd, OkAnd;
    var first := BuildAnd(env, e.first);
    if first.None? { return None; }
    var filters: seq<Filter> := [];
    for i := 0 to |e.rest|
      invariant |filters| == i
      invariant forall x :: 0 <= x < i ==> OkAnd(env, e.rest[x])
      invariant forall x, ctx :: 0 <= x < i ==> (filters[x](ctx) <==> MeansAnd(env, e.rest[x], ctx))
    {
      var f := BuildAnd(env, e.rest[i]);
      if f.None? { return None; }
      filters := filters + [f.value];
    }
    r := Some(Any([first.value] + filters));
    forall ctx { AnyOfCons(first.value, filters, ctx); }
  }

  // ----- the words of a query

  /** Each operator compares as it is written, no operator asks for the values a scalar covers, and `=` for just those
      too, where texts are to be equal. Only those two suit fields that are not numbers. */
  lemma OperatorsCompare(s: Scalar, v: real, now: int, op: Option<Token>)
    requires op.Some? ==> IsOp(op.value)
    ensures Compares(OperOf(Some(V_GTE)), s, v, now) <==> v >= Lo(s, now)
    ensures Compares(OperOf(Some(V_GT)), s, v, now) <==> v > Hi(s, now)
    ensures Compares(OperOf(Some(V_LTE)), s, v, now) <==> v <= Hi(s, now)
    ensures Compares(OperOf(Some(V_LT)), s, v, now) <==> v < Lo(s, now)
    ensures Compares(OperOf(Some(V_EQ)), s, v, now) <==> Lo(s, now) <= v <= Hi(s, now)
    ensures !s.relative ==> (Compares(OperOf(None), s, v, now) <==> Lo(s, now) <= v <= Hi(s, now))
    ensures IsPlain(OperOf(op)) <==> op == None || op == Some(V_EQ)
  {}

  /** A word is itself, and a quoted text what was quoted, whatever characters it has. */
  lemma ValuesOfTokens(text: string)
    ensures ValueOf(V_WORD(text)) == ValueOf(WORD(text)) == Value(text, false)
    ensures var quoted := ['"'] + Escape(text) + ['"'];
            ValueOf(V_STRING(quoted)) == ValueOf(STRING(quoted)) == Value(text, true)
  {
    UnescapesWhatIsEscaped(text, ['"']);
  }

  ghost predicate SaysTrue(text: string) {
    SameButCase(text, "true") || SameButCase(text, "yes") || SameButCase(text, "1")
  }

  ghost predicate SaysFalse(text: string) {
    SameButCase(text, "false") || SameButCase(text, "no") || SameButCase(text, "0")
  }

  lemma BoolWords(text: string)
    ensures BoolOf(text) == Some(true) <==> SaysTrue(text)
    ensures BoolOf(text) == Some(false) <==> SaysFalse(text)
  {
    AlreadySmall();
    FoldingForgetsCase(text, "true");
    FoldingForgetsCase(text, "yes");
    FoldingForgetsCase(text, "1");
    FoldingForgetsCase(text, "false");
    FoldingForgetsCase(text, "no");
    FoldingForgetsCase(text, "0");
  }

  lemma BoolOfIsOne(text: string)
    ensures BoolOf(text).Some? <==> BoolOf(text) == Some(true) || BoolOf(text) == Some(false)
  {}

  lemma AlreadySmall()
    ensures Lower("true") == "true" && Lower("yes") == "yes" && Lower("1") == "1"
    ensures Lower("false") == "false" && Lower("no") == "no" && Lower("0") == "0"
  {}

  /** The kinds of field that can be absent. */
  lemma PresentKinds(kind: Kind)
    ensures HasPresence(kind) <==> kind in {TextK, TagK, SizeK, RateK, DurationK, NumberK, PercentK, DateK}
  {}

  /** Texts, items and free text that differ in the case of letters only are matched alike. */
  lemma CaseDoesNotMatter(item: string, item': string, quoted: bool, default: Mode, text: string, text': string)
    requires SameButCase(item, item') && SameButCase(text, text')
    ensures ItemMeans(item, quoted, default, text) <==> ItemMeans(item', quoted, default, text')
    ensures HoldsItem(item, text) <==> HoldsItem(item', text')
  {
    FoldingForgetsCase(item, item');
    FoldingForgetsCase(text, text');
    assert text == [] <==> text' == [];
    StarsAreStars(item, item');
    forall i: nat ensures PartIs(item, text, i) <==> PartIs(item', text', i) {}
    HoldsAlike(item, item', text, text');
    assert Spells(Lower(item), text) <==> Spells(Lower(item'), text');
  }

  lemma HoldsAlike(item: string, item': string, text: string, text': string)
    requires forall i: nat :: PartIs(item, text, i) <==> PartIs(item', text', i)
    requires text == [] <==> text' == []
    ensures HoldsItem(item, text) <==> HoldsItem(item', text')
  {
    hide PartIs;
  }

  lemma StarsAreStars(item: string, item': string)
    requires SameButCase(item, item')
    ensures '*' in item <==> '*' in item'
  {
    assert forall i :: 0 <= i < |item| ==> (item[i] == '*' <==> item'[i] == '*');
  }

  /** `field:-7d` and its like, for a field that is a date: everything from so long ago on. */
  lemma AgoSelects(env: Env, field: string, op: Option<Token>, num: string, unit: string, ctx: Context,
                   x: real, u: real)
    requires Lower(field) != "has" && Lower(field) in env.fields && env.fields[Lower(field)].kind == DateK
    requires (op.Some? ==> IsOp(op.value)) && IsNumeral(num) && Lower(unit) in TIMES
    requires x == NumeralValue(num) && env.clock.fits(x) && DurationUnit(Lower(unit)) == Some(u)
    ensures var q := Qualifier(field, op, V_WORD(['-'] + (num + unit)));
            var at := env.fields[Lower(field)].number(ctx);
            && (OkPrimary(env, q) <==> op != Some(V_EQ))
            && (op == None ==> (MeansPrimary(env, q, ctx) <==> at.Some? && at.value >= ctx.now as real - x * u))
            && (op == Some(V_LT) ==> (MeansPrimary(env, q, ctx) <==> at.Some? && at.value < ctx.now as real - x * u))
  {
    hide Lower, NumberOk, NumberMeans, IsNumeral, NumeralValue, DurationUnit;
    var at := env.fields[Lower(field)].number(ctx);
    AgoMeans(env.clock, env.time, OperOf(op), num, unit, false, if at.Some? then at.value else 0.0, ctx.now, x, u);
  }

  // ----- juxtaposition means AND

  /** Of a torrent that has the field, two words of a boolean field say the same exactly when both stand for true
      or both for false: so `field:yes` and `field:no` divide those torrents between them. */
  lemma BoolWordsDivide(env: Env, field: string, oper: Oper, v: Value, oper': Oper, w: Value, ctx: Context)
    requires Lower(field) != "has" && Lower(field) in env.fields && env.fields[Lower(field)].kind == BoolK
    requires QualifierOk(env, field, oper, v) && QualifierOk(env, field, oper', w)
    requires env.fields[Lower(field)].boolean(ctx).Some?
    ensures (QualifierMeans(env, field, oper, v, ctx) <==> QualifierMeans(env, field, oper', w, ctx))
       <==> BoolOf(v.text) == BoolOf(w.text)
  {
    hide Lower, BoolOf;
    var b, x, y := env.fields[Lower(field)].boolean(ctx).value, BoolOf(v.text).value, BoolOf(w.text).value;
    assert QualifierMeans(env, field, oper, v, ctx) <==> b == x;
    assert QualifierMeans(env, field, oper', w, ctx) <==> b == y;
  }

  /** Whatever a qualifier asks of a field that can be absent, only torrents that `has:` finds meet it, but for
      those whose text is there and empty. */
  lemma MeetingNeedsPresence(env: Env, field: string, oper: Oper, v: Value, ctx: Context)
    requires Lower(field) != "has" && Lower(field) in env.fields && HasPresence(env.fields[Lower(field)].kind)
    requires QualifierMeans(env, field, oper, v, ctx)
    ensures var f := env.fields[Lower(field)]; PresenceMeans(f, ctx) || (f.kind == TextK && f.text(ctx) == Some([]))
  {
    hide Lower, TextMeans, NumberMeans;
  }

  /** A tree means the same whichever of its ANDs are written. */
  lemma {:induction false} OrIgnoresAnds(env: Env, e: OrExpr, ctx: Context)
    requires ProperOr(e)
    ensures ProperOr(PlainOr(e)) && MeansOr(env, PlainOr(e), ctx) == MeansOr(env, e, ctx)
    decreases e, 0
  {
    AndIgnoresAnds(env, e.first, ctx);
    AndsIgnoreAnds(env, e.rest, ctx);
  }

  lemma {:induction false} AndsIgnoreAnds(env: Env, rest: seq<AndExpr>, ctx: Context)
    requires forall i :: 0 <= i < |rest| ==> ProperAnd(rest[i])
    ensures |PlainAnds(rest)| == |rest|
    ensures forall i :: 0 <= i < |rest| ==>
              ProperAnd(PlainAnds(rest)[i]) && MeansAnd(env, PlainAnds(rest)[i], ctx) == MeansAnd(env, rest[i], ctx)
    decreases rest, 0
  {
    if rest != [] {
      AndIgnoresAnds(env, rest[0], ctx);
      AndsIgnoreAnds(env, rest[1..], ctx);
      assert forall i :: 1 <= i < |rest| ==>
          rest[i] == rest[1..][i - 1] && PlainAnds(rest)[i] == PlainAnds(rest[1..])[i - 1];
    }
  }

  lemma {:induction false} AndIgnoresAnds(env: Env, a: AndExpr, ctx: Context)
    requires ProperAnd(a)
    ensures ProperAnd(PlainAnd(a)) && MeansAnd(env, PlainAnd(a), ctx) == MeansAnd(env, a, ctx)
    decreases a, 0
  {
    UnaryIgnoresAnds(env, a.first, ctx);
    ConjunctsIgnoreAnds(env, a.rest, ctx);
  }

  lemma {:induction false} ConjunctsIgnoreAnds(env: Env, rest: seq<Conjunct>, ctx: Context)
    requires forall i :: 0 <= i < |rest| ==> ProperConjunct(rest[i])
    ensures |PlainConjuncts(rest)| == |rest|
    ensures forall i :: 0 <= i < |rest| ==>
              ProperConjunct(PlainConjuncts(rest)[i])
                  && MeansConjunct(env, PlainConjuncts(rest)[i], ctx) == MeansConjunct(env, rest[i], ctx)
    decreases rest, 0
  {
    if rest != [] {
      ConjunctIgnoresAnds(env, rest[0], ctx);
      ConjunctsIgnoreAnds(env, rest[1..], ctx);
      assert forall i :: 1 <= i < |rest| ==>
          rest[i] == rest[1..][i - 1] && PlainConjuncts(rest)[i] == PlainConjuncts(rest[1..])[i - 1];
    }
  }

  lemma {:induction false} ConjunctIgnoresAnds(env: Env, c: Conjunct, ctx: Context)
    requires ProperConjunct(c)
    ensures ProperConjunct(PlainConjunct(c)) && MeansConjunct(env, PlainConjunct(c), ctx) == MeansConjunct(env, c, ctx)
    decreases c, 0
  {
    UnaryIgnoresAnds(env, c.operand, ctx);
  }

  lemma {:induction false} UnaryIgnoresAnds(env: Env, u: Unary, ctx: Context)
    requires ProperUnary(u)
    ensures ProperUnary(PlainUnary(u)) && MeansUnary(env, PlainUnary(u), ctx) == MeansUnary(env, u, ctx)
    decreases u, 0
  {
    match u {
      case Not(x) => UnaryIgnoresAnds(env, x, ctx);
      case Plain(p) => if p.Group? { OrIgnoresAnds(env, p.inner, ctx); }
    }
  }
}
