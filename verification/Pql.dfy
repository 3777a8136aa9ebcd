/** A query from its tokens to its filter. */
module Pql {
  import opened Common
  import opened PqlGrammar
  import opened PqlParser
  import opened PqlFilter

  ghost predicate QueryOk(env: Env, q: Query)
    requires ProperQuery(q)
  { q.Matching? ==> OkOr(env, q.e) }

  ghost predicate QueryMeans(env: Env, q: Query, ctx: Context)
    requires ProperQuery(q)
  { q.Matching? ==> MeansOr(env, q.e, ctx) }

  /** Accepted are exactly the printings of shallow trees whose qualifiers compile, and the filter
      decides what the tree means; the empty query matches everything. */
  method Parse(env: Env, tokens: seq<Token>) returns (r: Option<Filter>)
    requires forall t :: t in tokens ==> t != EOF
    ensures r.Some? <==> exists q :: ProperQuery(q) && PrintQuery(q) == tokens && Shallow(tokens) && QueryOk(env, q)
    ensures r.Some? ==> forall q, ctx :: ProperQuery(q) && PrintQuery(q) == tokens ==>
              (r.value(ctx) <==> QueryMeans(env, q, ctx))
  {
    hide ProperOr, PrintOr, Shallow, OkOr, MeansOr, ParseOr;
    forall q ensures ParseQuery(tokens) == Some(q) <==> ProperQuery(q) && PrintQuery(q) == tokens {
      ParseIffPrint(tokens, q);
    }
    var shallow := CheckDepth(tokens);
    if !shallow { return None; }
    var parser := new Parser(tokens);
    var query := parser.Query();
    if query.None? { return None; }
    assert ProperQuery(query.value) && PrintQuery(query.value) == tokens;
    match query.value {
      case Everything => r := Some((ctx: Context) => true);
      case Matching(e) => r := BuildOr(env, e);
    }
  }

  /** Two accepted queries that differ only in written ANDs select the same torrents. */
  lemma AndsDoNotChangeMeaning(env: Env, a: seq<Token>, b: seq<Token>, p: Query, q: Query, ctx: Context)
    requires ParseQuery(a) == Some(p) && ParseQuery(b) == Some(q) && PlainQuery(p) == PlainQuery(q)
    ensures ProperQuery(p) && ProperQuery(q) && (QueryMeans(env, p, ctx) <==> QueryMeans(env, q, ctx))
  {
    ParseIffPrint(a, p);
    ParseIffPrint(b, q);
    if p.Matching? && q.Matching? {
      OrIgnoresAnds(env, p.e, ctx);
      OrIgnoresAnds(env, q.e, ctx);
    }
  }
}
