/**
 The stored definitions of one owner: services, api_calls, scripts and endpoints.

 Every store read is scoped to one owner, so an owner's definitions stand on their own here.
 */
module Definitions {
  import opened Wrappers
  import opened Slugs
  import opened TagExpressions
  import opened UrlTemplates
  import opened JsonValues

  datatype Access = Read | Write

  predicate Exceeds(a: Access, ceiling: Access) {
    a == Write && ceiling == Read
  }

  datatype ParamType = StringType | IntegerType | NumberType | BooleanType | StringArrayType

  datatype Location = Path | Query | Header | Body(pointer: string) | Local

  datatype Param = Param(
    name: Text, location: Location, ty: ParamType, required: bool, default: Option<Json>, fixed: Option<Json>,
    enumValues: Option<seq<Json>>, description: Option<string>, position: int)

  predicate DistinctParams(params: seq<Param>) {
    forall i, j | 0 <= i < j < |params| :: params[i].name != params[j].name
  }

  /** A base URL with its origin, when the URL has one. */
  datatype BaseUrl = BaseUrl(text: string, origin: Option<string>)

  /** A JSONPath with the parser's verdict on it. */
  datatype JsonPath = JsonPath(text: string, wellFormed: bool)

  datatype ProjectionField = ProjectionField(name: string, path: JsonPath, many: bool, coerce: Option<ParamType>)

  datatype Service = Service(
    baseUrl: BaseUrl, originAllowlist: set<string>, defaultHeaders: map<string, string>,
    timeoutMs: nat, maxConcurrency: nat, rateLimitPerMin: Option<nat>, maxResponseBytes: nat)

  /** `request` stands for the fields no step looks into: method, fixed query, body template, pagination, limits. */
  datatype ApiCall = ApiCall(
    service: Slug, pathTemplate: Text, access: Access, params: seq<Param>,
    projection: Option<seq<ProjectionField>>, description: Option<string>, request: string)

  datatype ScriptDef = ScriptDef(
    source: string, params: seq<Param>, callable: map<string, Slug>, budgets: Budgets, description: Option<string>)

  datatype Tagged<T> = Tagged(def: T, tags: set<Slug>)

  datatype Target = CallTarget(slug: Slug) | ScriptTarget(slug: Slug)

  datatype EndpointDef = EndpointDef(
    tagExpr: TagExpr, writeCeiling: Access, budgets: Budgets, instructions: Option<string>, enabled: bool,
    aliases: map<string, Target>, authProviders: set<Slug>)

  /** A credential bound by a human to one origin. */
  datatype AuthProvider = AuthProvider(slug: Slug, boundOrigin: string)

  /** Everything one owner has; `providers` holds each service's provider, of which there is at most one. */
  datatype Owner = Owner(
    services: map<Slug, Service>, calls: map<Slug, Tagged<ApiCall>>, scripts: map<Slug, Tagged<ScriptDef>>,
    endpoints: map<Slug, EndpointDef>, providers: map<Slug, AuthProvider>)

  const EMPTY := Owner(map[], map[], map[], map[], map[])

  function Lookup<T>(rows: map<Slug, T>, slug: Slug): Option<T> {
    if slug in rows then Some(rows[slug]) else None
  }

  // ----- Budgets -----

  /** None is "no opinion". */
  datatype Budgets = Budgets(
    maxCalls: Option<nat>, maxBytes: Option<nat>, wallClockMs: Option<nat>, maxPages: Option<nat>,
    maxConcurrency: Option<nat>)

  function FoldOpt(a: Option<nat>, b: Option<nat>): Option<nat> {
    match (a, b)
    case (Some(x), Some(y)) => Some(if x <= y then x else y)
    case (Some(x), None) => Some(x)
    case (None, Some(y)) => Some(y)
    case (None, None) => None
  }

  function Fold(a: Budgets, b: Budgets): Budgets {
    Budgets(FoldOpt(a.maxCalls, b.maxCalls), FoldOpt(a.maxBytes, b.maxBytes),
            FoldOpt(a.wallClockMs, b.wallClockMs), FoldOpt(a.maxPages, b.maxPages),
            FoldOpt(a.maxConcurrency, b.maxConcurrency))
  }

  predicate NoWiderOpt(a: Option<nat>, b: Option<nat>) {
    b.Some? ==> a.Some? && a.value <= b.value
  }

  /** `a` admits nothing that `b` refuses. */
  predicate NoWider(a: Budgets, b: Budgets) {
    && NoWiderOpt(a.maxCalls, b.maxCalls) && NoWiderOpt(a.maxBytes, b.maxBytes)
    && NoWiderOpt(a.wallClockMs, b.wallClockMs) && NoWiderOpt(a.maxPages, b.maxPages)
    && NoWiderOpt(a.maxConcurrency, b.maxConcurrency)
  }

  /** Folding is the meet of the narrowing order: no wider than either side, and as wide as that allows. */
  lemma FoldIsTheMeet(a: Budgets, b: Budgets, c: Budgets)
    ensures NoWider(c, Fold(a, b)) <==> NoWider(c, a) && NoWider(c, b)
    ensures NoWider(a, b) && NoWider(b, a) ==> a == b
  {
  }
}
