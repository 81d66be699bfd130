/**
 From an owner's definitions to one endpoint's plan: select by tag, compile, check every static
 invariant, name the tools. Any failure fails the whole plan.
 */
module Plans {
  import opened Wrappers
  import opened Slugs
  import opened Orders
  import opened TagExpressions
  import opened UrlTemplates
  import opened Definitions
  import opened Tools

  datatype PlannedCall = PlannedCall(call: ApiCall, service: Service, origin: string, template: seq<Segment>)

  datatype EndpointPlan = EndpointPlan(
    slug: Slug, writeCeiling: Access, instructions: Option<string>, tools: seq<PlannedTool>,
    calls: map<Slug, PlannedCall>, scripts: map<Slug, ScriptDef>, callableBy: map<Slug, map<string, Slug>>,
    origins: set<string>, budgets: Budgets)

  datatype ResolveError =
    | EndpointNotFound
    | MissingService(call: Slug, service: Slug)
    | BadTemplate(call: Slug, problem: TemplateError)
    | PathParamMismatch(call: Slug)
    | OpaqueOrigin(call: Slug)
    | BadProjection(call: Slug, field: string)
    | OriginNotAllowed(call: Slug)
    | AuthOriginMismatch(call: Slug, provider: Slug)
    | AuthProviderOutOfScope(call: Slug, provider: Slug)
    | WriteCeilingViolation(call: Slug)
    | Naming(conflict: NameError)

  // ----- Compiling one call -----

  function Placeholders(template: seq<Segment>): set<Text> {
    set i | 0 <= i < |template| && template[i].Placeholder? :: template[i].name
  }

  function PathParams(params: seq<Param>): set<Text> {
    set i | 0 <= i < |params| && params[i].location == Path :: params[i].name
  }

  function BadField(fields: seq<ProjectionField>, i: nat): Option<string>
    requires i <= |fields|
    decreases |fields| - i
  {
    if i == |fields| then None
    else if !fields[i].path.wellFormed then Some(fields[i].name)
    else BadField(fields, i + 1)
  }

  /** Compiles one call on the service row found for it. */
  function CompileOn(found: Option<Service>, slug: Slug, call: ApiCall): Result<PlannedCall, ResolveError> {
    if found.None? then Err(MissingService(slug, call.service)) else
    var service := found.value;
    var template := ParseTemplate(call.pathTemplate);
    if template.Err? then Err(BadTemplate(slug, template.error))
    else if Placeholders(template.value) != PathParams(call.params) then Err(PathParamMismatch(slug))
    else if service.baseUrl.origin.None? then Err(OpaqueOrigin(slug))
    else if call.projection.Some? && BadField(call.projection.value, 0).Some?
    then Err(BadProjection(slug, BadField(call.projection.value, 0).value))
    else Ok(PlannedCall(call, service, service.baseUrl.origin.value, template.value))
  }

  function Compile(owner: Owner, slug: Slug, call: ApiCall): Result<PlannedCall, ResolveError> {
    CompileOn(Lookup(owner.services, call.service), slug, call)
  }

  // ----- What a plan is -----

  function SelectedCalls(owner: Owner, e: EndpointDef): set<Slug> {
    set s | s in owner.calls && Eval(e.tagExpr, owner.calls[s].tags)
  }

  function SelectedScripts(owner: Owner, e: EndpointDef): set<Slug> {
    set s | s in owner.scripts && Eval(e.tagExpr, owner.scripts[s].tags)
  }

  /** A script reaches what it declares, as far as the endpoint selected it. */
  function Reachable(callable: map<string, Slug>, selected: set<Slug>): map<string, Slug> {
    map a | a in callable && callable[a] in selected :: callable[a]
  }

  function Targets(calls: set<Slug>, scripts: set<Slug>): set<Target> {
    (set s | s in calls :: CallTarget(s)) + (set s | s in scripts :: ScriptTarget(s))
  }

  function ItemsOf(calls: map<Slug, PlannedCall>, scripts: map<Slug, ScriptDef>): map<Target, Item> {
    map t | t in Targets(calls.Keys, scripts.Keys) ::
      match t
      case CallTarget(s) => Item(calls[s].call.params, None)
      case ScriptTarget(s) => Item(scripts[s].params, Some(scripts[s].budgets))
  }

  function ScriptsOf(owner: Owner, e: EndpointDef): map<Slug, ScriptDef> {
    map s | s in SelectedScripts(owner, e) :: owner.scripts[s].def
  }

  function CallableBy(scripts: map<Slug, ScriptDef>, selected: set<Slug>): map<Slug, map<string, Slug>> {
    map s | s in scripts :: Reachable(scripts[s].callable, selected)
  }

  function OriginsOf(calls: map<Slug, PlannedCall>): set<string> {
    set s | s in calls :: calls[s].origin
  }

  ghost predicate AuthBound(owner: Owner, scope: set<Slug>, planned: PlannedCall) {
    planned.call.service in owner.providers ==>
      var provider := owner.providers[planned.call.service];
      provider.boundOrigin == planned.origin && (scope == {} || provider.slug in scope)
  }

  /** The checks every selected call passes. */
  ghost predicate CallAdmitted(owner: Owner, e: EndpointDef, planned: PlannedCall) {
    && planned.origin in planned.service.originAllowlist
    && AuthBound(owner, e.authProviders, planned)
    && !Exceeds(planned.call.access, e.writeCeiling)
  }

  ghost predicate Compiled(owner: Owner, e: EndpointDef, calls: map<Slug, PlannedCall>) {
    && calls.Keys == SelectedCalls(owner, e)
    && forall s | s in calls :: Compile(owner, s, owner.calls[s].def) == Ok(calls[s])
  }

  ghost predicate IsPlan(owner: Owner, slug: Slug, p: EndpointPlan) {
    && slug in owner.endpoints
    && var e := owner.endpoints[slug];
    && Compiled(owner, e, p.calls)
    && (forall s | s in p.calls :: CallAdmitted(owner, e, p.calls[s]))
    && p.scripts == ScriptsOf(owner, e)
    && p.callableBy == CallableBy(p.scripts, p.calls.Keys)
    && p.origins == OriginsOf(p.calls)
    && Unambiguous(e.aliases)
    && IsToolList(e.aliases, e.budgets, ItemsOf(p.calls, p.scripts), p.tools)
    && (p.slug, p.writeCeiling, p.instructions, p.budgets) == (slug, e.writeCeiling, e.instructions, e.budgets)
  }

  lemma CompiledOnce(owner: Owner, e: EndpointDef, a: map<Slug, PlannedCall>, b: map<Slug, PlannedCall>)
    requires Compiled(owner, e, a) && Compiled(owner, e, b)
    ensures a == b
  {
    forall s | s in a ensures a[s] == b[s] {
      assert Compile(owner, s, owner.calls[s].def) == Ok(a[s]);
      assert Compile(owner, s, owner.calls[s].def) == Ok(b[s]);
    }
  }

  /** Definitions determine the plan, whatever order their rows are read in. */
  lemma PlanIsUnique(owner: Owner, slug: Slug, p: EndpointPlan, q: EndpointPlan)
    requires IsPlan(owner, slug, p) && IsPlan(owner, slug, q)
    ensures p == q
  {
    var e := owner.endpoints[slug];
    CompiledOnce(owner, e, p.calls, q.calls);
    ToolListIsUnique(e.aliases, e.budgets, ItemsOf(p.calls, p.scripts), p.tools, q.tools);
  }

  // ----- What an error says -----

  ghost predicate Selects(owner: Owner, e: EndpointDef, s: Slug) {
    s in owner.calls && Eval(e.tagExpr, owner.calls[s].tags)
  }

  /** `rows` lists the owner's api_calls in the order the store reads them. */
  ghost predicate Lists(rows: seq<Slug>, owner: Owner) {
    forall s :: s in rows <==> s in owner.calls
  }

  ghost predicate FirstFailure(owner: Owner, e: EndpointDef, rows: seq<Slug>, k: nat, error: ResolveError) {
    && k < |rows| && Selects(owner, e, rows[k]) && Compile(owner, rows[k], owner.calls[rows[k]].def) == Err(error)
    && forall j | 0 <= j < k && Selects(owner, e, rows[j]) :: Compile(owner, rows[j], owner.calls[rows[j]].def).Ok?
  }

  /** The error is that of the first selected call, in the order of the rows, that does not compile. */
  ghost predicate ExplainsCall(owner: Owner, e: EndpointDef, rows: seq<Slug>, error: ResolveError) {
    exists k :: FirstFailure(owner, e, rows, k, error)
  }

  predicate OriginAllowed(planned: PlannedCall) {
    planned.origin in planned.service.originAllowlist
  }

  ghost predicate OriginsAllowed(calls: map<Slug, PlannedCall>) {
    forall s | s in calls :: OriginAllowed(calls[s])
  }

  ghost predicate AllBound(owner: Owner, e: EndpointDef, calls: map<Slug, PlannedCall>) {
    forall s | s in calls :: AuthBound(owner, e.authProviders, calls[s])
  }

  /** The first selected call of the first service whose binding is refused. */
  ghost predicate FirstUnbound(owner: Owner, e: EndpointDef, calls: map<Slug, PlannedCall>, s: Slug) {
    && s in calls && !AuthBound(owner, e.authProviders, calls[s])
    && (forall t | t in calls && calls[t].call.service == calls[s].call.service :: t == s || Less(s, t))
    && (forall t | t in calls && Less(calls[t].call.service, calls[s].call.service) ::
      AuthBound(owner, e.authProviders, calls[t]))
  }

  /**
   An admission error, reported only once every selected call has compiled. Origins come before auth
   bindings, and those before the write ceiling; within one check the first call at fault is named.
   */
  ghost predicate ExplainsAdmission(owner: Owner, e: EndpointDef, calls: map<Slug, PlannedCall>, error: ResolveError) {
    match error
    case OriginNotAllowed(s) =>
      s in calls && !OriginAllowed(calls[s]) && forall t | t in calls && Less(t, s) :: OriginAllowed(calls[t])
    case AuthOriginMismatch(s, provider) =>
      && OriginsAllowed(calls) && FirstUnbound(owner, e, calls, s)
      && var p := owner.providers[calls[s].call.service];
      p.slug == provider && p.boundOrigin != calls[s].origin
    case AuthProviderOutOfScope(s, provider) =>
      && OriginsAllowed(calls) && FirstUnbound(owner, e, calls, s)
      && var p := owner.providers[calls[s].call.service];
      p.slug == provider && p.boundOrigin == calls[s].origin
    case WriteCeilingViolation(s) =>
      && OriginsAllowed(calls) && AllBound(owner, e, calls)
      && s in calls && Exceeds(calls[s].call.access, e.writeCeiling)
      && forall t | t in calls && Less(t, s) :: !Exceeds(calls[t].call.access, e.writeCeiling)
    case _ => false
  }

  ghost predicate ExplainsNaming(owner: Owner, e: EndpointDef, calls: map<Slug, PlannedCall>, error: ResolveError) {
    && error.Naming?
    && (forall s | s in calls :: CallAdmitted(owner, e, calls[s]))
    && ExplainsConflict(e.aliases, ItemsOf(calls, ScriptsOf(owner, e)), error.conflict)
  }

  ghost predicate Explains(owner: Owner, slug: Slug, rows: seq<Slug>, error: ResolveError) {
    if slug !in owner.endpoints then error == EndpointNotFound else
    var e := owner.endpoints[slug];
    ExplainsCall(owner, e, rows, error) ||
    exists calls ::
      Compiled(owner, e, calls) && (ExplainsAdmission(owner, e, calls, error) || ExplainsNaming(owner, e, calls, error))
  }

  lemma AdmittedMeansNoAdmissionError(owner: Owner, e: EndpointDef, calls: map<Slug, PlannedCall>, error: ResolveError)
    requires forall s | s in calls :: CallAdmitted(owner, e, calls[s])
    ensures !ExplainsAdmission(owner, e, calls, error)
  {
  }

  lemma NamedMeansNoConflict(owner: Owner, e: EndpointDef, calls: map<Slug, PlannedCall>, tools: seq<PlannedTool>,
                             error: ResolveError)
    requires Unambiguous(e.aliases) && IsToolList(e.aliases, e.budgets, ItemsOf(calls, ScriptsOf(owner, e)), tools)
    ensures !ExplainsNaming(owner, e, calls, error)
  {
    var items := ItemsOf(calls, ScriptsOf(owner, e));
    ToolListIsUnique(e.aliases, e.budgets, items, tools, tools);
    if error.Naming? {
      NamedMeansUnexplained(e.aliases, items, error.conflict);
    }
  }

  lemma PlansHaveNoLaterError(owner: Owner, slug: Slug, p: EndpointPlan, calls: map<Slug, PlannedCall>,
                              error: ResolveError)
    requires IsPlan(owner, slug, p) && Compiled(owner, owner.endpoints[slug], calls)
    ensures !ExplainsAdmission(owner, owner.endpoints[slug], calls, error)
    ensures !ExplainsNaming(owner, owner.endpoints[slug], calls, error)
  {
    var e := owner.endpoints[slug];
    CompiledOnce(owner, e, calls, p.calls);
    AdmittedMeansNoAdmissionError(owner, e, calls, error);
    NamedMeansNoConflict(owner, e, calls, p.tools, error);
  }

  lemma CompiledMeansNoFailure(owner: Owner, e: EndpointDef, rows: seq<Slug>, calls: map<Slug, PlannedCall>,
                               error: ResolveError)
    requires Compiled(owner, e, calls)
    ensures !ExplainsCall(owner, e, rows, error)
  {
    forall k: nat | k < |rows| && Selects(owner, e, rows[k])
      ensures Compile(owner, rows[k], owner.calls[rows[k]].def).Ok?
    {
      assert rows[k] in calls;
    }
  }

  /** An explained error and a plan exclude each other. */
  lemma ErrorsExcludePlans(owner: Owner, slug: Slug, rows: seq<Slug>, error: ResolveError, p: EndpointPlan)
    requires IsPlan(owner, slug, p)
    ensures !Explains(owner, slug, rows, error)
  {
    var e := owner.endpoints[slug];
    CompiledMeansNoFailure(owner, e, rows, p.calls, error);
    forall calls | Compiled(owner, e, calls)
      ensures !ExplainsAdmission(owner, e, calls, error) && !ExplainsNaming(owner, e, calls, error)
    {
      PlansHaveNoLaterError(owner, slug, p, calls, error);
    }
  }

  lemma OneFirstFailure(owner: Owner, e: EndpointDef, rows: seq<Slug>, k: nat, l: nat, a: ResolveError, b: ResolveError)
    requires FirstFailure(owner, e, rows, k, a) && FirstFailure(owner, e, rows, l, b)
    ensures a == b
  {
    assert k == l;
  }

  lemma OneFirstUnbound(owner: Owner, e: EndpointDef, calls: map<Slug, PlannedCall>, s: Slug, t: Slug)
    requires FirstUnbound(owner, e, calls, s) && FirstUnbound(owner, e, calls, t)
    ensures s == t
  {
    LessIsTotal(calls[s].call.service, calls[t].call.service);
    if s != t {
      LessIsTransitive(s, t, s);
      LessIsStrict(s);
    }
  }

  lemma OneAdmissionError(owner: Owner, e: EndpointDef, calls: map<Slug, PlannedCall>, a: ResolveError, b: ResolveError)
    requires ExplainsAdmission(owner, e, calls, a) && ExplainsAdmission(owner, e, calls, b)
    ensures a == b
  {
    if FirstUnbound(owner, e, calls, a.call) && FirstUnbound(owner, e, calls, b.call) {
      OneFirstUnbound(owner, e, calls, a.call, b.call);
    }
    LessIsTotal(a.call, b.call);
  }

  /** Names are looked at only when every call is admitted. */
  lemma AdmittedOrNot(owner: Owner, e: EndpointDef, calls: map<Slug, PlannedCall>, a: ResolveError, b: ResolveError)
    requires ExplainsAdmission(owner, e, calls, a)
    ensures !ExplainsNaming(owner, e, calls, b)
  {
    assert a.call in calls && !CallAdmitted(owner, e, calls[a.call]);
  }

  lemma LaterErrorsAgree(owner: Owner, e: EndpointDef, calls: map<Slug, PlannedCall>, others: map<Slug, PlannedCall>,
                         a: ResolveError, b: ResolveError)
    requires Compiled(owner, e, calls) && (ExplainsAdmission(owner, e, calls, a) || ExplainsNaming(owner, e, calls, a))
    requires Compiled(owner, e, others)
    requires ExplainsAdmission(owner, e, others, b) || ExplainsNaming(owner, e, others, b)
    ensures a == b
  {
    CompiledOnce(owner, e, calls, others);
    if ExplainsAdmission(owner, e, calls, a) {
      AdmittedOrNot(owner, e, calls, a, b);
      OneAdmissionError(owner, e, calls, a, b);
    } else if ExplainsAdmission(owner, e, calls, b) {
      AdmittedOrNot(owner, e, calls, b, a);
    } else {
      ConflictIsUnique(e.aliases, ItemsOf(calls, ScriptsOf(owner, e)), a.conflict, b.conflict);
    }
  }

  lemma CallErrorsAgree(owner: Owner, e: EndpointDef, rows: seq<Slug>, a: ResolveError, b: ResolveError)
    requires ExplainsCall(owner, e, rows, a) && ExplainsCall(owner, e, rows, b)
    ensures a == b
  {
    var k: nat :| FirstFailure(owner, e, rows, k, a);
    var l: nat :| FirstFailure(owner, e, rows, l, b);
    OneFirstFailure(owner, e, rows, k, l, a, b);
  }

  lemma CallErrorMeansNotCompiled(owner: Owner, e: EndpointDef, rows: seq<Slug>, error: ResolveError)
    requires ExplainsCall(owner, e, rows, error)
    ensures forall calls :: !Compiled(owner, e, calls)
  {
    forall calls ensures !Compiled(owner, e, calls) {
      if Compiled(owner, e, calls) {
        CompiledMeansNoFailure(owner, e, rows, calls, error);
      }
    }
  }

  /** Definitions and the order of their rows determine the error. */
  lemma ErrorIsUnique(owner: Owner, slug: Slug, rows: seq<Slug>, a: ResolveError, b: ResolveError)
    requires Explains(owner, slug, rows, a) && Explains(owner, slug, rows, b)
    ensures a == b
  {
    if slug in owner.endpoints {
      var e := owner.endpoints[slug];
      if ExplainsCall(owner, e, rows, a) {
        CallErrorMeansNotCompiled(owner, e, rows, a);
        CallErrorsAgree(owner, e, rows, a, b);
      } else {
        var calls :| Compiled(owner, e, calls) &&
          (ExplainsAdmission(owner, e, calls, a) || ExplainsNaming(owner, e, calls, a));
        CompiledMeansNoFailure(owner, e, rows, calls, b);
        var others :| Compiled(owner, e, others) &&
          (ExplainsAdmission(owner, e, others, b) || ExplainsNaming(owner, e, others, b));
        LaterErrorsAgree(owner, e, calls, others, a, b);
      }
    }
  }

  // ----- Building it -----

  /** Compiles the selected calls in the order of their rows, up to the first failure. */
  method CompileSelected(owner: Owner, e: EndpointDef, rows: seq<Slug>)
    returns (r: Result<map<Slug, PlannedCall>, ResolveError>)
    requires Lists(rows, owner)
    ensures r.Ok? ==> Compiled(owner, e, r.value)
    ensures r.Err? ==> ExplainsCall(owner, e, rows, r.error)
  {
    var calls: map<Slug, PlannedCall> := map[];
    for k := 0 to |rows|
      invariant forall s :: s in calls <==> s in rows[..k] && Selects(owner, e, s)
      invariant forall s | s in calls :: Compile(owner, s, owner.calls[s].def) == Ok(calls[s])
    {
      var s := rows[k];
      if Eval(e.tagExpr, owner.calls[s].tags) {
        var planned := Compile(owner, s, owner.calls[s].def);
        if planned.Err? {
          assert forall j | 0 <= j < k :: rows[j] in rows[..k];
          assert FirstFailure(owner, e, rows, k, planned.error);
          return Err(planned.error);
        }
        calls := calls[s := planned.value];
      }
    }
    assert rows[..|rows|] == rows;
    r := Ok(calls);
  }

  method SelectScripts(owner: Owner, e: EndpointDef, calls: set<Slug>)
    returns (scripts: map<Slug, ScriptDef>, callableBy: map<Slug, map<string, Slug>>)
    ensures scripts == ScriptsOf(owner, e) && callableBy == CallableBy(scripts, calls)
  {
    scripts, callableBy := map[], map[];
    var left := owner.scripts.Keys;
    while left != {}
      invariant left <= owner.scripts.Keys
      invariant scripts == (map s | s in SelectedScripts(owner, e) && s !in left :: owner.scripts[s].def)
      invariant callableBy == (map s | s in scripts :: Reachable(scripts[s].callable, calls))
    {
      var s :| s in left;
      left := left - {s};
      if Eval(e.tagExpr, owner.scripts[s].tags) {
        callableBy := callableBy[s := Reachable(owner.scripts[s].def.callable, calls)];
        scripts := scripts[s := owner.scripts[s].def];
      }
    }
  }

  method ReachableOrigins(owner: Owner, e: EndpointDef, calls: map<Slug, PlannedCall>)
    returns (r: Result<set<string>, ResolveError>)
    ensures r.Ok? <==> OriginsAllowed(calls)
    ensures r.Ok? ==> r.value == OriginsOf(calls)
    ensures r.Err? ==> r.error.OriginNotAllowed? && ExplainsAdmission(owner, e, calls, r.error)
  {
    var origins: set<string> := {};
    var left := calls.Keys;
    while left != {}
      invariant left <= calls.Keys
      invariant origins == set s | s in calls && s !in left :: calls[s].origin
      invariant forall s | s in calls && s !in left :: OriginAllowed(calls[s])
    {
      var s: Slug := FirstOf(left);
      if calls[s].origin !in calls[s].service.originAllowlist {
        NoneBefore(left, s);
        return Err(OriginNotAllowed(s));
      }
      origins := origins + {calls[s].origin};
      left := left - {s};
    }
    r := Ok(origins);
  }

  ghost predicate FirstOnItsService(calls: map<Slug, PlannedCall>, s: Slug) {
    s in calls && forall t | t in calls && calls[t].call.service == calls[s].call.service :: t == s || Less(s, t)
  }

  /** For each service the first call on it. */
  method Representatives(calls: map<Slug, PlannedCall>) returns (representative: map<Slug, Slug>)
    ensures forall svc | svc in representative ::
      FirstOnItsService(calls, representative[svc]) && calls[representative[svc]].call.service == svc
    ensures forall s | s in calls :: calls[s].call.service in representative
  {
    representative := map[];
    var left := calls.Keys;
    while left != {}
      invariant left <= calls.Keys
      invariant forall svc | svc in representative ::
        && representative[svc] in calls && calls[representative[svc]].call.service == svc
        && (forall t | t in left :: Less(representative[svc], t))
        && (forall t | t in calls && t !in left && calls[t].call.service == svc ::
          t == representative[svc] || Less(representative[svc], t))
      invariant forall s | s in calls && s !in left :: calls[s].call.service in representative
    {
      var s: Slug := FirstOf(left);
      left := left - {s};
      if calls[s].call.service !in representative {
        representative := representative[calls[s].call.service := s];
      }
    }
  }

  method BindingProblem(owner: Owner, e: EndpointDef, calls: map<Slug, PlannedCall>, s: Slug)
    returns (problem: Option<ResolveError>)
    requires OriginsAllowed(calls) && FirstOnItsService(calls, s)
    requires forall t | t in calls && Less(calls[t].call.service, calls[s].call.service) ::
      AuthBound(owner, e.authProviders, calls[t])
    ensures problem.None? <==> AuthBound(owner, e.authProviders, calls[s])
    ensures problem.Some? ==> ExplainsAdmission(owner, e, calls, problem.value)
  {
    if calls[s].call.service in owner.providers {
      var provider := owner.providers[calls[s].call.service];
      if provider.boundOrigin != calls[s].origin {
        return Some(AuthOriginMismatch(s, provider.slug));
      }
      if e.authProviders != {} && provider.slug !in e.authProviders {
        return Some(AuthProviderOutOfScope(s, provider.slug));
      }
    }
    problem := None;
  }

  /** Checks the binding once per service, on the first selected call on it. */
  method AssertBound(owner: Owner, e: EndpointDef, calls: map<Slug, PlannedCall>)
    returns (problem: Option<ResolveError>)
    requires Compiled(owner, e, calls) && OriginsAllowed(calls)
    ensures problem.None? <==> AllBound(owner, e, calls)
    ensures problem.Some? ==> ExplainsAdmission(owner, e, calls, problem.value)
  {
    var representative := Representatives(calls);
    var services := representative.Keys;
    while services != {}
      invariant services <= representative.Keys
      invariant forall s | s in calls && calls[s].call.service !in services ::
        AuthBound(owner, e.authProviders, calls[s])
    {
      var svc: Slug := FirstOf(services);
      NoneBefore(services, svc);
      problem := BindingProblem(owner, e, calls, representative[svc]);
      if problem.Some? {
        return;
      }
      OneBindingPerService(owner, e, calls, representative[svc]);
      services := services - {svc};
    }
    problem := None;
  }

  lemma OneBindingPerService(owner: Owner, e: EndpointDef, calls: map<Slug, PlannedCall>, s: Slug)
    requires Compiled(owner, e, calls) && s in calls && AuthBound(owner, e.authProviders, calls[s])
    ensures forall t | t in calls && calls[t].call.service == calls[s].call.service ::
      AuthBound(owner, e.authProviders, calls[t])
  {
    forall t | t in calls && calls[t].call.service == calls[s].call.service
      ensures AuthBound(owner, e.authProviders, calls[t])
    {
      SameServiceSameOrigin(owner, e, calls, s, t);
    }
  }

  lemma SameServiceSameOrigin(owner: Owner, e: EndpointDef, calls: map<Slug, PlannedCall>, s: Slug, t: Slug)
    requires Compiled(owner, e, calls) && s in calls && t in calls && calls[s].call.service == calls[t].call.service
    ensures calls[s].origin == calls[t].origin
  {
    assert Compile(owner, s, owner.calls[s].def) == Ok(calls[s]);
    assert Compile(owner, t, owner.calls[t].def) == Ok(calls[t]);
  }

  method AssertWriteCeiling(owner: Owner, e: EndpointDef, calls: map<Slug, PlannedCall>)
    returns (problem: Option<ResolveError>)
    requires OriginsAllowed(calls) && AllBound(owner, e, calls)
    ensures problem.None? <==> forall s | s in calls :: !Exceeds(calls[s].call.access, e.writeCeiling)
    ensures problem.Some? ==> ExplainsAdmission(owner, e, calls, problem.value)
  {
    var left := calls.Keys;
    while left != {}
      invariant left <= calls.Keys
      invariant forall s | s in calls && s !in left :: !Exceeds(calls[s].call.access, e.writeCeiling)
    {
      var s: Slug := FirstOf(left);
      if Exceeds(calls[s].call.access, e.writeCeiling) {
        NoneBefore(left, s);
        return Some(WriteCeilingViolation(s));
      }
      left := left - {s};
    }
    problem := None;
  }

  /** The checks on the selected calls, in order; the result is the origins they reach. */
  method AdmitCalls(owner: Owner, e: EndpointDef, calls: map<Slug, PlannedCall>)
    returns (r: Result<set<string>, ResolveError>)
    requires Compiled(owner, e, calls)
    ensures r.Ok? ==> r.value == OriginsOf(calls) && forall s | s in calls :: CallAdmitted(owner, e, calls[s])
    ensures r.Err? ==> ExplainsAdmission(owner, e, calls, r.error)
  {
    r := ReachableOrigins(owner, e, calls);
    if r.Err? {
      return;
    }
    var unbound := AssertBound(owner, e, calls);
    if unbound.Some? {
      return Err(unbound.value);
    }
    var excess := AssertWriteCeiling(owner, e, calls);
    if excess.Some? {
      return Err(excess.value);
    }
  }

  /** `rows` is the order in which the store lists the owner's api_calls. */
  method BuildPlan(owner: Owner, slug: Slug, rows: seq<Slug>) returns (r: Result<EndpointPlan, ResolveError>)
    requires Lists(rows, owner)
    ensures r.Ok? ==> IsPlan(owner, slug, r.value)
    ensures r.Err? ==> Explains(owner, slug, rows, r.error)
  {
    if slug !in owner.endpoints {
      return Err(EndpointNotFound);
    }
    var e := owner.endpoints[slug];
    var compiled := CompileSelected(owner, e, rows);
    if compiled.Err? {
      return Err(compiled.error);
    }
    var calls := compiled.value;
    var scripts, callableBy := SelectScripts(owner, e, calls.Keys);
    var origins := AdmitCalls(owner, e, calls);
    if origins.Err? {
      return Err(origins.error);
    }
    var tools := BuildTools(e.aliases, e.budgets, ItemsOf(calls, scripts));
    if tools.Err? {
      return Err(Naming(tools.error));
    }
    r := Ok(EndpointPlan(slug, e.writeCeiling, e.instructions, tools.value, calls, scripts, callableBy,
                         origins.value, e.budgets));
  }

  // ----- What a plan gives -----

  /**
   A script reaches an alias exactly when it declared it and the endpoint selects the call behind it, and
   whatever it reaches stays within the plan's origins and write ceiling.
   */
  lemma ScriptsReachAdmittedCallsOnly(owner: Owner, slug: Slug, p: EndpointPlan, script: Slug, alias: string)
    requires IsPlan(owner, slug, p) && script in p.callableBy
    ensures script in owner.scripts
    ensures var declared := owner.scripts[script].def.callable;
      && (alias in p.callableBy[script] <==>
            alias in declared && Selects(owner, owner.endpoints[slug], declared[alias]))
      && (alias in p.callableBy[script] ==>
            var target := p.callableBy[script][alias];
            && target == declared[alias] && target in p.calls
            && p.calls[target].origin in p.origins && !Exceeds(p.calls[target].call.access, p.writeCeiling))
  {
    if alias in p.callableBy[script] {
      assert CallAdmitted(owner, owner.endpoints[slug], p.calls[p.callableBy[script][alias]]);
    }
  }
}
