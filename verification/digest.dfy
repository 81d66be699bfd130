/**
 The digest of a plan: which of a plan's parts go into the hash, and which do not. The hash itself is not
 part of this; plans are compared by what it is taken of.
 */
module Digests {
  import opened Wrappers
  import opened UrlTemplates
  import opened JsonValues
  import opened Slugs
  import opened Orders
  import opened Definitions
  import opened Tools
  import opened Plans
  import R = Rows

  // ----- Input schemas -----

  datatype Property = Property(
    ty: ParamType, description: Option<string>, enumValues: Option<seq<Json>>, default: Option<Json>)

  datatype Schema = Schema(properties: map<Text, Property>, required: seq<Text>)

  function Visible(params: seq<Param>): seq<Param> {
    if params == [] then []
    else Visible(params[..|params| - 1]) + if params[|params| - 1].fixed.None? then [params[|params| - 1]] else []
  }

  function PropertyOf(p: Param): Property {
    Property(p.ty, p.description, p.enumValues, p.default)
  }

  function Properties(params: seq<Param>): map<Text, Property> {
    if params == [] then map[]
    else Properties(params[..|params| - 1])[params[|params| - 1].name := PropertyOf(params[|params| - 1])]
  }

  function Required(params: seq<Param>): seq<Text> {
    if params == [] then []
    else Required(params[..|params| - 1]) + if params[|params| - 1].required then [params[|params| - 1].name] else []
  }

  function SchemaOf(params: seq<Param>): Schema {
    var shown := R.SortParams(Visible(params));
    Schema(Properties(shown), Required(shown))
  }

  /** The schema a tool shows to its callers. */
  method InputSchema(params: seq<Param>) returns (schema: Schema)
    ensures schema == SchemaOf(params)
  {
    var shown := R.SortParams(Visible(params));
    var properties: map<Text, Property>, required: seq<Text> := map[], [];
    for i := 0 to |shown|
      invariant properties == Properties(shown[..i]) && required == Required(shown[..i])
    {
      assert shown[..i + 1][..i] == shown[..i];
      properties := properties[shown[i].name := PropertyOf(shown[i])];
      if shown[i].required {
        required := required + [shown[i].name];
      }
    }
    assert shown[..|shown|] == shown;
    schema := Schema(properties, required);
  }

  lemma {:induction false} VisibleElements(params: seq<Param>)
    ensures forall p :: p in Visible(params) <==> p in params && p.fixed.None?
  {
    if params != [] {
      VisibleElements(params[..|params| - 1]);
      assert params == params[..|params| - 1] + [params[|params| - 1]];
    }
  }

  lemma ShownElements(params: seq<Param>)
    ensures forall p :: p in R.SortParams(Visible(params)) <==> p in params && p.fixed.None?
  {
    VisibleElements(params);
    R.SortParamsElements(Visible(params));
    forall p ensures p in R.SortParams(Visible(params)) <==> p in Visible(params) {
      assert p in multiset(R.SortParams(Visible(params))) <==> p in multiset(Visible(params));
    }
  }

  lemma {:induction false} PropertiesOfDistinct(params: seq<Param>)
    requires forall p, q | p in params && q in params && p.name == q.name :: p == q
    ensures forall p | p in params :: p.name in Properties(params) && Properties(params)[p.name] == PropertyOf(p)
    ensures forall name | name in Properties(params) :: exists p :: p in params && p.name == name
  {
    if params != [] {
      var init, last := params[..|params| - 1], params[|params| - 1];
      assert params == init + [last];
      PropertiesOfDistinct(init);
    }
  }

  /** Distinctly named params each have their property, unless they are fixed. */
  lemma SchemaShowsTheUnfixed(params: seq<Param>, p: Param)
    requires DistinctParams(params) && p in params
    ensures p.name in SchemaOf(params).properties <==> p.fixed.None?
    ensures p.fixed.None? ==>
      SchemaOf(params).properties[p.name] == Property(p.ty, p.description, p.enumValues, p.default)
  {
    ShownElements(params);
    PropertiesOfDistinct(R.SortParams(Visible(params)));
  }

  ghost function RequiredOnes(params: seq<Param>): seq<Param> {
    if params == [] then []
    else RequiredOnes(params[..|params| - 1]) + if params[|params| - 1].required then [params[|params| - 1]] else []
  }

  lemma {:induction false} RequiredOnesElements(params: seq<Param>)
    ensures forall p :: p in RequiredOnes(params) <==> p in params && p.required
  {
    if params != [] {
      var init, last := params[..|params| - 1], params[|params| - 1];
      RequiredOnesElements(init);
      assert params == init + [last];
    }
  }

  lemma {:induction false} RequiredOnesNames(params: seq<Param>)
    ensures |Required(params)| == |RequiredOnes(params)|
    ensures forall i | 0 <= i < |RequiredOnes(params)| :: Required(params)[i] == RequiredOnes(params)[i].name
  {
    if params != [] {
      RequiredOnesNames(params[..|params| - 1]);
    }
  }

  lemma LastPositionIsGreatest(params: seq<Param>, p: Param)
    requires R.InPositionOrder(params) && params != [] && p in params[..|params| - 1]
    ensures p.position < params[|params| - 1].position
  {
    var i :| 0 <= i < |params| - 1 && params[..|params| - 1][i] == p;
    assert params[i].position < params[|params| - 1].position;
  }

  lemma {:induction false} RequiredOnesInOrder(params: seq<Param>)
    requires R.InPositionOrder(params)
    ensures R.InPositionOrder(RequiredOnes(params))
  {
    if params != [] {
      var init := params[..|params| - 1];
      RequiredOnesInOrder(init);
      RequiredOnesElements(init);
      var rows := RequiredOnes(init);
      forall i | 0 <= i < |rows| ensures rows[i].position < params[|params| - 1].position {
        assert rows[i] in rows;
        LastPositionIsGreatest(params, rows[i]);
      }
    }
  }

  lemma {:induction false} VisiblePositions(params: seq<Param>)
    requires R.DistinctPositions(params)
    ensures R.DistinctPositions(Visible(params))
  {
    if params != [] {
      var init, last := params[..|params| - 1], params[|params| - 1];
      VisiblePositions(init);
      VisibleElements(init);
      forall p | p in Visible(init) ensures p.position != last.position {
        var i :| 0 <= i < |init| && init[i] == p;
        assert params[i].position != params[|params| - 1].position;
      }
    }
  }

  /** The schema requires the params that are required and not fixed, by name, in position order. */
  lemma SchemaRequires(params: seq<Param>) returns (rows: seq<Param>)
    requires R.DistinctPositions(params)
    ensures R.InPositionOrder(rows) && forall p :: p in rows <==> p in params && p.required && p.fixed.None?
    ensures |SchemaOf(params).required| == |rows|
    ensures forall i | 0 <= i < |rows| :: SchemaOf(params).required[i] == rows[i].name
  {
    VisiblePositions(params);
    R.SortParamsOrder(Visible(params));
    ShownElements(params);
    RequiredOnesElements(R.SortParams(Visible(params)));
    RequiredOnesNames(R.SortParams(Visible(params)));
    RequiredOnesInOrder(R.SortParams(Visible(params)));
    rows := RequiredOnes(R.SortParams(Visible(params)));
  }

  // ----- What the digest is taken of -----

  /** A missing JSON value and a null one are written alike. */
  function OrNull(j: Option<Json>): Json {
    if j.Some? then j.value else Null
  }

  datatype DigestedParam = DigestedParam(
    name: Text, location: Location, ty: ParamType, required: bool, default: Json, fixed: Json,
    enumValues: Option<seq<Json>>, position: int)

  datatype DigestedField = DigestedField(name: string, path: string, many: bool, coerce: Option<ParamType>)

  datatype DigestedCall = DigestedCall(
    service: Slug, pathTemplate: Text, access: Access, params: seq<DigestedParam>,
    projection: Option<seq<DigestedField>>, request: string)

  datatype DigestedScript = DigestedScript(
    source: string, params: seq<DigestedParam>, callable: map<string, Slug>, budgets: Budgets,
    description: Option<string>)

  datatype DigestedTool = DigestedTool(target: string, inputSchema: Schema, budgets: Budgets)

  datatype Snapshot = Snapshot(
    endpoint: Slug, writeCeiling: Access, budgets: Budgets, calls: map<Slug, DigestedCall>,
    scripts: map<Slug, DigestedScript>, tools: map<string, DigestedTool>)

  function DigestParam(p: Param): DigestedParam {
    DigestedParam(p.name, p.location, p.ty, p.required, OrNull(p.default), OrNull(p.fixed), p.enumValues, p.position)
  }

  function DigestParams(params: seq<Param>): seq<DigestedParam> {
    seq(|params|, i requires 0 <= i < |params| => DigestParam(params[i]))
  }

  function DigestFields(fields: seq<ProjectionField>): seq<DigestedField> {
    seq(|fields|, i requires 0 <= i < |fields| =>
      DigestedField(fields[i].name, fields[i].path.text, fields[i].many, fields[i].coerce))
  }

  function DigestCall(c: ApiCall): DigestedCall {
    DigestedCall(c.service, c.pathTemplate, c.access, DigestParams(c.params),
                 if c.projection.Some? then Some(DigestFields(c.projection.value)) else None, c.request)
  }

  function DigestScript(d: ScriptDef): DigestedScript {
    DigestedScript(d.source, DigestParams(d.params), d.callable, d.budgets, d.description)
  }

  function DigestTool(t: PlannedTool): DigestedTool {
    DigestedTool(TargetKey(t.target), SchemaOf(t.inputs), t.budgets)
  }

  function DigestTools(tools: seq<PlannedTool>): map<string, DigestedTool> {
    if tools == [] then map[]
    else DigestTools(tools[..|tools| - 1])[tools[|tools| - 1].name := DigestTool(tools[|tools| - 1])]
  }

  function DigestInputs(p: EndpointPlan): Snapshot {
    Snapshot(p.slug, p.writeCeiling, p.budgets,
             map s | s in p.calls :: DigestCall(p.calls[s].call),
             map s | s in p.scripts :: DigestScript(p.scripts[s]),
             DigestTools(p.tools))
  }

  // ----- What it leaves out -----

  /** Of a fixed param the schema shows nothing: its description and a null default stay out of the digest. */
  datatype Unshown = Unshown(description: Option<string>, default: Option<Json>)

  function UnshownOf(params: seq<Param>): seq<Option<Unshown>> {
    seq(|params|, i requires 0 <= i < |params| =>
      if params[i].fixed.Some? then Some(Unshown(params[i].description, params[i].default)) else None)
  }

  datatype Remainder = Remainder(
    instructions: Option<string>, services: map<Slug, Service>, descriptions: map<Slug, Option<string>>,
    callParams: map<Slug, seq<Option<Unshown>>>, scriptParams: map<Slug, seq<Option<Unshown>>>)

  /** The parts of a plan that its digest leaves out. */
  function Undigested(p: EndpointPlan): Remainder {
    Remainder(p.instructions,
              map s | s in p.calls :: p.calls[s].service,
              map s | s in p.calls :: p.calls[s].call.description,
              map s | s in p.calls :: UnshownOf(p.calls[s].call.params),
              map s | s in p.scripts :: UnshownOf(p.scripts[s].params))
  }

  /** The tables hold no two params of one name on one call or script. */
  ghost predicate ParamsAreNamedOnce(p: EndpointPlan) {
    && (forall s | s in p.calls :: DistinctParams(p.calls[s].call.params))
    && (forall s | s in p.scripts :: DistinctParams(p.scripts[s].params))
  }

  lemma ParamsAgree(a: seq<Param>, b: seq<Param>)
    requires DistinctParams(a) && DistinctParams(b)
    requires DigestParams(a) == DigestParams(b) && SchemaOf(a) == SchemaOf(b) && UnshownOf(a) == UnshownOf(b)
    ensures a == b
  {
    assert |DigestParams(a)| == |DigestParams(b)|;
    forall i | 0 <= i < |a| ensures a[i] == b[i] {
      assert DigestParams(a)[i] == DigestParams(b)[i] && UnshownOf(a)[i] == UnshownOf(b)[i];
      SchemaShowsTheUnfixed(a, a[i]);
      SchemaShowsTheUnfixed(b, b[i]);
    }
  }

  lemma {:induction false} NoBadField(fields: seq<ProjectionField>, i: nat, k: nat)
    requires i <= k < |fields| && BadField(fields, i).None?
    ensures fields[k].path.wellFormed
    decreases k - i
  {
    if i < k {
      NoBadField(fields, i + 1, k);
    }
  }

  lemma FieldsAgree(a: seq<ProjectionField>, b: seq<ProjectionField>)
    requires BadField(a, 0).None? && BadField(b, 0).None? && DigestFields(a) == DigestFields(b)
    ensures a == b
  {
    assert |DigestFields(a)| == |DigestFields(b)|;
    forall i | 0 <= i < |a| ensures a[i] == b[i] {
      assert DigestFields(a)[i] == DigestFields(b)[i];
      NoBadField(a, 0, i);
      NoBadField(b, 0, i);
    }
  }

  lemma CompiledCallsAgree(a: PlannedCall, b: PlannedCall, s: Slug)
    requires CompileOn(Some(a.service), s, a.call) == Ok(a) && CompileOn(Some(b.service), s, b.call) == Ok(b)
    requires DigestCall(a.call) == DigestCall(b.call) && a.service == b.service
    requires a.call.params == b.call.params && a.call.description == b.call.description
    ensures a == b
  {
    if a.call.projection.Some? {
      FieldsAgree(a.call.projection.value, b.call.projection.value);
    }
  }

  // ----- What every plan keeps to -----

  predicate Selected(p: EndpointPlan, t: Target) {
    if t.CallTarget? then t.slug in p.calls else t.slug in p.scripts
  }

  function InputsOf(p: EndpointPlan, t: Target): seq<Param>
    requires Selected(p, t)
  {
    if t.CallTarget? then p.calls[t.slug].call.params else p.scripts[t.slug].params
  }

  ghost predicate AsCompiled(p: EndpointPlan) {
    forall s | s in p.calls :: CompileOn(Some(p.calls[s].service), s, p.calls[s].call) == Ok(p.calls[s])
  }

  ghost predicate HasTool(p: EndpointPlan, t: Target) {
    exists tool :: tool in p.tools && tool.target == t
  }

  /** The tools, in name order, are those of the selected calls and scripts. */
  ghost predicate AsNamed(p: EndpointPlan) {
    && Increasing(p.tools)
    && (forall t | Selected(p, t) :: HasTool(p, t))
    && (forall tool | tool in p.tools :: Selected(p, tool.target) && tool.inputs == InputsOf(p, tool.target))
  }

  lemma CompiledOnItsService(owner: Owner, s: Slug, def: ApiCall, planned: PlannedCall)
    requires Compile(owner, s, def) == Ok(planned)
    ensures CompileOn(Some(planned.service), s, planned.call) == Ok(planned)
  {
  }

  lemma PlansAreCompiled(owner: Owner, slug: Slug, p: EndpointPlan)
    requires IsPlan(owner, slug, p)
    ensures AsCompiled(p)
  {
    forall s | s in p.calls ensures CompileOn(Some(p.calls[s].service), s, p.calls[s].call) == Ok(p.calls[s]) {
      CompiledOnItsService(owner, s, owner.calls[s].def, p.calls[s]);
    }
  }

  lemma PlansHaveTools(owner: Owner, slug: Slug, p: EndpointPlan, t: Target)
    requires IsPlan(owner, slug, p) && Selected(p, t)
    ensures HasTool(p, t)
  {
    var e, items := owner.endpoints[slug], ItemsOf(p.calls, p.scripts);
    assert t in items;
    assert ToolFor(e.aliases, e.budgets, items, t) in p.tools;
  }

  lemma ToolsAreOfPlans(owner: Owner, slug: Slug, p: EndpointPlan, tool: PlannedTool)
    requires IsPlan(owner, slug, p) && tool in p.tools
    ensures Selected(p, tool.target) && tool.inputs == InputsOf(p, tool.target)
  {
    assert tool.target in ItemsOf(p.calls, p.scripts);
  }

  lemma PlansAreNamed(owner: Owner, slug: Slug, p: EndpointPlan)
    requires IsPlan(owner, slug, p)
    ensures AsNamed(p)
  {
    forall t | Selected(p, t) ensures HasTool(p, t) {
      PlansHaveTools(owner, slug, p, t);
    }
    forall tool | tool in p.tools ensures Selected(p, tool.target) && tool.inputs == InputsOf(p, tool.target) {
      ToolsAreOfPlans(owner, slug, p, tool);
    }
  }

  // ----- Tools by name -----

  lemma {:induction false} DigestToolsByName(tools: seq<PlannedTool>)
    requires DistinctToolNames(tools)
    ensures forall t | t in tools :: t.name in DigestTools(tools) && DigestTools(tools)[t.name] == DigestTool(t)
    ensures forall name | name in DigestTools(tools) :: exists t :: t in tools && t.name == name
  {
    if tools != [] {
      var init, last := tools[..|tools| - 1], tools[|tools| - 1];
      assert tools == init + [last];
      DigestToolsByName(init);
    }
  }

  lemma IncreasingIsDistinct(tools: seq<PlannedTool>)
    requires Increasing(tools)
    ensures DistinctToolNames(tools)
  {
    forall i, j | 0 <= i < j < |tools| ensures tools[i].name != tools[j].name {
      LessIsStrict(tools[i].name);
    }
  }

  /** A tool of one list is there in any other list of the same digest, up to what its schema leaves out. */
  lemma SameTool(a: seq<PlannedTool>, b: seq<PlannedTool>, tool: PlannedTool) returns (twin: PlannedTool)
    requires Increasing(a) && Increasing(b) && DigestTools(a) == DigestTools(b) && tool in a
    ensures twin in b && twin.name == tool.name && twin.target == tool.target && twin.budgets == tool.budgets
    ensures SchemaOf(twin.inputs) == SchemaOf(tool.inputs)
  {
    IncreasingIsDistinct(a);
    IncreasingIsDistinct(b);
    DigestToolsByName(a);
    DigestToolsByName(b);
    assert tool.name in DigestTools(b);
    twin :| twin in b && twin.name == tool.name;
    TargetKeyIsInjective(twin.target, tool.target);
  }

  // ----- Equal digests -----

  lemma SameSchema(p: EndpointPlan, q: EndpointPlan, t: Target)
    requires AsNamed(p) && AsNamed(q) && DigestInputs(p) == DigestInputs(q) && Selected(p, t) && Selected(q, t)
    ensures SchemaOf(InputsOf(p, t)) == SchemaOf(InputsOf(q, t))
  {
    assert HasTool(p, t);
    var tool :| tool in p.tools && tool.target == t;
    assert DigestTools(p.tools) == DigestInputs(p).tools == DigestTools(q.tools);
    var twin := SameTool(p.tools, q.tools, tool);
  }

  lemma SameKeys(p: EndpointPlan, q: EndpointPlan)
    requires DigestInputs(p) == DigestInputs(q)
    ensures p.calls.Keys == q.calls.Keys && p.scripts.Keys == q.scripts.Keys
    ensures forall s | s in p.calls :: DigestCall(p.calls[s].call) == DigestCall(q.calls[s].call)
    ensures forall s | s in p.scripts :: DigestScript(p.scripts[s]) == DigestScript(q.scripts[s])
  {
    assert p.calls.Keys == DigestInputs(p).calls.Keys == DigestInputs(q).calls.Keys == q.calls.Keys;
    assert p.scripts.Keys == DigestInputs(p).scripts.Keys == DigestInputs(q).scripts.Keys == q.scripts.Keys;
    forall s | s in p.calls ensures DigestCall(p.calls[s].call) == DigestCall(q.calls[s].call) {
      assert DigestInputs(p).calls[s] == DigestInputs(q).calls[s];
    }
    forall s | s in p.scripts ensures DigestScript(p.scripts[s]) == DigestScript(q.scripts[s]) {
      assert DigestInputs(p).scripts[s] == DigestInputs(q).scripts[s];
    }
  }

  lemma SameCallRemainder(p: EndpointPlan, q: EndpointPlan, s: Slug)
    requires Undigested(p) == Undigested(q) && s in p.calls && s in q.calls
    ensures p.calls[s].service == q.calls[s].service && p.calls[s].call.description == q.calls[s].call.description
    ensures UnshownOf(p.calls[s].call.params) == UnshownOf(q.calls[s].call.params)
  {
    assert Undigested(p).services[s] == Undigested(q).services[s];
    assert Undigested(p).descriptions[s] == Undigested(q).descriptions[s];
    assert Undigested(p).callParams[s] == Undigested(q).callParams[s];
  }

  lemma SameScriptRemainder(p: EndpointPlan, q: EndpointPlan, s: Slug)
    requires Undigested(p) == Undigested(q) && s in p.scripts && s in q.scripts
    ensures UnshownOf(p.scripts[s].params) == UnshownOf(q.scripts[s].params)
  {
    assert Undigested(p).scriptParams[s] == Undigested(q).scriptParams[s];
  }

  lemma CallsAgree(p: EndpointPlan, q: EndpointPlan)
    requires AsNamed(p) && AsNamed(q) && AsCompiled(p) && AsCompiled(q)
    requires ParamsAreNamedOnce(p) && ParamsAreNamedOnce(q)
    requires DigestInputs(p) == DigestInputs(q) && Undigested(p) == Undigested(q)
    ensures p.calls == q.calls
  {
    SameKeys(p, q);
    forall s | s in p.calls ensures p.calls[s] == q.calls[s] {
      SameCallRemainder(p, q, s);
      SameSchema(p, q, CallTarget(s));
      ParamsAgree(p.calls[s].call.params, q.calls[s].call.params);
      CompiledCallsAgree(p.calls[s], q.calls[s], s);
    }
  }

  lemma ScriptsAgree(p: EndpointPlan, q: EndpointPlan)
    requires AsNamed(p) && AsNamed(q) && ParamsAreNamedOnce(p) && ParamsAreNamedOnce(q)
    requires DigestInputs(p) == DigestInputs(q) && Undigested(p) == Undigested(q)
    ensures p.scripts == q.scripts
  {
    SameKeys(p, q);
    forall s | s in p.scripts ensures p.scripts[s] == q.scripts[s] {
      SameScriptRemainder(p, q, s);
      SameSchema(p, q, ScriptTarget(s));
      ParamsAgree(p.scripts[s].params, q.scripts[s].params);
    }
  }

  lemma ToolsAreShared(p: EndpointPlan, q: EndpointPlan)
    requires AsNamed(p) && AsNamed(q) && DigestTools(p.tools) == DigestTools(q.tools)
    requires p.calls == q.calls && p.scripts == q.scripts
    ensures Elements(p.tools) <= Elements(q.tools)
  {
    forall tool | tool in p.tools ensures tool in q.tools {
      var twin := SameTool(p.tools, q.tools, tool);
      assert twin.inputs == InputsOf(q, tool.target) == InputsOf(p, tool.target) == tool.inputs;
      assert twin == tool;
    }
  }

  lemma ToolsAgree(p: EndpointPlan, q: EndpointPlan)
    requires AsNamed(p) && AsNamed(q) && DigestInputs(p) == DigestInputs(q)
    requires p.calls == q.calls && p.scripts == q.scripts
    ensures p.tools == q.tools
  {
    assert DigestTools(p.tools) == DigestInputs(p).tools == DigestTools(q.tools);
    ToolsAreShared(p, q);
    ToolsAreShared(q, p);
    IncreasingListsAreEqual(p.tools, q.tools);
  }

  lemma PartsDecide(owner: Owner, slug: Slug, p: EndpointPlan, other: Owner, name: Slug, q: EndpointPlan)
    requires IsPlan(owner, slug, p) && IsPlan(other, name, q)
    requires p.calls == q.calls && p.scripts == q.scripts && p.tools == q.tools
    requires p.slug == q.slug && p.writeCeiling == q.writeCeiling && p.budgets == q.budgets
    requires p.instructions == q.instructions
    ensures p == q
  {
  }

  /** Two plans of one digest are the same plan exactly when what the digest leaves out is the same too. */
  lemma DigestDecidesUpToUndigested(owner: Owner, slug: Slug, p: EndpointPlan, other: Owner, name: Slug,
                                    q: EndpointPlan)
    requires IsPlan(owner, slug, p) && IsPlan(other, name, q)
    requires ParamsAreNamedOnce(p) && ParamsAreNamedOnce(q)
    requires DigestInputs(p) == DigestInputs(q)
    ensures p == q <==> Undigested(p) == Undigested(q)
  {
    if Undigested(p) == Undigested(q) {
      PlansAreCompiled(owner, slug, p);
      PlansAreCompiled(other, name, q);
      PlansAreNamed(owner, slug, p);
      PlansAreNamed(other, name, q);
      CallsAgree(p, q);
      ScriptsAgree(p, q);
      ToolsAgree(p, q);
      PartsDecide(owner, slug, p, other, name, q);
    }
  }

  // ----- A change the digest does not see -----

  function Moved(p: PlannedCall, svc: Slug, row: Service): PlannedCall
    requires row.baseUrl.origin.Some?
  {
    if p.call.service == svc then p.(service := row, origin := row.baseUrl.origin.value) else p
  }

  function MovedCalls(calls: map<Slug, PlannedCall>, svc: Slug, row: Service): map<Slug, PlannedCall>
    requires row.baseUrl.origin.Some?
  {
    map s | s in calls :: Moved(calls[s], svc, row)
  }

  function MovedPlan(p: EndpointPlan, svc: Slug, row: Service): EndpointPlan
    requires row.baseUrl.origin.Some?
  {
    var calls := MovedCalls(p.calls, svc, row);
    p.(calls := calls, origins := OriginsOf(calls))
  }

  lemma MovedCallCompiles(owner: Owner, s: Slug, def: ApiCall, planned: PlannedCall, svc: Slug, row: Service)
    requires Compile(owner, s, def) == Ok(planned) && row.baseUrl.origin.Some?
    ensures Compile(owner.(services := owner.services[svc := row]), s, def) == Ok(Moved(planned, svc, row))
  {
  }

  lemma MovedIsCompiled(owner: Owner, e: EndpointDef, calls: map<Slug, PlannedCall>, svc: Slug, row: Service)
    requires Compiled(owner, e, calls) && row.baseUrl.origin.Some?
    ensures Compiled(owner.(services := owner.services[svc := row]), e, MovedCalls(calls, svc, row))
  {
    var after := owner.(services := owner.services[svc := row]);
    var moved := MovedCalls(calls, svc, row);
    assert SelectedCalls(after, e) == SelectedCalls(owner, e) == moved.Keys;
    forall s | s in moved ensures Compile(after, s, after.calls[s].def) == Ok(moved[s]) {
      MovedCallCompiles(owner, s, owner.calls[s].def, calls[s], svc, row);
    }
  }

  lemma MovedIsAdmitted(owner: Owner, e: EndpointDef, planned: PlannedCall, svc: Slug, row: Service)
    requires CallAdmitted(owner, e, planned)
    requires row.baseUrl.origin.Some? && row.baseUrl.origin.value in row.originAllowlist
    requires svc in owner.providers ==> owner.providers[svc].boundOrigin == row.baseUrl.origin.value
    ensures CallAdmitted(owner.(services := owner.services[svc := row]), e, Moved(planned, svc, row))
  {
  }

  lemma MovedItems(calls: map<Slug, PlannedCall>, scripts: map<Slug, ScriptDef>, svc: Slug, row: Service)
    requires row.baseUrl.origin.Some?
    ensures ItemsOf(MovedCalls(calls, svc, row), scripts) == ItemsOf(calls, scripts)
  {
    assert MovedCalls(calls, svc, row).Keys == calls.Keys;
  }

  lemma MovedDigest(p: EndpointPlan, svc: Slug, row: Service)
    requires row.baseUrl.origin.Some?
    ensures DigestInputs(MovedPlan(p, svc, row)) == DigestInputs(p)
  {
    assert DigestInputs(MovedPlan(p, svc, row)).calls == DigestInputs(p).calls;
  }

  /**
   Another service row under the same calls, with another base URL: the digest is the same, and the calls
   on that service go to the new origin.
   */
  lemma ServiceRowsAreNotDigested(owner: Owner, slug: Slug, p: EndpointPlan, svc: Slug, row: Service)
    requires IsPlan(owner, slug, p)
    requires row.baseUrl.origin.Some? && row.baseUrl.origin.value in row.originAllowlist
    requires svc in owner.providers ==> owner.providers[svc].boundOrigin == row.baseUrl.origin.value
    ensures var q := MovedPlan(p, svc, row);
      && IsPlan(owner.(services := owner.services[svc := row]), slug, q)
      && DigestInputs(q) == DigestInputs(p)
      && forall s | s in p.calls && p.calls[s].call.service == svc :: q.calls[s].origin == row.baseUrl.origin.value
  {
    var e := owner.endpoints[slug];
    var after := owner.(services := owner.services[svc := row]);
    var q := MovedPlan(p, svc, row);
    MovedIsCompiled(owner, e, p.calls, svc, row);
    forall s | s in q.calls ensures CallAdmitted(after, e, q.calls[s]) {
      MovedIsAdmitted(owner, e, p.calls[s], svc, row);
    }
    MovedItems(p.calls, p.scripts, svc, row);
    MovedDigest(p, svc, row);
    assert ScriptsOf(after, e) == ScriptsOf(owner, e);
    assert q.calls.Keys == p.calls.Keys;
  }
}
