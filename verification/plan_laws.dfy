/** What building a plan comes down to, call by call and tool by tool, in terms of the definitions alone. */
module PlanLaws {
  import opened Wrappers
  import opened Slugs
  import opened Orders
  import opened TagExpressions
  import opened UrlTemplates
  import opened Definitions
  import opened Tools
  import opened Plans

  // ----- Selection -----

  /** `has` selects by tag; `not`, `and` and `or` are complement, intersection and union of what is selected. */
  lemma SelectionFollowsTheExpression(owner: Owner, e: EndpointDef, tag: Slug, a: TagExpr, b: TagExpr)
    ensures SelectedCalls(owner, e.(tagExpr := Has(tag))) == set s | s in owner.calls && tag in owner.calls[s].tags
    ensures var of := (x: TagExpr) => SelectedCalls(owner, e.(tagExpr := x));
      && of(Not(a)) == owner.calls.Keys - of(a) && of(And(a, b)) == of(a) * of(b) && of(Or(a, b)) == of(a) + of(b)
    ensures SelectedScripts(owner, e.(tagExpr := Has(tag))) == set s | s in owner.scripts &&
            tag in owner.scripts[s].tags
    ensures var of := (x: TagExpr) => SelectedScripts(owner, e.(tagExpr := x));
      && of(Not(a)) == owner.scripts.Keys - of(a) && of(And(a, b)) == of(a) * of(b) && of(Or(a, b)) == of(a) + of(b)
  {
  }

  // ----- One call -----

  /** The placeholders of the template are the path params. */
  ghost predicate PathsMatch(template: seq<Segment>, params: seq<Param>) {
    forall name :: Placeholder(name) in template <==> exists p :: p in params && p.location == Path && p.name == name
  }

  ghost predicate FirstMalformed(fields: seq<ProjectionField>, i: nat) {
    i < |fields| && !fields[i].path.wellFormed && forall j | 0 <= j < i :: fields[j].path.wellFormed
  }

  lemma {:induction false} BadFieldIsFirst(fields: seq<ProjectionField>, i: nat, k: nat)
    requires i <= k && FirstMalformed(fields, k)
    ensures BadField(fields, i) == Some(fields[k].name)
    decreases k - i
  {
    if i < k {
      BadFieldIsFirst(fields, i + 1, k);
    }
  }

  lemma {:induction false} NoBadField(fields: seq<ProjectionField>, i: nat)
    requires i <= |fields|
    ensures BadField(fields, i).None? <==> forall k | i <= k < |fields| :: fields[k].path.wellFormed
    decreases |fields| - i
  {
    if i < |fields| {
      NoBadField(fields, i + 1);
    }
  }

  lemma PathsAreCompared(template: seq<Segment>, params: seq<Param>)
    ensures Placeholders(template) == PathParams(params) <==> PathsMatch(template, params)
  {
    assert forall name :: name in Placeholders(template) <==> Placeholder(name) in template;
    assert forall name :: name in PathParams(params) <==>
      exists p :: p in params && p.location == Path && p.name == name;
  }

  /**
   A call compiles exactly when its service is there and every part fits; each failure has its own condition, in
   order.
   */
  lemma CompilesExactlyWhen(owner: Owner, slug: Slug, call: ApiCall)
    ensures var r, template := Compile(owner, slug, call), ParseTemplate(call.pathTemplate);
      if call.service !in owner.services then r == Err(MissingService(slug, call.service)) else
      var service := owner.services[call.service];
      if template.Err? then r == Err(BadTemplate(slug, template.error))
      else if !PathsMatch(template.value, call.params) then r == Err(PathParamMismatch(slug))
      else if service.baseUrl.origin.None? then r == Err(OpaqueOrigin(slug))
      else if call.projection.Some? && exists k: nat :: FirstMalformed(call.projection.value, k)
      then exists k: nat :: FirstMalformed(call.projection.value, k)
                            && r == Err(BadProjection(slug, call.projection.value[k].name))
      else r == Ok(PlannedCall(call, service, service.baseUrl.origin.value, template.value))
  {
    var template := ParseTemplate(call.pathTemplate);
    if template.Ok? {
      PathsAreCompared(template.value, call.params);
    }
    if call.projection.Some? {
      var fields := call.projection.value;
      if k: nat :| FirstMalformed(fields, k) {
        BadFieldIsFirst(fields, 0, k);
      } else {
        SomeMalformed(fields, |fields|);
        NoBadField(fields, 0);
      }
    }
  }

  lemma {:induction false} SomeMalformed(fields: seq<ProjectionField>, n: nat)
    requires n <= |fields| && forall k :: !FirstMalformed(fields, k)
    ensures forall k | 0 <= k < n :: fields[k].path.wellFormed
  {
    if n > 0 {
      SomeMalformed(fields, n - 1);
      assert !FirstMalformed(fields, n - 1);
    }
  }

  /**
   Whatever a plan sends goes to an origin its service allows, under a credential bound to that origin and in
   scope.
   */
  lemma PlansAreAdmitted(owner: Owner, slug: Slug, p: EndpointPlan, s: Slug)
    requires IsPlan(owner, slug, p) && s in p.calls
    ensures s in owner.calls && p.calls[s].call == owner.calls[s].def && p.calls[s].call.service in owner.services
    ensures var service := owner.services[p.calls[s].call.service];
      p.calls[s].service == service && service.baseUrl.origin == Some(p.calls[s].origin)
      && p.calls[s].origin in service.originAllowlist
    ensures p.calls[s].call.service in owner.providers ==>
      var provider, scope := owner.providers[p.calls[s].call.service], owner.endpoints[slug].authProviders;
      provider.boundOrigin == p.calls[s].origin && (provider.slug in scope || scope == {})
  {
    assert CallAdmitted(owner, owner.endpoints[slug], p.calls[s]);
    assert Compile(owner, s, owner.calls[s].def) == Ok(p.calls[s]);
  }

  // ----- The write ceiling -----

  /** A plan under a read ceiling makes no writing call. */
  lemma ReadPlansOnlyRead(owner: Owner, slug: Slug, p: EndpointPlan)
    requires IsPlan(owner, slug, p) && p.writeCeiling == Read
    ensures forall s | s in p.calls :: p.calls[s].call.access == Read
  {
    forall s | s in p.calls ensures p.calls[s].call.access == Read {
      assert CallAdmitted(owner, owner.endpoints[slug], p.calls[s]);
    }
  }

  /** A write ceiling refuses nothing. */
  lemma WriteCeilingsRefuseNothing(owner: Owner, slug: Slug, rows: seq<Slug>, error: ResolveError)
    requires slug in owner.endpoints && owner.endpoints[slug].writeCeiling == Write
    requires Explains(owner, slug, rows, error)
    ensures !error.WriteCeilingViolation?
  {
    var e := owner.endpoints[slug];
    if ExplainsCall(owner, e, rows, error) {
      var k: nat :| FirstFailure(owner, e, rows, k, error);
      CompilesExactlyWhen(owner, rows[k], owner.calls[rows[k]].def);
    }
  }

  /**
   Under a read ceiling, once origins and auth bindings are in order, a selected writing call always fails
   the plan, and the first one is named.
   */
  lemma ReadCeilingsRefuseWrites(owner: Owner, slug: Slug, rows: seq<Slug>, calls: map<Slug, PlannedCall>, first: Slug)
    requires slug in owner.endpoints && owner.endpoints[slug].writeCeiling == Read
    requires Compiled(owner, owner.endpoints[slug], calls)
    requires OriginsAllowed(calls) && AllBound(owner, owner.endpoints[slug], calls)
    requires first in calls && calls[first].call.access == Write
    requires forall t | t in calls && Less(t, first) :: calls[t].call.access == Read
    ensures forall error :: Explains(owner, slug, rows, error) <==> error == WriteCeilingViolation(first)
    ensures forall p :: !IsPlan(owner, slug, p)
  {
    var e := owner.endpoints[slug];
    assert ExplainsAdmission(owner, e, calls, WriteCeilingViolation(first));
    forall error | Explains(owner, slug, rows, error) ensures error == WriteCeilingViolation(first) {
      ErrorIsUnique(owner, slug, rows, error, WriteCeilingViolation(first));
    }
    forall p ensures !IsPlan(owner, slug, p) {
      if IsPlan(owner, slug, p) {
        ErrorsExcludePlans(owner, slug, rows, WriteCeilingViolation(first), p);
      }
    }
  }

  // ----- Tools -----

  /** An item goes by the alias that points to it, or by its slug when none does. */
  ghost predicate GoesBy(aliases: map<string, Target>, t: Target, name: string) {
    if exists alias :: alias in aliases && aliases[alias] == t then name in aliases && aliases[name] == t
    else name == t.slug
  }

  ghost predicate HasTool(tools: seq<PlannedTool>, aliases: map<string, Target>, t: Target, inputs: seq<Param>,
                          budgets: Budgets) {
    exists name :: PlannedTool(name, inputs, t, budgets) in tools && GoesBy(aliases, t, name)
  }

  lemma NamesAreGoneBy(aliases: map<string, Target>, t: Target)
    ensures GoesBy(aliases, t, NameOf(aliases, t))
  {
    if alias :| alias in aliases && aliases[alias] == t {
      assert Names(aliases, alias, t);
    }
  }

  lemma ItemsHaveTools(aliases: map<string, Target>, budgets: Budgets, items: map<Target, Item>,
                       tools: seq<PlannedTool>, t: Target)
    requires IsToolList(aliases, budgets, items, tools) && t in items
    ensures HasTool(tools, aliases, t, items[t].inputs,
                    if items[t].budgets.Some? then Fold(budgets, items[t].budgets.value) else budgets)
  {
    NamesAreGoneBy(aliases, t);
    assert ToolFor(aliases, budgets, items, t) in tools;
  }

  lemma TargetsDiffer(aliases: map<string, Target>, budgets: Budgets, items: map<Target, Item>,
                      tools: seq<PlannedTool>)
    requires IsToolList(aliases, budgets, items, tools)
    ensures forall i, j | 0 <= i < j < |tools| :: tools[i].target != tools[j].target
  {
    forall i, j | 0 <= i < j < |tools| ensures tools[i].target != tools[j].target {
      assert tools[i] in tools && tools[j] in tools;
      LessIsStrict(tools[i].name);
    }
  }

  lemma ItemsAreSelected(calls: map<Slug, PlannedCall>, scripts: map<Slug, ScriptDef>, t: Target)
    ensures t in ItemsOf(calls, scripts) <==> if t.CallTarget? then t.slug in calls else t.slug in scripts
    ensures t in ItemsOf(calls, scripts) && t.CallTarget? ==>
      ItemsOf(calls, scripts)[t] == Item(calls[t.slug].call.params, None)
    ensures t in ItemsOf(calls, scripts) && t.ScriptTarget? ==>
      ItemsOf(calls, scripts)[t] == Item(scripts[t.slug].params, Some(scripts[t.slug].budgets))
  {
  }

  /**
   A plan's tools: one for each selected call, with its params and the endpoint's budgets, one for each selected
   script, with its params and both budgets folded, and no other.
   */
  lemma ToolsOfAPlan(owner: Owner, slug: Slug, p: EndpointPlan)
    requires IsPlan(owner, slug, p)
    ensures forall s | s in p.calls ::
      HasTool(p.tools, owner.endpoints[slug].aliases, CallTarget(s), p.calls[s].call.params, p.budgets)
    ensures forall s | s in p.scripts ::
      HasTool(p.tools, owner.endpoints[slug].aliases, ScriptTarget(s), p.scripts[s].params,
              Fold(p.budgets, p.scripts[s].budgets))
    ensures forall tool | tool in p.tools ::
      if tool.target.CallTarget? then tool.target.slug in p.calls else tool.target.slug in p.scripts
    ensures forall i, j | 0 <= i < j < |p.tools| ::
      p.tools[i].target != p.tools[j].target && Less(p.tools[i].name, p.tools[j].name)
  {
    var e, items := owner.endpoints[slug], ItemsOf(p.calls, p.scripts);
    forall s | s in p.calls
      ensures HasTool(p.tools, e.aliases, CallTarget(s), p.calls[s].call.params, p.budgets)
    {
      ItemsAreSelected(p.calls, p.scripts, CallTarget(s));
      ItemsHaveTools(e.aliases, e.budgets, items, p.tools, CallTarget(s));
    }
    forall s | s in p.scripts
      ensures HasTool(p.tools, e.aliases, ScriptTarget(s), p.scripts[s].params, Fold(p.budgets, p.scripts[s].budgets))
    {
      ItemsAreSelected(p.calls, p.scripts, ScriptTarget(s));
      ItemsHaveTools(e.aliases, e.budgets, items, p.tools, ScriptTarget(s));
    }
    forall tool | tool in p.tools
      ensures if tool.target.CallTarget? then tool.target.slug in p.calls else tool.target.slug in p.scripts
    {
      ItemsAreSelected(p.calls, p.scripts, tool.target);
    }
    TargetsDiffer(e.aliases, e.budgets, items, p.tools);
  }
}
