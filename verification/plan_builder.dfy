/**
 Building a plan by store reads, one at a time, as the plan cache's readers do: the endpoint, the listed
 api_calls and scripts, for each row the tables that hold the rest of it, the service of each selected
 call, the auth provider of each service.

 Between two reads the definitions may change. While they stand still, the build returns exactly the plan.
 */
module PlanBuilding {
  import opened Wrappers
  import opened Slugs
  import opened Orders
  import opened TagExpressions
  import opened Definitions
  import opened Tools
  import opened Plans
  import C = PlanCaches

  // ----- What the reads return -----

  function OwnerOf(store: C.Store, id: string): Owner {
    if id in store then store[id] else EMPTY
  }

  /** The order in which the store lists rows; which order it is does not matter. */
  ghost function Listing(slugs: set<Slug>): (rows: seq<Slug>)
    ensures forall s :: s in rows <==> s in slugs
  {
    if slugs == {} then [] else var s :| s in slugs; [s] + Listing(slugs - {s})
  }

  function BareCall(c: ApiCall): ApiCall {
    c.(params := [])
  }

  function BareScript(d: ScriptDef): ScriptDef {
    d.(params := [], callable := map[])
  }

  ghost function CallListing(owner: Owner): seq<(Slug, ApiCall)> {
    var rows := Listing(owner.calls.Keys);
    seq(|rows|, i requires 0 <= i < |rows| =>
      assert rows[i] in owner.calls; (rows[i], BareCall(owner.calls[rows[i]].def)))
  }

  ghost function ScriptListing(owner: Owner): seq<(Slug, ScriptDef)> {
    var rows := Listing(owner.scripts.Keys);
    seq(|rows|, i requires 0 <= i < |rows| =>
      assert rows[i] in owner.scripts; (rows[i], BareScript(owner.scripts[rows[i]].def)))
  }

  function BareEndpoint(e: EndpointDef): EndpointDef {
    e.(aliases := map[], authProviders := {})
  }

  function EndpointOf(owner: Owner, slug: Slug): Option<EndpointDef> {
    if slug in owner.endpoints then Some(BareEndpoint(owner.endpoints[slug])) else None
  }

  // The columns that live in tables of their own; they are empty once the row is gone.

  function AliasesOf(owner: Owner, slug: Slug): map<string, Target> {
    if slug in owner.endpoints then owner.endpoints[slug].aliases else map[]
  }

  function ScopeOf(owner: Owner, slug: Slug): set<Slug> {
    if slug in owner.endpoints then owner.endpoints[slug].authProviders else {}
  }

  function CallParams(owner: Owner, s: Slug): seq<Param> {
    if s in owner.calls then owner.calls[s].def.params else []
  }

  function ScriptParams(owner: Owner, s: Slug): seq<Param> {
    if s in owner.scripts then owner.scripts[s].def.params else []
  }

  function CallableOf(owner: Owner, s: Slug): map<string, Slug> {
    if s in owner.scripts then owner.scripts[s].def.callable else map[]
  }

  function TagsOf<T>(rows: map<Slug, Tagged<T>>, s: Slug): set<Slug> {
    if s in rows then rows[s].tags else {}
  }

  // ----- The build between two reads -----

  /**
   `seen` holds the api_calls and scripts read so far and `order` the slugs of those calls as listed; the
   other lists and sets are what is still to be read. `params` and `callable` are the columns already read of
   the first row still to be read.
   */
  datatype Progress =
    | Beginning
    | ReadingAliases(e: EndpointDef)
    | ReadingScope(e: EndpointDef)
    | ListingCalls(e: EndpointDef)
    | ReadingCalls(e: EndpointDef, seen: Owner, order: seq<Slug>, calls: seq<(Slug, ApiCall)>,
                   params: Option<seq<Param>>)
    | ListingScripts(e: EndpointDef, seen: Owner, order: seq<Slug>)
    | ReadingScripts(e: EndpointDef, seen: Owner, order: seq<Slug>, scripts: seq<(Slug, ScriptDef)>,
                     params: Option<seq<Param>>, callable: Option<map<string, Slug>>)
    | Compiling(e: EndpointDef, seen: Owner, rows: seq<Slug>, planned: map<Slug, PlannedCall>)
    | Binding(e: EndpointDef, seen: Owner, planned: map<Slug, PlannedCall>, services: set<Slug>)
    | Finished(result: Result<EndpointPlan, ResolveError>)

  function ServicesOf(planned: map<Slug, PlannedCall>): set<Slug> {
    set s | s in planned :: planned[s].call.service
  }

  function CallsOn(planned: map<Slug, PlannedCall>, service: Slug): set<Slug> {
    set s | s in planned && planned[s].call.service == service
  }

  ghost function AfterCalls(e: EndpointDef, seen: Owner, order: seq<Slug>, calls: seq<(Slug, ApiCall)>): Progress {
    if calls == [] then ListingScripts(e, seen, order) else ReadingCalls(e, seen, order, calls, None)
  }

  ghost function AfterScripts(slug: Slug, e: EndpointDef, seen: Owner, order: seq<Slug>,
                              scripts: seq<(Slug, ScriptDef)>): Progress {
    if scripts == [] then AfterCompiling(slug, e, seen, order, map[])
    else ReadingScripts(e, seen, order, scripts, None, None)
  }

  ghost function AfterCompiling(slug: Slug, e: EndpointDef, seen: Owner, rows: seq<Slug>,
                                planned: map<Slug, PlannedCall>): Progress {
    if rows == [] then AfterOrigins(slug, e, seen, planned)
    else if Selects(seen, e, rows[0]) then Compiling(e, seen, rows, planned)
    else AfterCompiling(slug, e, seen, rows[1..], planned)
  }

  ghost function AfterOrigins(slug: Slug, e: EndpointDef, seen: Owner, planned: map<Slug, PlannedCall>): Progress {
    var refused := set s | s in planned && !OriginAllowed(planned[s]);
    if refused != {} then Finished(Err(OriginNotAllowed(LeastOf(refused))))
    else AfterBinding(slug, e, seen, planned, ServicesOf(planned))
  }

  ghost function AfterBinding(slug: Slug, e: EndpointDef, seen: Owner, planned: map<Slug, PlannedCall>,
                              services: set<Slug>): Progress {
    if services != {} then Binding(e, seen, planned, services) else Finished(Conclude(slug, e, seen, planned))
  }

  /** Names the tools of the compiled calls and the selected scripts. */
  ghost function Named(slug: Slug, e: EndpointDef, scripts: map<Slug, ScriptDef>, planned: map<Slug, PlannedCall>)
    : Result<EndpointPlan, ResolveError>
  {
    var items := ItemsOf(planned, scripts);
    ToolsOrConflict(e.aliases, e.budgets, items);
    if Unambiguous(e.aliases) && exists tools :: IsToolList(e.aliases, e.budgets, items, tools) then
      var tools :| IsToolList(e.aliases, e.budgets, items, tools);
      Ok(EndpointPlan(slug, e.writeCeiling, e.instructions, tools, planned, scripts, CallableBy(scripts, planned.Keys),
                      OriginsOf(planned), e.budgets))
    else
      var conflict :| ExplainsConflict(e.aliases, items, conflict);
      Err(Naming(conflict))
  }

  /** The checks and steps that need no more reads. */
  ghost function Conclude(slug: Slug, e: EndpointDef, seen: Owner,
                          planned: map<Slug, PlannedCall>): Result<EndpointPlan, ResolveError> {
    var excess := set s | s in planned && Exceeds(planned[s].call.access, e.writeCeiling);
    if excess != {} then Err(WriteCeilingViolation(LeastOf(excess))) else Named(slug, e, ScriptsOf(seen, e), planned)
  }

  /** What a provider row means for the first call on its service. */
  function BindingProblemOn(found: Option<AuthProvider>, e: EndpointDef, s: Slug,
                            planned: PlannedCall): Option<ResolveError> {
    if found.None? then None
    else if found.value.boundOrigin != planned.origin then Some(AuthOriginMismatch(s, found.value.slug))
    else if e.authProviders != {} && found.value.slug !in e.authProviders
    then Some(AuthProviderOutOfScope(s, found.value.slug))
    else None
  }

  ghost function AfterProvider(slug: Slug, p: Progress, found: Option<AuthProvider>): Progress
    requires p.Binding? && p.services != {}
  {
    var service := LeastOf(p.services);
    var on := CallsOn(p.planned, service);
    var problem := if on == {} then None else BindingProblemOn(found, p.e, LeastOf(on), p.planned[LeastOf(on)]);
    if problem.Some? then Finished(Err(problem.value))
    else AfterBinding(slug, p.e, p.seen, p.planned, p.services - {service})
  }

  ghost function AfterService(slug: Slug, p: Progress, found: Option<Service>): Progress
    requires p.Compiling? && p.rows != [] && p.rows[0] in p.seen.calls
  {
    var s := p.rows[0];
    match CompileOn(found, s, p.seen.calls[s].def)
    case Err(error) => Finished(Err(error))
    case Ok(planned) => AfterCompiling(slug, p.e, p.seen, p.rows[1..], p.planned[s := planned])
  }

  ghost function AddCall(p: Progress, params: seq<Param>, tags: set<Slug>): Progress
    requires p.ReadingCalls? && p.calls != []
  {
    var (s, row) := p.calls[0];
    AfterCalls(p.e, p.seen.(calls := p.seen.calls[s := Tagged(row.(params := params), tags)]), p.order + [s],
               p.calls[1..])
  }

  ghost function AddedScript(p: Progress, params: seq<Param>, callable: map<string, Slug>, tags: set<Slug>): Owner
    requires p.ReadingScripts? && p.scripts != []
  {
    var (s, row) := p.scripts[0];
    p.seen.(scripts := p.seen.scripts[s := Tagged(row.(params := params, callable := callable), tags)])
  }

  ghost function AddScript(slug: Slug, p: Progress, params: seq<Param>, callable: map<string, Slug>,
                           tags: set<Slug>): Progress
    requires p.ReadingScripts? && p.scripts != []
  {
    AfterScripts(slug, p.e, AddedScript(p, params, callable, tags), p.order, p.scripts[1..])
  }

  /** The params of a row are read first, then what a script may call, then the tags. */
  function CallColumn(owner: Owner, s: Slug, params: Option<seq<Param>>): C.Answer {
    if params.None? then C.Params(CallParams(owner, s)) else C.Tags(TagsOf(owner.calls, s))
  }

  function ScriptColumn(owner: Owner, s: Slug, params: Option<seq<Param>>, callable: Option<map<string, Slug>>)
    : C.Answer
  {
    if params.None? then C.Params(ScriptParams(owner, s))
    else if callable.None? then C.Callable(CallableOf(owner, s))
    else C.Tags(TagsOf(owner.scripts, s))
  }

  /** The endpoint is gone; an answer of another kind than the one asked for never comes. */
  const UNASKED := Finished(Err(EndpointNotFound))

  function AfterEndpointRow(a: C.Answer): Progress {
    if a.EndpointRow? && a.endpoint.Some? then ReadingAliases(a.endpoint.value) else UNASKED
  }

  ghost function AfterCallColumn(p: Progress, a: C.Answer): Progress
    requires p.ReadingCalls? && p.calls != []
  {
    if p.params.None? && a.Params? then ReadingCalls(p.e, p.seen, p.order, p.calls, Some(a.params))
    else if p.params.Some? && a.Tags? then AddCall(p, p.params.value, a.tags)
    else UNASKED
  }

  ghost function AfterScriptColumn(slug: Slug, p: Progress, a: C.Answer): Progress
    requires p.ReadingScripts? && p.scripts != []
  {
    if p.params.None? && a.Params? then ReadingScripts(p.e, p.seen, p.order, p.scripts, Some(a.params), p.callable)
    else if p.params.Some? && p.callable.None? && a.Callable?
    then ReadingScripts(p.e, p.seen, p.order, p.scripts, p.params, Some(a.callable))
    else if p.params.Some? && p.callable.Some? && a.Tags?
    then AddScript(slug, p, p.params.value, p.callable.value, a.tags)
    else UNASKED
  }

  /** There is a row, or a list of rows, to read next. */
  ghost predicate Reads(p: Progress) {
    match p
    case Finished(_) => false
    case ReadingCalls(_, _, _, calls, _) => calls != []
    case ReadingScripts(_, _, _, scripts, _, _) => scripts != []
    case Compiling(_, seen, rows, _) => rows != [] && rows[0] in seen.calls
    case Binding(_, _, _, services) => services != {}
    case _ => true
  }

  /** The answer to the read that `p` asks for. */
  ghost function AnswerFor(owner: Owner, slug: Slug, p: Progress): C.Answer
    requires Reads(p)
  {
    match p
    case Beginning => C.EndpointRow(EndpointOf(owner, slug))
    case ReadingAliases(_) => C.Aliases(AliasesOf(owner, slug))
    case ReadingScope(_) => C.Scope(ScopeOf(owner, slug))
    case ListingCalls(_) => C.CallRows(CallListing(owner))
    case ReadingCalls(_, _, _, calls, params) => CallColumn(owner, calls[0].0, params)
    case ListingScripts(_, _, _) => C.ScriptRows(ScriptListing(owner))
    case ReadingScripts(_, _, _, scripts, params, callable) => ScriptColumn(owner, scripts[0].0, params, callable)
    case Compiling(_, seen, rows, _) => C.ServiceRow(Lookup(owner.services, seen.calls[rows[0]].def.service))
    case Binding(_, _, _, services) => C.ProviderRow(Lookup(owner.providers, LeastOf(services)))
  }

  ghost function Advance(slug: Slug, p: Progress, a: C.Answer): Progress
    requires Reads(p)
  {
    match p
    case Beginning => AfterEndpointRow(a)
    case ReadingAliases(e) => if a.Aliases? then ReadingScope(e.(aliases := a.aliases)) else UNASKED
    case ReadingScope(e) => if a.Scope? then ListingCalls(e.(authProviders := a.scope)) else UNASKED
    case ListingCalls(e) => if a.CallRows? then AfterCalls(e, EMPTY, [], a.calls) else UNASKED
    case ReadingCalls(_, _, _, _, _) => AfterCallColumn(p, a)
    case ListingScripts(e, seen, order) =>
      if a.ScriptRows? then AfterScripts(slug, e, seen, order, a.scripts) else UNASKED
    case ReadingScripts(_, _, _, _, _, _) => AfterScriptColumn(slug, p, a)
    case Compiling(_, _, _, _) => if a.ServiceRow? then AfterService(slug, p, a.service) else UNASKED
    case Binding(_, _, _, _) => if a.ProviderRow? then AfterProvider(slug, p, a.provider) else UNASKED
  }

  ghost function ProgressOf(slug: Slug, answers: seq<C.Answer>): Progress {
    if answers == [] then Beginning else
    var before := ProgressOf(slug, answers[..|answers| - 1]);
    if Reads(before) then Advance(slug, before, answers[|answers| - 1]) else before
  }

  ghost function ActionOf(key: C.Key, p: Progress): C.Action {
    if Reads(p) then C.Ask(store => AnswerFor(OwnerOf(store, key.0), key.1, p))
    else C.Return(if p.Finished? then p.result else Err(EndpointNotFound))
  }

  /** The builder that reads and compiles as `build_plan` does. */
  ghost function TheBuilder(): C.Builder {
    C.Builder((key: C.Key, answers) => ActionOf(key, ProgressOf(key.1, answers)))
  }

  // ----- Every build ends -----

  ghost function Phase(p: Progress): nat {
    match p
    case Beginning => 9
    case ReadingAliases(_) => 8
    case ReadingScope(_) => 7
    case ListingCalls(_) => 6
    case ReadingCalls(_, _, _, _, _) => 5
    case ListingScripts(_, _, _) => 4
    case ReadingScripts(_, _, _, _, _, _) => 3
    case Compiling(_, _, _, _) => 2
    case Binding(_, _, _, _) => 1
    case Finished(_) => 0
  }

  function Missing<T>(column: Option<T>): nat {
    if column.None? then 1 else 0
  }

  /** How many reads are left in this phase, or a few more; a later phase may bring any number of new ones. */
  ghost function Left(p: Progress): nat {
    match p
    case ReadingCalls(_, _, _, calls, params) => 2 * |calls| + Missing(params)
    case ReadingScripts(_, _, _, scripts, params, callable) => 3 * |scripts| + Missing(params) + Missing(callable)
    case Compiling(_, _, rows, _) => |rows|
    case Binding(_, _, _, services) => |services|
    case _ => 0
  }

  lemma {:induction false} AfterCompilingShrinks(slug: Slug, e: EndpointDef, seen: Owner, rows: seq<Slug>,
                                                 planned: map<Slug, PlannedCall>)
    ensures var p := AfterCompiling(slug, e, seen, rows, planned); Phase(p) < 2 || (Phase(p) == 2 && Left(p) <= |rows|)
  {
    if rows != [] && !Selects(seen, e, rows[0]) {
      AfterCompilingShrinks(slug, e, seen, rows[1..], planned);
    }
  }

  ghost predicate Shrinks(q: Progress, p: Progress) {
    Phase(q) < Phase(p) || (Phase(q) == Phase(p) && Left(q) < Left(p))
  }

  lemma ScriptReadShrinks(slug: Slug, p: Progress, a: C.Answer)
    requires p.ReadingScripts? && Reads(p)
    ensures Shrinks(AfterScriptColumn(slug, p, a), p)
  {
    if p.params.Some? && p.callable.Some? && a.Tags? {
      AfterCompilingShrinks(slug, p.e, AddedScript(p, p.params.value, p.callable.value, a.tags), p.order, map[]);
    }
  }

  lemma CompilingReadShrinks(slug: Slug, p: Progress, a: C.Answer)
    requires p.Compiling? && Reads(p)
    ensures Shrinks(Advance(slug, p, a), p)
  {
    var s := p.rows[0];
    if a.ServiceRow? && CompileOn(a.service, s, p.seen.calls[s].def).Ok? {
      var planned := CompileOn(a.service, s, p.seen.calls[s].def).value;
      AfterCompilingShrinks(slug, p.e, p.seen, p.rows[1..], p.planned[s := planned]);
    }
  }

  lemma AdvanceShrinks(slug: Slug, p: Progress, a: C.Answer)
    requires Reads(p)
    ensures Shrinks(Advance(slug, p, a), p)
  {
    match p {
      case ListingScripts(e, seen, order) => AfterCompilingShrinks(slug, e, seen, order, map[]);
      case ReadingScripts(_, _, _, _, _, _) => ScriptReadShrinks(slug, p, a);
      case Compiling(_, _, _, _) => CompilingReadShrinks(slug, p, a);
      case _ =>
    }
  }

  lemma OneMoreAnswer(slug: Slug, answers: seq<C.Answer>, a: C.Answer)
    requires Reads(ProgressOf(slug, answers))
    ensures ProgressOf(slug, answers + [a]) == Advance(slug, ProgressOf(slug, answers), a)
  {
    assert (answers + [a])[..|answers + [a]| - 1] == answers;
  }

  /** However the definitions change under it, a build ends. */
  lemma {:induction false} BuildEnds(key: C.Key, answers: seq<C.Answer>)
    ensures C.Ends(TheBuilder(), key, answers)
    decreases Phase(ProgressOf(key.1, answers)), Left(ProgressOf(key.1, answers))
  {
    var p := ProgressOf(key.1, answers);
    if Reads(p) {
      forall a ensures C.Ends(TheBuilder(), key, answers + [a]) {
        OneMoreAnswer(key.1, answers, a);
        AdvanceShrinks(key.1, p, a);
        BuildEnds(key, answers + [a]);
      }
    }
  }

  lemma TheBuilderTerminates()
    ensures C.Terminating(TheBuilder())
  {
    forall key, answers ensures C.Ends(TheBuilder(), key, answers) {
      BuildEnds(key, answers);
    }
  }

  // ----- While the definitions stand still -----

  /** The result is the endpoint's plan, or the error that says why there is none. */
  ghost predicate Right(owner: Owner, slug: Slug, r: Result<EndpointPlan, ResolveError>) {
    && (r.Ok? ==> IsPlan(owner, slug, r.value))
    && (r.Err? ==> Explains(owner, slug, Listing(owner.calls.Keys), r.error))
  }

  function SlugsOf<R>(rows: seq<(Slug, R)>): seq<Slug> {
    seq(|rows|, i requires 0 <= i < |rows| => rows[i].0)
  }

  ghost predicate EndpointIs(owner: Owner, slug: Slug, e: EndpointDef) {
    slug in owner.endpoints && owner.endpoints[slug] == e
  }

  /** Exactly the rows in `order` have been read, as they are. */
  ghost predicate AreRead(owner: Owner, calls: map<Slug, Tagged<ApiCall>>, order: seq<Slug>) {
    && (forall s :: s in calls <==> s in order)
    && (forall s | s in calls :: s in owner.calls && calls[s] == owner.calls[s])
  }

  ghost predicate CallsReadSoFar(owner: Owner, seen: Owner, order: seq<Slug>, calls: seq<(Slug, ApiCall)>) {
    && order + SlugsOf(calls) == Listing(owner.calls.Keys)
    && (forall i | 0 <= i < |calls| :: calls[i].0 in owner.calls && calls[i].1 == BareCall(owner.calls[calls[i].0].def))
    && AreRead(owner, seen.calls, order)
  }

  ghost predicate ScriptsReadSoFar(owner: Owner, seen: Owner, scripts: seq<(Slug, ScriptDef)>) {
    && (forall i | 0 <= i < |scripts| ::
          scripts[i].0 in owner.scripts && scripts[i].1 == BareScript(owner.scripts[scripts[i].0].def))
    && (forall s :: s in owner.scripts <==> s in seen.scripts || s in SlugsOf(scripts))
    && (forall s | s in seen.scripts :: s in owner.scripts && seen.scripts[s] == owner.scripts[s])
  }

  ghost predicate AllSeen(owner: Owner, seen: Owner) {
    seen.calls == owner.calls && seen.scripts == owner.scripts
  }

  /** Exactly the selected calls among `done` are compiled. */
  ghost predicate CompiledAmong(owner: Owner, e: EndpointDef, done: seq<Slug>, planned: map<Slug, PlannedCall>) {
    && (forall s :: s in planned <==> s in done && Selects(owner, e, s))
    && (forall s | s in planned :: Compile(owner, s, owner.calls[s].def) == Ok(planned[s]))
  }

  /** Of the listed calls those before `rows` are done. */
  ghost predicate CompiledSoFar(owner: Owner, e: EndpointDef, rows: seq<Slug>, planned: map<Slug, PlannedCall>) {
    var listed := Listing(owner.calls.Keys);
    && |rows| <= |listed| && rows == listed[|listed| - |rows|..]
    && CompiledAmong(owner, e, listed[..|listed| - |rows|], planned)
  }

  /** What has been read is what is there. */
  ghost predicate Faithful(owner: Owner, slug: Slug, p: Progress) {
    (p.Finished? || Reads(p)) &&
    match p
    case Beginning => true
    case ReadingAliases(e) => slug in owner.endpoints && e == BareEndpoint(owner.endpoints[slug])
    case ReadingScope(e) => slug in owner.endpoints && e == owner.endpoints[slug].(authProviders := {})
    case ListingCalls(e) => EndpointIs(owner, slug, e)
    case ReadingCalls(e, seen, order, calls, params) =>
      && EndpointIs(owner, slug, e) && CallsReadSoFar(owner, seen, order, calls) && seen.scripts == map[]
      && (params.Some? ==> params.value == owner.calls[calls[0].0].def.params)
    case ListingScripts(e, seen, order) =>
      && EndpointIs(owner, slug, e) && seen.calls == owner.calls && seen.scripts == map[]
      && order == Listing(owner.calls.Keys)
    case ReadingScripts(e, seen, order, scripts, params, callable) =>
      && EndpointIs(owner, slug, e) && seen.calls == owner.calls && order == Listing(owner.calls.Keys)
      && ScriptsReadSoFar(owner, seen, scripts)
      && (params.Some? ==> params.value == owner.scripts[scripts[0].0].def.params)
      && (callable.Some? ==> callable.value == owner.scripts[scripts[0].0].def.callable)
    case Compiling(e, seen, rows, planned) =>
      && EndpointIs(owner, slug, e) && AllSeen(owner, seen) && CompiledSoFar(owner, e, rows, planned)
      && Selects(owner, e, rows[0])
    case Binding(e, seen, planned, services) =>
      && EndpointIs(owner, slug, e) && AllSeen(owner, seen) && Compiled(owner, e, planned) && OriginsAllowed(planned)
      && services <= ServicesOf(planned)
      && forall s | s in planned && planned[s].call.service !in services ::
        AuthBound(owner, e.authProviders, planned[s])
    case Finished(r) => Right(owner, slug, r)
  }

  lemma AfterCallsIsFaithful(owner: Owner, slug: Slug, e: EndpointDef, seen: Owner, order: seq<Slug>,
                             calls: seq<(Slug, ApiCall)>)
    requires EndpointIs(owner, slug, e) && CallsReadSoFar(owner, seen, order, calls) && seen.scripts == map[]
    ensures Faithful(owner, slug, AfterCalls(e, seen, order, calls))
  {
    if calls == [] {
      assert order + SlugsOf(calls) == order;
      assert seen.calls == owner.calls;
    }
  }

  lemma ListingIsFaithful(owner: Owner, slug: Slug, e: EndpointDef)
    requires EndpointIs(owner, slug, e)
    ensures Faithful(owner, slug, AfterCalls(e, EMPTY, [], CallListing(owner)))
  {
    assert SlugsOf(CallListing(owner)) == Listing(owner.calls.Keys);
    assert [] + SlugsOf(CallListing(owner)) == Listing(owner.calls.Keys);
    AfterCallsIsFaithful(owner, slug, e, EMPTY, [], CallListing(owner));
  }

  lemma OneMoreIsRead(owner: Owner, calls: map<Slug, Tagged<ApiCall>>, order: seq<Slug>, s: Slug)
    requires AreRead(owner, calls, order) && s in owner.calls
    ensures AreRead(owner, calls[s := owner.calls[s]], order + [s])
  {
    forall t ensures t in calls[s := owner.calls[s]] <==> t in order + [s] {
      assert t in calls <==> t in order;
    }
  }

  lemma SlugsOfFirst<R>(order: seq<Slug>, rows: seq<(Slug, R)>)
    requires rows != []
    ensures SlugsOf(rows) == [rows[0].0] + SlugsOf(rows[1..])
    ensures order + [rows[0].0] + SlugsOf(rows[1..]) == order + SlugsOf(rows)
  {
  }

  lemma OneMoreCallRead(owner: Owner, seen: Owner, order: seq<Slug>, calls: seq<(Slug, ApiCall)>)
    requires CallsReadSoFar(owner, seen, order, calls) && calls != []
    ensures calls[0].0 in owner.calls
    ensures CallsReadSoFar(owner, seen.(calls := seen.calls[calls[0].0 := owner.calls[calls[0].0]]),
                           order + [calls[0].0], calls[1..])
  {
    OneMoreIsRead(owner, seen.calls, order, calls[0].0);
    SlugsOfFirst(order, calls);
  }

  lemma AddCallIsFaithful(owner: Owner, slug: Slug, p: Progress)
    requires p.ReadingCalls? && p.params.Some? && Faithful(owner, slug, p)
    ensures var s := p.calls[0].0;
      Faithful(owner, slug, AddCall(p, p.params.value, TagsOf(owner.calls, s)))
  {
    var (s, row) := p.calls[0];
    OneMoreCallRead(owner, p.seen, p.order, p.calls);
    AfterCallsIsFaithful(owner, slug, p.e, p.seen.(calls := p.seen.calls[s := owner.calls[s]]), p.order + [s],
                         p.calls[1..]);
    assert owner.calls[s] == Tagged(row.(params := owner.calls[s].def.params), owner.calls[s].tags);
  }

  lemma AdmissionErrorIsRight(owner: Owner, slug: Slug, e: EndpointDef, planned: map<Slug, PlannedCall>,
                              error: ResolveError)
    requires EndpointIs(owner, slug, e) && Compiled(owner, e, planned)
    requires ExplainsAdmission(owner, e, planned, error) || ExplainsNaming(owner, e, planned, error)
    ensures Right(owner, slug, Err(error))
  {
  }

  lemma ExcessIsRight(owner: Owner, slug: Slug, e: EndpointDef, planned: map<Slug, PlannedCall>, excess: set<Slug>)
    requires EndpointIs(owner, slug, e) && Compiled(owner, e, planned)
    requires OriginsAllowed(planned) && AllBound(owner, e, planned)
    requires excess == set s | s in planned && Exceeds(planned[s].call.access, e.writeCeiling)
    requires excess != {}
    ensures Right(owner, slug, Err(WriteCeilingViolation(LeastOf(excess))))
  {
    NoneBefore(excess, LeastOf(excess));
    AdmissionErrorIsRight(owner, slug, e, planned, WriteCeilingViolation(LeastOf(excess)));
  }

  lemma ConflictIsRight(owner: Owner, slug: Slug, e: EndpointDef, planned: map<Slug, PlannedCall>, conflict: NameError)
    requires EndpointIs(owner, slug, e) && Compiled(owner, e, planned)
    requires forall s | s in planned :: CallAdmitted(owner, e, planned[s])
    requires ExplainsConflict(e.aliases, ItemsOf(planned, ScriptsOf(owner, e)), conflict)
    ensures Right(owner, slug, Err(Naming(conflict)))
  {
    AdmissionErrorIsRight(owner, slug, e, planned, Naming(conflict));
  }

  lemma NamedIsRight(owner: Owner, slug: Slug, e: EndpointDef, planned: map<Slug, PlannedCall>)
    requires EndpointIs(owner, slug, e) && Compiled(owner, e, planned)
    requires forall s | s in planned :: CallAdmitted(owner, e, planned[s])
    ensures Right(owner, slug, Named(slug, e, ScriptsOf(owner, e), planned))
  {
    var r := Named(slug, e, ScriptsOf(owner, e), planned);
    ToolsOrConflict(e.aliases, e.budgets, ItemsOf(planned, ScriptsOf(owner, e)));
    if r.Err? {
      ConflictIsRight(owner, slug, e, planned, r.error.conflict);
    }
  }

  lemma ConcludeIsRight(owner: Owner, slug: Slug, e: EndpointDef, seen: Owner, planned: map<Slug, PlannedCall>)
    requires EndpointIs(owner, slug, e) && AllSeen(owner, seen) && Compiled(owner, e, planned)
    requires OriginsAllowed(planned) && AllBound(owner, e, planned)
    ensures Right(owner, slug, Conclude(slug, e, seen, planned))
  {
    var excess := set s | s in planned && Exceeds(planned[s].call.access, e.writeCeiling);
    if excess != {} {
      ExcessIsRight(owner, slug, e, planned, excess);
    } else {
      forall s | s in planned ensures CallAdmitted(owner, e, planned[s]) {
        assert s !in excess && OriginAllowed(planned[s]);
      }
      assert ScriptsOf(seen, e) == ScriptsOf(owner, e);
      NamedIsRight(owner, slug, e, planned);
    }
  }

  lemma AfterBindingIsFaithful(owner: Owner, slug: Slug, e: EndpointDef, seen: Owner,
                               planned: map<Slug, PlannedCall>, services: set<Slug>)
    requires EndpointIs(owner, slug, e) && AllSeen(owner, seen)
    requires Compiled(owner, e, planned) && OriginsAllowed(planned)
    requires services <= ServicesOf(planned)
    requires forall s | s in planned && planned[s].call.service !in services ::
      AuthBound(owner, e.authProviders, planned[s])
    ensures Faithful(owner, slug, AfterBinding(slug, e, seen, planned, services))
  {
    if services == {} {
      ConcludeIsRight(owner, slug, e, seen, planned);
    }
  }

  lemma AfterOriginsIsFaithful(owner: Owner, slug: Slug, e: EndpointDef, seen: Owner, planned: map<Slug, PlannedCall>)
    requires EndpointIs(owner, slug, e) && AllSeen(owner, seen) && Compiled(owner, e, planned)
    ensures Faithful(owner, slug, AfterOrigins(slug, e, seen, planned))
  {
    var refused := set s | s in planned && !OriginAllowed(planned[s]);
    if refused != {} {
      NoneBefore(refused, LeastOf(refused));
      assert ExplainsAdmission(owner, e, planned, OriginNotAllowed(LeastOf(refused)));
    } else {
      forall s | s in planned ensures OriginAllowed(planned[s]) {
        assert s !in refused;
      }
      AfterBindingIsFaithful(owner, slug, e, seen, planned, ServicesOf(planned));
    }
  }

  lemma NextListed(owner: Owner, rows: seq<Slug>)
    requires rows != [] && |rows| <= |Listing(owner.calls.Keys)|
    requires rows == Listing(owner.calls.Keys)[|Listing(owner.calls.Keys)| - |rows|..]
    ensures var listed := Listing(owner.calls.Keys);
      && rows[0] == listed[|listed| - |rows|] && rows[0] in owner.calls
      && rows[1..] == listed[|listed| - |rows| + 1..]
      && listed[..|listed| - |rows| + 1] == listed[..|listed| - |rows|] + [rows[0]]
  {
  }

  lemma AllCompiled(owner: Owner, e: EndpointDef, planned: map<Slug, PlannedCall>)
    requires CompiledSoFar(owner, e, [], planned)
    ensures Compiled(owner, e, planned)
  {
    var listed := Listing(owner.calls.Keys);
    assert listed[..|listed|] == listed;
  }

  lemma OneSkipped(owner: Owner, e: EndpointDef, rows: seq<Slug>, planned: map<Slug, PlannedCall>)
    requires CompiledSoFar(owner, e, rows, planned) && rows != [] && !Selects(owner, e, rows[0])
    ensures CompiledSoFar(owner, e, rows[1..], planned)
  {
    NextListed(owner, rows);
  }

  lemma {:induction false} AfterCompilingIsFaithful(owner: Owner, slug: Slug, e: EndpointDef, seen: Owner,
                                                    rows: seq<Slug>, planned: map<Slug, PlannedCall>)
    requires EndpointIs(owner, slug, e) && AllSeen(owner, seen) && CompiledSoFar(owner, e, rows, planned)
    ensures Faithful(owner, slug, AfterCompiling(slug, e, seen, rows, planned))
    decreases |rows|
  {
    if rows == [] {
      AllCompiled(owner, e, planned);
      AfterOriginsIsFaithful(owner, slug, e, seen, planned);
    } else if !Selects(seen, e, rows[0]) {
      OneSkipped(owner, e, rows, planned);
      AfterCompilingIsFaithful(owner, slug, e, seen, rows[1..], planned);
    }
  }

  lemma FailureIsRight(owner: Owner, slug: Slug, e: EndpointDef, rows: seq<Slug>, planned: map<Slug, PlannedCall>,
                       error: ResolveError)
    requires EndpointIs(owner, slug, e) && CompiledSoFar(owner, e, rows, planned)
    requires rows != [] && Selects(owner, e, rows[0]) && Compile(owner, rows[0], owner.calls[rows[0]].def) == Err(error)
    ensures Right(owner, slug, Err(error))
  {
    var listed := Listing(owner.calls.Keys);
    var k := |listed| - |rows|;
    NextListed(owner, rows);
    forall j | 0 <= j < k && Selects(owner, e, listed[j])
      ensures Compile(owner, listed[j], owner.calls[listed[j]].def).Ok?
    {
      assert listed[j] in listed[..k];
    }
    assert FirstFailure(owner, e, listed, k, error);
  }

  lemma OneMoreAmong(owner: Owner, e: EndpointDef, done: seq<Slug>, planned: map<Slug, PlannedCall>, s: Slug,
                     call: PlannedCall)
    requires CompiledAmong(owner, e, done, planned)
    requires Selects(owner, e, s) && Compile(owner, s, owner.calls[s].def) == Ok(call)
    ensures CompiledAmong(owner, e, done + [s], planned[s := call])
  {
    forall t ensures t in planned[s := call] <==> t in done + [s] && Selects(owner, e, t) {
      assert t in planned <==> t in done && Selects(owner, e, t);
    }
  }

  lemma OneMoreDone(owner: Owner, e: EndpointDef, listed: seq<Slug>, k: nat, planned: map<Slug, PlannedCall>,
                    call: PlannedCall)
    requires k < |listed| && CompiledAmong(owner, e, listed[..k], planned)
    requires Selects(owner, e, listed[k]) && Compile(owner, listed[k], owner.calls[listed[k]].def) == Ok(call)
    ensures CompiledAmong(owner, e, listed[..k + 1], planned[listed[k] := call])
  {
    OneMoreAmong(owner, e, listed[..k], planned, listed[k], call);
    assert listed[..k + 1] == listed[..k] + [listed[k]];
  }

  lemma OneMoreCompiled(owner: Owner, e: EndpointDef, rows: seq<Slug>, planned: map<Slug, PlannedCall>,
                        call: PlannedCall)
    requires CompiledSoFar(owner, e, rows, planned)
    requires rows != [] && Selects(owner, e, rows[0]) && Compile(owner, rows[0], owner.calls[rows[0]].def) == Ok(call)
    ensures CompiledSoFar(owner, e, rows[1..], planned[rows[0] := call])
  {
    var listed := Listing(owner.calls.Keys);
    NextListed(owner, rows);
    OneMoreDone(owner, e, listed, |listed| - |rows|, planned, call);
  }

  lemma CompileIsFaithful(owner: Owner, slug: Slug, p: Progress)
    requires p.Compiling? && Reads(p) && Faithful(owner, slug, p)
    ensures var s := p.rows[0];
      Faithful(owner, slug, AfterService(slug, p, Lookup(owner.services, p.seen.calls[s].def.service)))
  {
    var s := p.rows[0];
    match Compile(owner, s, owner.calls[s].def) {
      case Err(error) => FailureIsRight(owner, slug, p.e, p.rows, p.planned, error);
      case Ok(planned) =>
        OneMoreCompiled(owner, p.e, p.rows, p.planned, planned);
        AfterCompilingIsFaithful(owner, slug, p.e, p.seen, p.rows[1..], p.planned[s := planned]);
    }
  }

  lemma NoneCompiledYet(owner: Owner, e: EndpointDef)
    ensures CompiledSoFar(owner, e, Listing(owner.calls.Keys), map[])
  {
    var listed := Listing(owner.calls.Keys);
    assert listed[|listed| - |listed|..] == listed && listed[..|listed| - |listed|] == [];
  }

  lemma AfterScriptsIsFaithful(owner: Owner, slug: Slug, e: EndpointDef, seen: Owner, scripts: seq<(Slug, ScriptDef)>)
    requires EndpointIs(owner, slug, e) && seen.calls == owner.calls && ScriptsReadSoFar(owner, seen, scripts)
    ensures Faithful(owner, slug, AfterScripts(slug, e, seen, Listing(owner.calls.Keys), scripts))
  {
    if scripts == [] {
      assert seen.scripts == owner.scripts;
      NoneCompiledYet(owner, e);
      AfterCompilingIsFaithful(owner, slug, e, seen, Listing(owner.calls.Keys), map[]);
    }
  }

  lemma ScriptListingIsFaithful(owner: Owner, slug: Slug, e: EndpointDef, seen: Owner)
    requires EndpointIs(owner, slug, e) && seen.calls == owner.calls && seen.scripts == map[]
    ensures Faithful(owner, slug, AfterScripts(slug, e, seen, Listing(owner.calls.Keys), ScriptListing(owner)))
  {
    assert SlugsOf(ScriptListing(owner)) == Listing(owner.scripts.Keys);
    AfterScriptsIsFaithful(owner, slug, e, seen, ScriptListing(owner));
  }

  lemma AddScriptIsFaithful(owner: Owner, slug: Slug, p: Progress)
    requires p.ReadingScripts? && p.params.Some? && p.callable.Some? && Faithful(owner, slug, p)
    ensures var s := p.scripts[0].0;
      Faithful(owner, slug, AddScript(slug, p, p.params.value, p.callable.value, TagsOf(owner.scripts, s)))
  {
    var (s, row) := p.scripts[0];
    var rest := p.scripts[1..];
    var seen := p.seen.(scripts := p.seen.scripts[s := owner.scripts[s]]);
    var def := owner.scripts[s].def;
    SlugsOfFirst([], p.scripts);
    assert ScriptsReadSoFar(owner, seen, rest);
    AfterScriptsIsFaithful(owner, slug, p.e, seen, rest);
    assert owner.scripts[s] == Tagged(row.(params := def.params, callable := def.callable), owner.scripts[s].tags);
  }

  lemma RefusedBindingIsRight(owner: Owner, slug: Slug, e: EndpointDef, planned: map<Slug, PlannedCall>, s: Slug,
                              error: ResolveError)
    requires EndpointIs(owner, slug, e) && Compiled(owner, e, planned) && OriginsAllowed(planned)
    requires FirstOnItsService(planned, s)
    requires forall t | t in planned && Less(planned[t].call.service, planned[s].call.service) ::
      AuthBound(owner, e.authProviders, planned[t])
    requires BindingProblemOn(Lookup(owner.providers, planned[s].call.service), e, s, planned[s]) == Some(error)
    ensures Right(owner, slug, Err(error))
  {
    AdmissionErrorIsRight(owner, slug, e, planned, error);
  }

  lemma LeastIsFirstOnItsService(planned: map<Slug, PlannedCall>, service: Slug)
    requires service in ServicesOf(planned)
    ensures CallsOn(planned, service) != {}
    ensures var s := LeastOf(CallsOn(planned, service));
      FirstOnItsService(planned, s) && planned[s].call.service == service
  {
    var any :| any in planned && planned[any].call.service == service;
    assert any in CallsOn(planned, service);
    var s := LeastOf(CallsOn(planned, service));
    forall t | t in planned && planned[t].call.service == service ensures t == s || Less(s, t) {
      assert t in CallsOn(planned, service);
    }
  }

  lemma OneMoreBound(owner: Owner, slug: Slug, e: EndpointDef, seen: Owner, planned: map<Slug, PlannedCall>,
                     services: set<Slug>, s: Slug)
    requires Faithful(owner, slug, Binding(e, seen, planned, services))
    requires s in planned && AuthBound(owner, e.authProviders, planned[s])
    ensures Faithful(owner, slug, AfterBinding(slug, e, seen, planned, services - {planned[s].call.service}))
  {
    OneBindingPerService(owner, e, planned, s);
    AfterBindingIsFaithful(owner, slug, e, seen, planned, services - {planned[s].call.service});
  }

  lemma ProblemIsRefusal(owner: Owner, e: EndpointDef, s: Slug, planned: PlannedCall)
    ensures BindingProblemOn(Lookup(owner.providers, planned.call.service), e, s, planned).None? <==>
            AuthBound(owner, e.authProviders, planned)
  {
  }

  lemma BindRefused(owner: Owner, slug: Slug, p: Progress, s: Slug, error: ResolveError)
    requires p.Binding? && p.services != {} && Faithful(owner, slug, p)
    requires FirstOnItsService(p.planned, s) && p.planned[s].call.service == LeastOf(p.services)
    requires BindingProblemOn(Lookup(owner.providers, LeastOf(p.services)), p.e, s, p.planned[s]) == Some(error)
    ensures Right(owner, slug, Err(error))
  {
    NoneBefore(p.services, LeastOf(p.services));
    RefusedBindingIsRight(owner, slug, p.e, p.planned, s, error);
  }

  lemma BindIsFaithful(owner: Owner, slug: Slug, p: Progress)
    requires p.Binding? && p.services != {} && Faithful(owner, slug, p)
    ensures Faithful(owner, slug, AfterProvider(slug, p, Lookup(owner.providers, LeastOf(p.services))))
  {
    var service := LeastOf(p.services);
    LeastIsFirstOnItsService(p.planned, service);
    var s := LeastOf(CallsOn(p.planned, service));
    var problem := BindingProblemOn(Lookup(owner.providers, service), p.e, s, p.planned[s]);
    ProblemIsRefusal(owner, p.e, s, p.planned[s]);
    if problem.Some? {
      BindRefused(owner, slug, p, s, problem.value);
    } else {
      OneMoreBound(owner, slug, p.e, p.seen, p.planned, p.services, s);
    }
  }

  lemma EndpointReadIsFaithful(owner: Owner, slug: Slug, p: Progress)
    requires (p.Beginning? || p.ReadingAliases? || p.ReadingScope?) && Reads(p) && Faithful(owner, slug, p)
    ensures Faithful(owner, slug, Advance(slug, p, AnswerFor(owner, slug, p)))
  {
  }

  lemma ListReadIsFaithful(owner: Owner, slug: Slug, p: Progress)
    requires (p.ListingCalls? || p.ListingScripts?) && Reads(p) && Faithful(owner, slug, p)
    ensures Faithful(owner, slug, Advance(slug, p, AnswerFor(owner, slug, p)))
  {
    if p.ListingCalls? {
      ListingIsFaithful(owner, slug, p.e);
    } else {
      ScriptListingIsFaithful(owner, slug, p.e, p.seen);
    }
  }

  lemma CallReadIsFaithful(owner: Owner, slug: Slug, p: Progress)
    requires p.ReadingCalls? && Reads(p) && Faithful(owner, slug, p)
    ensures Faithful(owner, slug, AfterCallColumn(p, CallColumn(owner, p.calls[0].0, p.params)))
  {
    if p.params.Some? {
      AddCallIsFaithful(owner, slug, p);
    }
  }

  lemma ScriptReadIsFaithful(owner: Owner, slug: Slug, p: Progress)
    requires p.ReadingScripts? && Reads(p) && Faithful(owner, slug, p)
    ensures var a := ScriptColumn(owner, p.scripts[0].0, p.params, p.callable);
      Faithful(owner, slug, AfterScriptColumn(slug, p, a))
  {
    if p.params.Some? && p.callable.Some? {
      AddScriptIsFaithful(owner, slug, p);
    }
  }

  /** A read of definitions that stand still keeps what has been read faithful to them. */
  lemma AdvanceIsFaithful(owner: Owner, slug: Slug, p: Progress)
    requires Reads(p) && Faithful(owner, slug, p)
    ensures Faithful(owner, slug, Advance(slug, p, AnswerFor(owner, slug, p)))
  {
    match p {
      case ListingCalls(_) => ListReadIsFaithful(owner, slug, p);
      case ListingScripts(_, _, _) => ListReadIsFaithful(owner, slug, p);
      case ReadingCalls(_, _, _, _, _) => CallReadIsFaithful(owner, slug, p);
      case ReadingScripts(_, _, _, _, _, _) => ScriptReadIsFaithful(owner, slug, p);
      case Compiling(_, _, _, _) => CompileIsFaithful(owner, slug, p);
      case Binding(_, _, _, _) => BindIsFaithful(owner, slug, p);
      case _ => EndpointReadIsFaithful(owner, slug, p);
    }
  }

  lemma {:induction false} StillBuildIsRight(store: C.Store, key: C.Key, answers: seq<C.Answer>)
    requires C.Terminating(TheBuilder()) && Faithful(OwnerOf(store, key.0), key.1, ProgressOf(key.1, answers))
    ensures Right(OwnerOf(store, key.0), key.1, C.BuildFrom(TheBuilder(), store, key, answers))
    decreases Phase(ProgressOf(key.1, answers)), Left(ProgressOf(key.1, answers))
  {
    var owner, slug, p := OwnerOf(store, key.0), key.1, ProgressOf(key.1, answers);
    if Reads(p) {
      var a := AnswerFor(owner, slug, p);
      AdvanceIsFaithful(owner, slug, p);
      AdvanceShrinks(slug, p, a);
      OneMoreAnswer(slug, answers, a);
      StillBuildIsRight(store, key, answers + [a]);
    }
  }

  // ----- The cache over this builder -----

  /** While the definitions stand still the build returns a plan exactly when there is one, and that one. */
  lemma TheBuilderBuildsThePlan(store: C.Store, key: C.Key, p: EndpointPlan)
    ensures C.Terminating(TheBuilder())
    ensures C.BuildPlan(TheBuilder(), store, key) == Ok(p) <==> IsPlan(OwnerOf(store, key.0), key.1, p)
    ensures var r := C.BuildPlan(TheBuilder(), store, key); var owner := OwnerOf(store, key.0);
      r.Err? ==> Explains(owner, key.1, Listing(owner.calls.Keys), r.error)
  {
    var owner, slug := OwnerOf(store, key.0), key.1;
    TheBuilderTerminates();
    StillBuildIsRight(store, key, []);
    var r := C.BuildPlan(TheBuilder(), store, key);
    if IsPlan(owner, slug, p) {
      if r.Ok? {
        PlanIsUnique(owner, slug, p, r.value);
      } else {
        ErrorsExcludePlans(owner, slug, Listing(owner.calls.Keys), r.error, p);
      }
    }
  }

  /** Every cached plan under the current generation is its endpoint's plan by the current definitions. */
  ghost predicate HoldsCurrentPlans(s: C.State) {
    forall key | key in s.entries && s.entries[key].0 == s.clock.gen ::
      IsPlan(OwnerOf(s.defs, key.0), key.1, s.entries[key].1)
  }

  lemma CurrentEntriesArePlans(s: C.State)
    ensures C.Terminating(TheBuilder())
    ensures C.CurrentEntries(TheBuilder(), s) <==> HoldsCurrentPlans(s)
  {
    TheBuilderTerminates();
    forall key | key in s.entries && s.entries[key].0 == s.clock.gen
      ensures C.BuildPlan(TheBuilder(), s.defs, key) == Ok(s.entries[key].1) <==>
              IsPlan(OwnerOf(s.defs, key.0), key.1, s.entries[key].1)
    {
      TheBuilderBuildsThePlan(s.defs, key, s.entries[key].1);
    }
  }

  /** A call during which no write commits serves the endpoint's plan, or fails because it has none. */
  lemma QuietCallServesThePlan(s: C.State, run: seq<C.Step>, i: nat)
    requires C.Terminating(TheBuilder()) && C.Inv(TheBuilder(), s) && C.IsRun(TheBuilder(), s, run)
    requires i < |s.readers| && s.readers[i].Idle?
    requires forall m | m in C.WritesOf(run) :: m.Begin?
    ensures |C.After(TheBuilder(), s, run).readers| == |s.readers|
    ensures var r, key := C.After(TheBuilder(), s, run).readers[i], s.readers[i].key;
      var owner := OwnerOf(s.defs, key.0);
      && (r.Served? ==> IsPlan(owner, key.1, r.plan))
      && (r.Failed? ==> Explains(owner, key.1, Listing(owner.calls.Keys), r.error))
      && (r.Failed? ==> forall p :: !IsPlan(owner, key.1, p))
  {
    C.QuietCallReturnsCurrentPlan(TheBuilder(), s, run, i);
    var r, key := C.After(TheBuilder(), s, run).readers[i], s.readers[i].key;
    if r.Served? {
      TheBuilderBuildsThePlan(s.defs, key, r.plan);
    }
    if r.Failed? {
      forall p ensures !IsPlan(OwnerOf(s.defs, key.0), key.1, p) {
        TheBuilderBuildsThePlan(s.defs, key, p);
      }
      StillBuildIsRight(s.defs, key, []);
    }
  }

  /** No run of readers beside these writer moves ever leaves a wrong plan under the current generation. */
  ghost predicate ServesCurrentPlans(c: C.Clock, moves: seq<C.WriterMove>) {
    forall s, run | C.Init(s) && s.clock == c && C.IsRun(TheBuilder(), s, run) && C.WritesOf(run) <= moves ::
      HoldsCurrentPlans(C.After(TheBuilder(), s, run))
  }

  const LONE_ENDPOINT := EndpointDef(Has("a"), Read, Budgets(None, None, None, None, None), None, true, map[], {})

  /** An endpoint that selects nothing has a plan; a missing endpoint has none. */
  lemma PlansDiffer() returns (key: C.Key, d0: C.Store, d1: C.Store)
    ensures C.Terminating(TheBuilder()) && C.BuildPlan(TheBuilder(), d0, key).Ok?
    ensures C.BuildPlan(TheBuilder(), d1, key) != C.BuildPlan(TheBuilder(), d0, key)
  {
    var e := LONE_ENDPOINT;
    key, d1 := ("", "a"), map[];
    var owner := EMPTY.(endpoints := map["a" := e]);
    d0 := map["" := owner];
    var p := EndpointPlan("a", Read, None, [], map[], map[], map[], {}, e.budgets);
    assert ScriptsOf(owner, e) == map[] && ItemsOf(map[], map[]) == map[];
    assert IsPlan(owner, "a", p);
    TheBuilderBuildsThePlan(d0, key, p);
    TheBuilderBuildsThePlan(d1, key, p);
  }

  /**
   The cache serves nothing but current plans, for every interleaving of readers and every contents of
   the writes, exactly when no two writer transactions overlap a commit.
   */
  lemma PlansAreCurrentExactlyWhenCommitsAreFresh(c: C.Clock, moves: seq<C.WriterMove>)
    requires C.NoneOpen(c) && C.IsSchedule(c, moves)
    ensures ServesCurrentPlans(c, moves) <==> C.AllFresh(c, moves)
  {
    var key, d0, d1 := PlansDiffer();
    C.SafeExactlyWhenCommitsAreFresh(TheBuilder(), c, moves, key, d0, d1);
    forall s, run | C.Init(s) && s.clock == c && C.IsRun(TheBuilder(), s, run) && C.WritesOf(run) <= moves
      ensures C.CurrentEntries(TheBuilder(), C.After(TheBuilder(), s, run)) <==>
              HoldsCurrentPlans(C.After(TheBuilder(), s, run))
    {
      CurrentEntriesArePlans(C.After(TheBuilder(), s, run));
    }
  }
}
