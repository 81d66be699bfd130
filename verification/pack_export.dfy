/**
 Exporting one endpoint: the transitive closure of what it selects, renames and lets its scripts call,
 as a pack that stands on its own. Auth providers never travel.
 */
module Exports {
  import opened Wrappers
  import opened Slugs
  import opened Orders
  import opened TagExpressions
  import opened Definitions
  import opened Tools
  import opened Rows
  import opened Imports
  import opened Reimports
  import P = Plans

  datatype ExportError = EndpointNotFound | MissingApiCall(script: Slug, call: Slug)

  // ----- The closure -----

  function AliasedCalls(e: EndpointDef): set<Slug> {
    set a | a in e.aliases && e.aliases[a].CallTarget? :: e.aliases[a].slug
  }

  function AliasedScripts(e: EndpointDef): set<Slug> {
    set a | a in e.aliases && e.aliases[a].ScriptTarget? :: e.aliases[a].slug
  }

  /** Scripts that travel: selected or renamed, as far as they exist. */
  function ExportedScripts(owner: Owner, e: EndpointDef): set<Slug> {
    (P.SelectedScripts(owner, e) + AliasedScripts(e)) * owner.scripts.Keys
  }

  function DeclaredCalls(owner: Owner, scripts: set<Slug>): set<Slug>
    requires scripts <= owner.scripts.Keys
  {
    set s, a | s in scripts && a in owner.scripts[s].def.callable :: owner.scripts[s].def.callable[a]
  }

  /** Calls that travel: selected, renamed or declared by a script that travels, as far as they exist. */
  function ExportedCalls(owner: Owner, e: EndpointDef): set<Slug> {
    (P.SelectedCalls(owner, e) + AliasedCalls(e) + DeclaredCalls(owner, ExportedScripts(owner, e))) * owner.calls.Keys
  }

  function ServicesFor(owner: Owner, calls: set<Slug>): set<Slug>
    requires calls <= owner.calls.Keys
  {
    (set s | s in calls :: owner.calls[s].def.service) * owner.services.Keys
  }

  function TagsFor(owner: Owner, calls: set<Slug>, scripts: set<Slug>): set<Slug>
    requires calls <= owner.calls.Keys && scripts <= owner.scripts.Keys
  {
    (set s, t | s in calls && t in owner.calls[s].tags :: t) +
    (set s, t | s in scripts && t in owner.scripts[s].tags :: t)
  }

  function Restrict<V>(rows: map<Slug, V>, keys: set<Slug>): map<Slug, V> {
    map s | s in rows && s in keys :: rows[s]
  }

  function Portable(e: EndpointDef): EndpointDef {
    e.(authProviders := {})
  }

  function PackOf(owner: Owner, slug: Slug): Pack
    requires slug in owner.endpoints
  {
    var e := owner.endpoints[slug];
    var calls, scripts := ExportedCalls(owner, e), ExportedScripts(owner, e);
    Pack(Restrict(owner.services, ServicesFor(owner, calls)), Restrict(owner.calls, calls),
         Restrict(owner.scripts, scripts),
         map[slug := EndpointToPack(Portable(e))], TagsFor(owner, calls, scripts))
  }

  predicate DeclaresExisting(owner: Owner, d: ScriptDef) {
    forall a | a in d.callable :: d.callable[a] in owner.calls
  }

  /** The error names the first script that travels with a dangling declaration, and the first such declaration. */
  ghost predicate ExplainsDangling(owner: Owner, e: EndpointDef, error: ExportError) {
    error.MissingApiCall? && exists alias :: FirstDangling(owner, e, error.script, alias, error.call)
  }

  ghost predicate FirstDangling(owner: Owner, e: EndpointDef, script: Slug, alias: string, call: Slug) {
    && script in ExportedScripts(owner, e)
    && (forall s | s in ExportedScripts(owner, e) && Less(s, script) :: DeclaresExisting(owner, owner.scripts[s].def))
    && var callable := owner.scripts[script].def.callable;
    && alias in callable && callable[alias] == call && call !in owner.calls
    && forall a | a in callable && Less(a, alias) :: callable[a] in owner.calls
  }

  lemma DanglingIsUnique(owner: Owner, e: EndpointDef, a: ExportError, b: ExportError)
    requires ExplainsDangling(owner, e, a) && ExplainsDangling(owner, e, b)
    ensures a == b
  {
    var x :| FirstDangling(owner, e, a.script, x, a.call);
    var y :| FirstDangling(owner, e, b.script, y, b.call);
    LessIsTotal(a.script, b.script);
    LessIsTotal(x, y);
  }

  // ----- The export -----

  method CollectAliased(e: EndpointDef, calls: set<Slug>, scripts: set<Slug>)
    returns (moreCalls: set<Slug>, moreScripts: set<Slug>)
    ensures moreCalls == calls + AliasedCalls(e) && moreScripts == scripts + AliasedScripts(e)
  {
    moreCalls, moreScripts := calls, scripts;
    var left := e.aliases.Keys;
    ghost var done: set<string> := {};
    while left != {}
      invariant left !! done && left + done == e.aliases.Keys
      invariant moreCalls == calls + set a | a in done && e.aliases[a].CallTarget? :: e.aliases[a].slug
      invariant moreScripts == scripts + set a | a in done && e.aliases[a].ScriptTarget? :: e.aliases[a].slug
    {
      var a :| a in left;
      match e.aliases[a] {
        case CallTarget(slug) => moreCalls := moreCalls + {slug};
        case ScriptTarget(slug) => moreScripts := moreScripts + {slug};
      }
      left, done := left - {a}, done + {a};
    }
  }

  method CollectDeclared(owner: Owner, e: EndpointDef, calls: set<Slug>) returns (r: Result<set<Slug>, ExportError>)
    ensures r.Ok? <==> forall s | s in ExportedScripts(owner, e) :: DeclaresExisting(owner, owner.scripts[s].def)
    ensures r.Ok? ==> r.value == calls + DeclaredCalls(owner, ExportedScripts(owner, e))
    ensures r.Err? ==> ExplainsDangling(owner, e, r.error)
  {
    var needed := calls;
    var left := ExportedScripts(owner, e);
    ghost var done: set<Slug> := {};
    while left != {}
      invariant left !! done && left + done == ExportedScripts(owner, e)
      invariant needed == calls + DeclaredCalls(owner, done)
      invariant forall s | s in done :: DeclaresExisting(owner, owner.scripts[s].def)
    {
      var s: Slug := FirstOf(left);
      var callable := owner.scripts[s].def.callable;
      var missing := set a | a in callable && callable[a] !in owner.calls;
      if missing != {} {
        var alias := FirstOf(missing);
        NoneBefore(left, s);
        NoneBefore(missing, alias);
        assert forall a | a in callable && Less(a, alias) :: a !in missing;
        assert FirstDangling(owner, e, s, alias, callable[alias]);
        return Err(MissingApiCall(s, callable[alias]));
      }
      forall a | a in callable ensures callable[a] in owner.calls {
        assert a !in missing;
      }
      needed := needed + callable.Values;
      left, done := left - {s}, done + {s};
    }
    r := Ok(needed);
  }

  method ExportEndpoint(owner: Owner, slug: Slug) returns (r: Result<Pack, ExportError>)
    ensures r.Err? && r.error.EndpointNotFound? <==> slug !in owner.endpoints
    ensures r.Err? && r.error.MissingApiCall? ==>
      slug in owner.endpoints && ExplainsDangling(owner, owner.endpoints[slug], r.error)
    ensures r.Ok? ==> slug in owner.endpoints && r.value == PackOf(owner, slug)
    ensures slug in owner.endpoints ==>
      (r.Ok? <==> forall s | s in ExportedScripts(owner, owner.endpoints[slug]) ::
        DeclaresExisting(owner, owner.scripts[s].def))
  {
    if slug !in owner.endpoints {
      return Err(EndpointNotFound);
    }
    var e := owner.endpoints[slug];
    var calls, scripts := CollectAliased(e, P.SelectedCalls(owner, e), P.SelectedScripts(owner, e));
    var needed := CollectDeclared(owner, e, calls);
    if needed.Err? {
      return Err(needed.error);
    }
    var exportedCalls, exportedScripts := needed.value * owner.calls.Keys, scripts * owner.scripts.Keys;
    r := Ok(Pack(Restrict(owner.services, ServicesFor(owner, exportedCalls)), Restrict(owner.calls, exportedCalls),
                 Restrict(owner.scripts, exportedScripts), map[slug := EndpointToPack(Portable(e))],
                 TagsFor(owner, exportedCalls, exportedScripts)));
  }

  /** A script travels when the endpoint's expression or one of its aliases picks it. */
  ghost predicate ScriptGoesAlong(owner: Owner, e: EndpointDef, s: Slug) {
    s in owner.scripts &&
    (Eval(e.tagExpr, owner.scripts[s].tags) || exists a :: a in e.aliases && e.aliases[a] == ScriptTarget(s))
  }

  /** An api_call travels for the same reasons, or because a script that travels declares it. */
  ghost predicate CallGoesAlong(owner: Owner, e: EndpointDef, s: Slug) {
    s in owner.calls &&
    (Eval(e.tagExpr, owner.calls[s].tags)
     || (exists a :: a in e.aliases && e.aliases[a] == CallTarget(s))
     || exists script, a :: ScriptGoesAlong(owner, e, script) && Declares(owner, script, a, s))
  }

  ghost predicate Declares(owner: Owner, script: Slug, a: string, s: Slug) {
    script in owner.scripts && a in owner.scripts[script].def.callable && owner.scripts[script].def.callable[a] == s
  }

  lemma ScriptsThatTravel(owner: Owner, e: EndpointDef, s: Slug)
    ensures s in ExportedScripts(owner, e) <==> ScriptGoesAlong(owner, e, s)
  {
    if s in ExportedScripts(owner, e) && s !in P.SelectedScripts(owner, e) {
      var a :| a in e.aliases && e.aliases[a].ScriptTarget? && e.aliases[a].slug == s;
      assert e.aliases[a] == ScriptTarget(s);
    }
  }

  lemma CallsThatTravel(owner: Owner, e: EndpointDef, s: Slug)
    ensures s in ExportedCalls(owner, e) <==> CallGoesAlong(owner, e, s)
  {
    if s in AliasedCalls(e) {
      var a :| a in e.aliases && e.aliases[a].CallTarget? && e.aliases[a].slug == s;
      assert e.aliases[a] == CallTarget(s);
    }
    if s in DeclaredCalls(owner, ExportedScripts(owner, e)) {
      var script, a :| script in ExportedScripts(owner, e) && a in owner.scripts[script].def.callable
        && owner.scripts[script].def.callable[a] == s;
      ScriptsThatTravel(owner, e, script);
      assert Declares(owner, script, a, s);
    }
    if script: Slug, a :| ScriptGoesAlong(owner, e, script) && Declares(owner, script, a, s) {
      ScriptsThatTravel(owner, e, script);
    }
  }

  ghost predicate Tags(owner: Owner, e: EndpointDef, t: Slug) {
    || (exists s :: CallGoesAlong(owner, e, s) && t in owner.calls[s].tags)
    || (exists s :: ScriptGoesAlong(owner, e, s) && t in owner.scripts[s].tags)
  }

  lemma TagsThatTravel(owner: Owner, e: EndpointDef, t: Slug)
    ensures t in TagsFor(owner, ExportedCalls(owner, e), ExportedScripts(owner, e)) <==> Tags(owner, e, t)
  {
    if s :| s in ExportedCalls(owner, e) && t in owner.calls[s].tags {
      CallsThatTravel(owner, e, s);
    }
    if s :| s in ExportedScripts(owner, e) && t in owner.scripts[s].tags {
      ScriptsThatTravel(owner, e, s);
    }
    if s :| CallGoesAlong(owner, e, s) && t in owner.calls[s].tags {
      CallsThatTravel(owner, e, s);
    }
    if s :| ScriptGoesAlong(owner, e, s) && t in owner.scripts[s].tags {
      ScriptsThatTravel(owner, e, s);
    }
  }

  lemma ServicesThatTravel(owner: Owner, e: EndpointDef, svc: Slug)
    ensures svc in ServicesFor(owner, ExportedCalls(owner, e)) <==>
            svc in owner.services && exists s :: CallGoesAlong(owner, e, s) && owner.calls[s].def.service == svc
  {
    if s :| s in ExportedCalls(owner, e) && owner.calls[s].def.service == svc {
      CallsThatTravel(owner, e, s);
    }
    if s :| CallGoesAlong(owner, e, s) && owner.calls[s].def.service == svc {
      CallsThatTravel(owner, e, s);
    }
  }

  /** The pack holds exactly what travels, as it is, and the endpoint with its expression as text and no provider. */
  lemma PackHolds(owner: Owner, slug: Slug)
    requires slug in owner.endpoints
    ensures var e, pack := owner.endpoints[slug], PackOf(owner, slug);
      && (forall s: Slug :: s in pack.scripts <==> ScriptGoesAlong(owner, e, s))
      && (forall s: Slug :: s in pack.calls <==> CallGoesAlong(owner, e, s))
      && (forall svc: Slug :: svc in pack.services <==>
            svc in owner.services && exists s :: CallGoesAlong(owner, e, s) && owner.calls[s].def.service == svc)
      && (forall t: Slug :: t in pack.tags <==> Tags(owner, e, t))
    ensures var pack := PackOf(owner, slug);
      && (forall s | s in pack.scripts :: pack.scripts[s] == owner.scripts[s])
      && (forall s | s in pack.calls :: pack.calls[s] == owner.calls[s])
      && (forall svc | svc in pack.services :: pack.services[svc] == owner.services[svc])
    ensures var e, pack := owner.endpoints[slug], PackOf(owner, slug);
      pack.endpoints == map[slug := PackEndpoint(ToString(e.tagExpr), e.writeCeiling, e.budgets, e.instructions,
                                                 e.enabled, e.aliases, {})]
  {
    var e, pack := owner.endpoints[slug], PackOf(owner, slug);
    forall s: Slug ensures s in pack.scripts <==> ScriptGoesAlong(owner, e, s) {
      ScriptsThatTravel(owner, e, s);
    }
    forall s: Slug ensures s in pack.calls <==> CallGoesAlong(owner, e, s) {
      CallsThatTravel(owner, e, s);
    }
    forall svc: Slug ensures svc in pack.services <==>
      svc in owner.services && exists s :: CallGoesAlong(owner, e, s) && owner.calls[s].def.service == svc
    {
      ServicesThatTravel(owner, e, svc);
    }
    forall t: Slug ensures t in pack.tags <==> Tags(owner, e, t) {
      TagsThatTravel(owner, e, t);
    }
  }

  /** On a store in good order no export fails on a missing call. */
  lemma StoredNeverDangles(owner: Owner, e: EndpointDef)
    requires Stored(owner)
    ensures forall s | s in ExportedScripts(owner, e) :: DeclaresExisting(owner, owner.scripts[s].def)
  {
    forall s | s in ExportedScripts(owner, e) ensures DeclaresExisting(owner, owner.scripts[s].def) {
      assert StoredScript(owner, owner.scripts[s].def);
    }
  }

  // ----- Export, then import elsewhere -----

  /** The store an import of the exported pack leaves: the exported rows, as they were. */
  function Transplant(owner: Owner, slug: Slug): Owner
    requires slug in owner.endpoints
  {
    var e := owner.endpoints[slug];
    var calls := ExportedCalls(owner, e);
    Owner(Restrict(owner.services, ServicesFor(owner, calls)), Restrict(owner.calls, calls),
          Restrict(owner.scripts, ExportedScripts(owner, e)), map[slug := Portable(e)], map[])
  }

  lemma PortableSurvivesThePack(e: EndpointDef)
    requires KeywordFree(e.tagExpr)
    ensures EndpointFromPack(EndpointToPack(e)) == Some(e)
  {
    PrintThenParse(e.tagExpr);
  }

  lemma ExportedCallsSurvive(owner: Owner, keys: set<Slug>)
    requires Stored(owner)
    ensures ReadCalls(Restrict(owner.calls, keys)) == Restrict(owner.calls, keys)
  {
    forall s | s in owner.calls ensures ReadTaggedCall(owner.calls[s]) == owner.calls[s] {
      assert StoredCall(owner, owner.calls[s].def);
      TaggedCallSurvives(owner.calls[s]);
    }
  }

  lemma ExportedScriptsSurvive(owner: Owner, keys: set<Slug>)
    requires Stored(owner)
    ensures ReadScripts(Restrict(owner.scripts, keys)) == Restrict(owner.scripts, keys)
  {
    forall s | s in owner.scripts ensures ReadTaggedScript(owner.scripts[s]) == owner.scripts[s] {
      assert StoredScript(owner, owner.scripts[s].def);
      TaggedScriptSurvives(owner.scripts[s]);
    }
  }

  /** A call that travels takes its service along, and a script every call it declares. */
  lemma ExportIsClosed(owner: Owner, e: EndpointDef)
    requires Stored(owner)
    ensures forall s | s in ExportedCalls(owner, e) ::
      owner.calls[s].def.service in ServicesFor(owner, ExportedCalls(owner, e))
    ensures forall s, a | s in ExportedScripts(owner, e) && a in owner.scripts[s].def.callable ::
      owner.scripts[s].def.callable[a] in ExportedCalls(owner, e)
  {
    forall s | s in ExportedCalls(owner, e)
      ensures owner.calls[s].def.service in ServicesFor(owner, ExportedCalls(owner, e))
    {
      assert StoredCall(owner, owner.calls[s].def);
    }
    forall s, a | s in ExportedScripts(owner, e) && a in owner.scripts[s].def.callable
      ensures owner.scripts[s].def.callable[a] in ExportedCalls(owner, e)
    {
      assert StoredScript(owner, owner.scripts[s].def);
    }
  }

  lemma OneEndpoint(slug: Slug, e: PackEndpoint, model: EndpointDef)
    requires EndpointFromPack(e) == Some(model)
    ensures EndpointsFrom(map[slug := e]) == map[slug := model]
  {
  }

  lemma OneEndpointFits(providers: set<Slug>, slug: Slug, e: PackEndpoint, model: EndpointDef)
    requires EndpointFromPack(e) == Some(model) && EndpointFits(providers, model)
    ensures EndpointsFit(providers, map[slug := e])
  {
  }

  lemma ExportedEndpointFits(owner: Owner, slug: Slug)
    requires Stored(owner) && slug in owner.endpoints
    ensures EndpointsFit({}, PackOf(owner, slug).endpoints)
    ensures EndpointsFrom(PackOf(owner, slug).endpoints) == map[slug := Portable(owner.endpoints[slug])]
  {
    var e := owner.endpoints[slug];
    assert EndpointFits(ProviderSlugs(owner), e);
    PortableSurvivesThePack(Portable(e));
    OneEndpoint(slug, EndpointToPack(Portable(e)), Portable(e));
    OneEndpointFits({}, slug, EndpointToPack(Portable(e)), Portable(e));
  }

  /** No row of `into` goes by a slug of the pack, and no provider of its is on a service of the pack. */
  ghost predicate Apart(into: Owner, pack: Pack) {
    && into.services.Keys !! pack.services.Keys && into.calls.Keys !! pack.calls.Keys
    && into.scripts.Keys !! pack.scripts.Keys && into.endpoints.Keys !! pack.endpoints.Keys
    && into.providers.Keys !! pack.services.Keys
  }

  /** The rows of `more` added to those of `into`, which keeps its providers. */
  function Beside(into: Owner, more: Owner): Owner {
    Owner(into.services + more.services, into.calls + more.calls, into.scripts + more.scripts,
          into.endpoints + more.endpoints, into.providers)
  }

  lemma SelfContainedPacksFit(into: Owner, pack: Pack)
    requires CallsFit(pack.services.Keys, map[], pack.calls) && ScriptsFit(pack.calls.Keys, pack.scripts)
    requires EndpointsFit({}, pack.endpoints) && Apart(into, pack)
    ensures Importable(into, pack)
  {
    forall s | s in pack.calls
      ensures CallFits(into.services.Keys + pack.services.Keys, into.calls, s, pack.calls[s].def)
    {
      assert CallFits(pack.services.Keys, map[], s, pack.calls[s].def);
    }
  }

  lemma ExportedRowsFit(owner: Owner, slug: Slug)
    requires Stored(owner) && slug in owner.endpoints
    ensures var pack := PackOf(owner, slug);
      CallsFit(pack.services.Keys, map[], pack.calls) && ScriptsFit(pack.calls.Keys, pack.scripts)
  {
    var e, pack := owner.endpoints[slug], PackOf(owner, slug);
    ExportIsClosed(owner, e);
    forall s | s in pack.calls ensures CallFits(pack.services.Keys, map[], s, pack.calls[s].def) {
      assert StoredCall(owner, owner.calls[s].def);
    }
    forall s | s in pack.scripts ensures ScriptFits(pack.calls.Keys, pack.scripts[s].def) {
      assert StoredScript(owner, owner.scripts[s].def);
    }
  }

  /** Every exported pack can be imported by any owner it does not clash with, and arrives as it left. */
  lemma ExportedPackIsImportable(owner: Owner, slug: Slug, into: Owner)
    requires Stored(owner) && slug in owner.endpoints && Apart(into, PackOf(owner, slug))
    ensures Importable(into, PackOf(owner, slug))
    ensures Imported(into, PackOf(owner, slug)) == Beside(into, Transplant(owner, slug))
  {
    var e, pack := owner.endpoints[slug], PackOf(owner, slug);
    ExportedEndpointFits(owner, slug);
    ExportedRowsFit(owner, slug);
    SelfContainedPacksFit(into, pack);
    ExportedServicesSurvive(owner, ServicesFor(owner, ExportedCalls(owner, e)));
    ExportedCallsSurvive(owner, ExportedCalls(owner, e));
    ExportedScriptsSurvive(owner, ExportedScripts(owner, e));
  }

  lemma ExportedServicesSurvive(owner: Owner, keys: set<Slug>)
    requires Stored(owner)
    ensures ReadServices(Restrict(owner.services, keys)) == Restrict(owner.services, keys)
  {
  }

  /** The transplanted endpoint selects exactly what the original did, although more calls came along. */
  lemma TransplantSelectsTheSame(owner: Owner, slug: Slug)
    requires Stored(owner) && slug in owner.endpoints
    ensures var e, t := owner.endpoints[slug], Transplant(owner, slug);
      && P.SelectedCalls(t, Portable(e)) == P.SelectedCalls(owner, e)
      && P.SelectedScripts(t, Portable(e)) == P.SelectedScripts(owner, e)
      && P.ScriptsOf(t, Portable(e)) == P.ScriptsOf(owner, e)
  {
    var e, t := owner.endpoints[slug], Transplant(owner, slug);
    assert P.SelectedScripts(t, Portable(e)) == P.SelectedScripts(owner, e);
  }

  /** No call or script of the owner's own satisfies the expression. */
  ghost predicate SelectsNone(into: Owner, e: EndpointDef) {
    && (forall s | s in into.calls :: !Eval(e.tagExpr, into.calls[s].tags))
    && (forall s | s in into.scripts :: !Eval(e.tagExpr, into.scripts[s].tags))
  }

  /** What is selected among rows that are added to others is what is selected of either. */
  lemma BesideSelects(into: Owner, more: Owner, e: EndpointDef)
    requires into.calls.Keys !! more.calls.Keys && into.scripts.Keys !! more.scripts.Keys
    ensures P.SelectedCalls(Beside(into, more), e) == P.SelectedCalls(into, e) + P.SelectedCalls(more, e)
    ensures P.SelectedScripts(Beside(into, more), e) == P.SelectedScripts(into, e) + P.SelectedScripts(more, e)
  {
  }

  lemma NoneSelected(into: Owner, e: EndpointDef)
    ensures SelectsNone(into, e) <==> P.SelectedCalls(into, e) == {} && P.SelectedScripts(into, e) == {}
  {
    if P.SelectedCalls(into, e) == {} {
      forall s | s in into.calls ensures !Eval(e.tagExpr, into.calls[s].tags) {
        assert s !in P.SelectedCalls(into, e);
      }
    }
    if P.SelectedScripts(into, e) == {} {
      forall s | s in into.scripts ensures !Eval(e.tagExpr, into.scripts[s].tags) {
        assert s !in P.SelectedScripts(into, e);
      }
    }
  }

  /** The importer's own selected rows come on top of what the original selects. */
  lemma OwnRowsComeOnTop(owner: Owner, slug: Slug, into: Owner)
    requires Stored(owner) && slug in owner.endpoints && Apart(into, PackOf(owner, slug))
    ensures var e, b := owner.endpoints[slug], Beside(into, Transplant(owner, slug));
      && P.SelectedCalls(b, Portable(e)) == P.SelectedCalls(into, e) + P.SelectedCalls(owner, e)
      && P.SelectedScripts(b, Portable(e)) == P.SelectedScripts(into, e) + P.SelectedScripts(owner, e)
  {
    TransplantSelectsTheSame(owner, slug);
    var e := owner.endpoints[slug];
    BesideSelects(into, Transplant(owner, slug), Portable(e));
    assert P.SelectedCalls(into, Portable(e)) == P.SelectedCalls(into, e);
    assert P.SelectedScripts(into, Portable(e)) == P.SelectedScripts(into, e);
  }

  lemma NothingOwnIsSelected(owner: Owner, slug: Slug, into: Owner)
    requires Stored(owner) && slug in owner.endpoints && Apart(into, PackOf(owner, slug))
    requires SelectsNone(into, owner.endpoints[slug])
    ensures var e, b := owner.endpoints[slug], Beside(into, Transplant(owner, slug));
      && P.SelectedCalls(b, Portable(e)) == P.SelectedCalls(owner, e)
      && P.SelectedScripts(b, Portable(e)) == P.SelectedScripts(owner, e)
  {
    OwnRowsComeOnTop(owner, slug, into);
    NoneSelected(into, owner.endpoints[slug]);
  }

  lemma TransplantCompilesTheSame(owner: Owner, slug: Slug, into: Owner, s: Slug)
    requires Stored(owner) && slug in owner.endpoints && s in ExportedCalls(owner, owner.endpoints[slug])
    ensures P.Compile(Beside(into, Transplant(owner, slug)), s, owner.calls[s].def) ==
            P.Compile(owner, s, owner.calls[s].def)
    ensures owner.calls[s].def.service in PackOf(owner, slug).services
  {
    ExportIsClosed(owner, owner.endpoints[slug]);
    assert StoredCall(owner, owner.calls[s].def);
  }

  lemma SelectedRowsTravel(owner: Owner, slug: Slug, into: Owner)
    requires slug in owner.endpoints
    ensures var e, b := owner.endpoints[slug], Beside(into, Transplant(owner, slug));
      && (forall s | s in P.SelectedCalls(owner, e) :: s in ExportedCalls(owner, e) && b.calls[s] == owner.calls[s])
      && (forall s | s in P.SelectedScripts(owner, e) ::
        s in ExportedScripts(owner, e) && b.scripts[s] == owner.scripts[s])
  {
  }

  lemma PlannedCallIs(owner: Owner, slug: Slug, p: P.EndpointPlan, s: Slug)
    requires P.IsPlan(owner, slug, p) && s in p.calls
    ensures s in P.SelectedCalls(owner, owner.endpoints[slug])
    ensures P.Compile(owner, s, owner.calls[s].def) == Ok(p.calls[s]) && p.calls[s].call == owner.calls[s].def
    ensures P.CallAdmitted(owner, owner.endpoints[slug], p.calls[s])
  {
  }

  lemma AdmittedElsewhere(owner: Owner, e: EndpointDef, planned: P.PlannedCall, b: Owner)
    requires P.CallAdmitted(owner, e, planned) && planned.call.service !in b.providers
    ensures P.CallAdmitted(b, Portable(e), planned)
  {
  }

  lemma CallTravels(owner: Owner, slug: Slug, p: P.EndpointPlan, into: Owner, s: Slug)
    requires Stored(owner) && P.IsPlan(owner, slug, p) && Apart(into, PackOf(owner, slug)) && s in p.calls
    ensures var e, b := owner.endpoints[slug], Beside(into, Transplant(owner, slug));
      && s in b.calls && P.Compile(b, s, b.calls[s].def) == Ok(p.calls[s])
      && P.CallAdmitted(b, Portable(e), p.calls[s])
  {
    PlannedCallIs(owner, slug, p, s);
    SelectedRowsTravel(owner, slug, into);
    TransplantCompilesTheSame(owner, slug, into, s);
    AdmittedElsewhere(owner, owner.endpoints[slug], p.calls[s], Beside(into, Transplant(owner, slug)));
  }

  lemma ScriptsTravel(owner: Owner, slug: Slug, into: Owner)
    requires slug in owner.endpoints
    requires var e, b := owner.endpoints[slug], Beside(into, Transplant(owner, slug));
      P.SelectedScripts(b, Portable(e)) == P.SelectedScripts(owner, e)
    ensures P.ScriptsOf(Beside(into, Transplant(owner, slug)), Portable(owner.endpoints[slug]))
         == P.ScriptsOf(owner, owner.endpoints[slug])
  {
    SelectedRowsTravel(owner, slug, into);
  }

  lemma PlanTravels(owner: Owner, slug: Slug, p: P.EndpointPlan, into: Owner)
    requires Stored(owner) && P.IsPlan(owner, slug, p) && Apart(into, PackOf(owner, slug))
    requires SelectsNone(into, owner.endpoints[slug])
    ensures P.IsPlan(Beside(into, Transplant(owner, slug)), slug, p)
  {
    NothingOwnIsSelected(owner, slug, into);
    ScriptsTravel(owner, slug, into);
    forall s | s in p.calls
      ensures var e, b := owner.endpoints[slug], Beside(into, Transplant(owner, slug));
        && s in b.calls && P.Compile(b, s, b.calls[s].def) == Ok(p.calls[s])
        && P.CallAdmitted(b, Portable(e), p.calls[s])
    {
      CallTravels(owner, slug, p, into, s);
    }
    SamePlanElsewhere(owner, slug, p, Beside(into, Transplant(owner, slug)));
  }

  lemma SamePlanElsewhere(owner: Owner, slug: Slug, p: P.EndpointPlan, b: Owner)
    requires P.IsPlan(owner, slug, p) && slug in b.endpoints && b.endpoints[slug] == Portable(owner.endpoints[slug])
    requires P.SelectedCalls(b, b.endpoints[slug]) == P.SelectedCalls(owner, owner.endpoints[slug])
    requires P.ScriptsOf(b, b.endpoints[slug]) == P.ScriptsOf(owner, owner.endpoints[slug])
    requires forall s | s in p.calls :: s in b.calls && P.Compile(b, s, b.calls[s].def) == Ok(p.calls[s])
    requires forall s | s in p.calls :: P.CallAdmitted(b, b.endpoints[slug], p.calls[s])
    ensures P.IsPlan(b, slug, p)
  {
  }

  /** Rows of the importer's own that the endpoint selects are never among those of the pack. */
  lemma OnTopMeansNew(owner: Owner, slug: Slug, into: Owner)
    requires slug in owner.endpoints && Apart(into, PackOf(owner, slug))
    ensures P.SelectedCalls(into, owner.endpoints[slug]) !! P.SelectedCalls(owner, owner.endpoints[slug])
    ensures P.SelectedScripts(into, owner.endpoints[slug]) !! P.SelectedScripts(owner, owner.endpoints[slug])
  {
    SelectedRowsTravel(owner, slug, into);
    var pack := PackOf(owner, slug);
    assert P.SelectedCalls(owner, owner.endpoints[slug]) <= pack.calls.Keys;
    assert P.SelectedScripts(owner, owner.endpoints[slug]) <= pack.scripts.Keys;
  }

  lemma NothingOnTop(more: set<Slug>, base: set<Slug>)
    requires more !! base && more + base == base
    ensures more == {}
  {
    assert more <= more + base && more == more * base;
  }

  lemma OtherwiseOtherPlan(owner: Owner, slug: Slug, p: P.EndpointPlan, into: Owner)
    requires Stored(owner) && P.IsPlan(owner, slug, p) && Apart(into, PackOf(owner, slug))
    requires P.IsPlan(Beside(into, Transplant(owner, slug)), slug, p)
    ensures SelectsNone(into, owner.endpoints[slug])
  {
    var e := owner.endpoints[slug];
    SamePlanSelectsTheSame(owner, slug, p, Beside(into, Transplant(owner, slug)));
    OwnRowsComeOnTop(owner, slug, into);
    OnTopMeansNew(owner, slug, into);
    NothingOnTop(P.SelectedCalls(into, e), P.SelectedCalls(owner, e));
    NothingOnTop(P.SelectedScripts(into, e), P.SelectedScripts(owner, e));
    NoneSelected(into, e);
  }

  lemma SamePlanSelectsTheSame(owner: Owner, slug: Slug, p: P.EndpointPlan, b: Owner)
    requires P.IsPlan(owner, slug, p) && P.IsPlan(b, slug, p)
    ensures P.SelectedCalls(b, b.endpoints[slug]) == P.SelectedCalls(owner, owner.endpoints[slug])
    ensures P.SelectedScripts(b, b.endpoints[slug]) == P.SelectedScripts(owner, owner.endpoints[slug])
  {
    assert P.SelectedScripts(b, b.endpoints[slug]) == p.scripts.Keys;
    assert P.SelectedScripts(owner, owner.endpoints[slug]) == p.scripts.Keys;
  }

  /**
   Export then import keeps the plan: whoever imports the pack of an endpoint that has a plan gets the very
   same plan, with the same calls, scripts, reachable calls, origins, tools and budgets, exactly when none
   of the importer's own calls and scripts satisfies the endpoint's expression.
   */
  lemma ExportThenImportKeepsThePlan(owner: Owner, slug: Slug, p: P.EndpointPlan, into: Owner)
    requires Stored(owner) && P.IsPlan(owner, slug, p) && Apart(into, PackOf(owner, slug))
    ensures Importable(into, PackOf(owner, slug))
    ensures P.IsPlan(Imported(into, PackOf(owner, slug)), slug, p) <==> SelectsNone(into, owner.endpoints[slug])
  {
    ExportedPackIsImportable(owner, slug, into);
    if SelectsNone(into, owner.endpoints[slug]) {
      PlanTravels(owner, slug, p, into);
    } else if P.IsPlan(Imported(into, PackOf(owner, slug)), slug, p) {
      OtherwiseOtherPlan(owner, slug, p, into);
    }
  }

  // ----- Export again -----

  /** No alias of the endpoint names a row of the importer's own. */
  ghost predicate RenamesNone(into: Owner, e: EndpointDef) {
    AliasedCalls(e) !! into.calls.Keys && AliasedScripts(e) !! into.scripts.Keys
  }

  lemma TravelledRows(owner: Owner, slug: Slug, into: Owner)
    requires slug in owner.endpoints
    ensures var e, b := owner.endpoints[slug], Beside(into, Transplant(owner, slug));
      && b.calls.Keys == into.calls.Keys + ExportedCalls(owner, e)
      && b.scripts.Keys == into.scripts.Keys + ExportedScripts(owner, e)
      && (forall s | s in ExportedCalls(owner, e) :: b.calls[s] == owner.calls[s])
      && (forall s | s in ExportedScripts(owner, e) :: b.scripts[s] == owner.scripts[s])
  {
  }

  lemma UnionTravels(selectedHere: set<Slug>, selected: set<Slug>, renamed: set<Slug>, own: set<Slug>, all: set<Slug>)
    requires selectedHere <= own && selected !! own && selected <= all
    ensures var came := (selected + renamed) * all;
      (selectedHere + selected + renamed) * (own + came) == (selectedHere + renamed) * own + came
  {
  }

  /** What travels from the importer is what came, on top of the importer's own rows that are selected or renamed. */
  lemma ScriptsOnTop(owner: Owner, slug: Slug, into: Owner)
    requires Stored(owner) && slug in owner.endpoints && Apart(into, PackOf(owner, slug))
    ensures var e, b := owner.endpoints[slug], Beside(into, Transplant(owner, slug));
      ExportedScripts(b, Portable(e)) == ExportedScripts(into, e) + ExportedScripts(owner, e)
  {
    var e := owner.endpoints[slug];
    OwnRowsComeOnTop(owner, slug, into);
    TravelledRows(owner, slug, into);
    SelectedRowsTravel(owner, slug, into);
    KeysOfRestriction(owner.scripts, ExportedScripts(owner, e));
    assert AliasedScripts(Portable(e)) == AliasedScripts(e);
    UnionTravels(P.SelectedScripts(into, e), P.SelectedScripts(owner, e), AliasedScripts(e), into.scripts.Keys,
                 owner.scripts.Keys);
  }

  lemma SameScriptsTravel(owner: Owner, slug: Slug, into: Owner)
    requires Stored(owner) && slug in owner.endpoints && Apart(into, PackOf(owner, slug))
    requires SelectsNone(into, owner.endpoints[slug]) && RenamesNone(into, owner.endpoints[slug])
    ensures ExportedScripts(Beside(into, Transplant(owner, slug)), Portable(owner.endpoints[slug]))
         == ExportedScripts(owner, owner.endpoints[slug])
  {
    ScriptsOnTop(owner, slug, into);
    NoneSelected(into, owner.endpoints[slug]);
    assert ExportedScripts(into, owner.endpoints[slug]) == {};
  }

  lemma SameDeclarations(a: Owner, b: Owner, scripts: set<Slug>)
    requires scripts <= a.scripts.Keys && scripts <= b.scripts.Keys
    requires forall s | s in scripts :: a.scripts[s] == b.scripts[s]
    ensures DeclaredCalls(a, scripts) == DeclaredCalls(b, scripts)
  {
  }

  /** Among own rows and rows that came, the wanted ones are those that came, if no own row is wanted. */
  lemma OnlyWhatCame(wanted: set<Slug>, own: set<Slug>, came: set<Slug>, all: set<Slug>)
    requires came == wanted * all && wanted !! own
    ensures wanted * (own + came) == came
  {
  }

  lemma DeclaredTravels(owner: Owner, e: EndpointDef)
    requires Stored(owner)
    ensures DeclaredCalls(owner, ExportedScripts(owner, e)) <= ExportedCalls(owner, e)
  {
    ExportIsClosed(owner, e);
  }

  lemma SameCallsTravel(owner: Owner, slug: Slug, into: Owner)
    requires Stored(owner) && slug in owner.endpoints && Apart(into, PackOf(owner, slug))
    requires SelectsNone(into, owner.endpoints[slug]) && RenamesNone(into, owner.endpoints[slug])
    ensures var e, b := owner.endpoints[slug], Beside(into, Transplant(owner, slug));
      && ExportedScripts(b, Portable(e)) == ExportedScripts(owner, e)
      && ExportedCalls(b, Portable(e)) == ExportedCalls(owner, e)
  {
    var e, b := owner.endpoints[slug], Beside(into, Transplant(owner, slug));
    var scripts := ExportedScripts(owner, e);
    var wanted := P.SelectedCalls(owner, e) + AliasedCalls(e) + DeclaredCalls(owner, scripts);
    SameScriptsTravel(owner, slug, into);
    NothingOwnIsSelected(owner, slug, into);
    TravelledRows(owner, slug, into);
    SameDeclarations(b, owner, scripts);
    DeclaredTravels(owner, e);
    OnTopMeansNone(owner, slug, into);
    OnlyWhatCame(wanted, into.calls.Keys, ExportedCalls(owner, e), owner.calls.Keys);
    assert AliasedCalls(Portable(e)) == AliasedCalls(e);
  }

  lemma OnTopMeansNone(owner: Owner, slug: Slug, into: Owner)
    requires Stored(owner) && slug in owner.endpoints && Apart(into, PackOf(owner, slug))
    ensures P.SelectedCalls(owner, owner.endpoints[slug]) !! into.calls.Keys
    ensures DeclaredCalls(owner, ExportedScripts(owner, owner.endpoints[slug])) !! into.calls.Keys
  {
    SelectedRowsTravel(owner, slug, into);
    DeclaredTravels(owner, owner.endpoints[slug]);
    KeysOfRestriction(owner.calls, ExportedCalls(owner, owner.endpoints[slug]));
  }

  /** Packs are made of the rows that travel, so the same rows make the same pack. */
  lemma SameRowsSamePack(owner: Owner, slug: Slug, b: Owner)
    requires slug in owner.endpoints && slug in b.endpoints && b.endpoints[slug] == Portable(owner.endpoints[slug])
    requires var e := owner.endpoints[slug];
      && ExportedScripts(b, Portable(e)) == ExportedScripts(owner, e)
      && ExportedCalls(b, Portable(e)) == ExportedCalls(owner, e)
      && (forall s | s in ExportedScripts(owner, e) :: b.scripts[s] == owner.scripts[s])
      && (forall s | s in ExportedCalls(owner, e) :: b.calls[s] == owner.calls[s])
      && ServicesFor(b, ExportedCalls(owner, e)) == ServicesFor(owner, ExportedCalls(owner, e))
      && forall s | s in ServicesFor(owner, ExportedCalls(owner, e)) :: b.services[s] == owner.services[s]
    ensures PackOf(b, slug) == PackOf(owner, slug)
  {
    var e := owner.endpoints[slug];
    SameRestriction(b.services, owner.services, ServicesFor(owner, ExportedCalls(owner, e)));
    SameRestriction(b.calls, owner.calls, ExportedCalls(owner, e));
    SameRestriction(b.scripts, owner.scripts, ExportedScripts(owner, e));
    SameTags(b, owner, ExportedCalls(owner, e), ExportedScripts(owner, e));
    assert Portable(Portable(e)) == Portable(e);
  }

  lemma SameRestriction<V>(a: map<Slug, V>, b: map<Slug, V>, keys: set<Slug>)
    requires keys <= a.Keys && keys <= b.Keys && forall s | s in keys :: a[s] == b[s]
    ensures Restrict(a, keys) == Restrict(b, keys)
  {
  }

  lemma SameTags(a: Owner, b: Owner, calls: set<Slug>, scripts: set<Slug>)
    requires calls <= a.calls.Keys && calls <= b.calls.Keys && scripts <= a.scripts.Keys && scripts <= b.scripts.Keys
    requires forall s | s in calls :: a.calls[s] == b.calls[s]
    requires forall s | s in scripts :: a.scripts[s] == b.scripts[s]
    ensures TagsFor(a, calls, scripts) == TagsFor(b, calls, scripts)
  {
  }

  lemma SameServices(a: Owner, b: Owner, calls: set<Slug>)
    requires calls <= a.calls.Keys && calls <= b.calls.Keys
    requires forall s | s in calls ::
      a.calls[s] == b.calls[s] && a.calls[s].def.service in a.services && a.calls[s].def.service in b.services
    ensures ServicesFor(a, calls) == ServicesFor(b, calls)
  {
  }

  lemma TravelledServices(owner: Owner, slug: Slug, into: Owner)
    requires slug in owner.endpoints
    ensures var e, b := owner.endpoints[slug], Beside(into, Transplant(owner, slug));
      forall s | s in ServicesFor(owner, ExportedCalls(owner, e)) ::
        s in b.services && b.services[s] == owner.services[s]
  {
  }

  lemma SameServicesTravel(owner: Owner, slug: Slug, into: Owner)
    requires Stored(owner) && slug in owner.endpoints
    ensures var e, b := owner.endpoints[slug], Beside(into, Transplant(owner, slug));
      && ExportedCalls(owner, e) <= b.calls.Keys
      && ServicesFor(b, ExportedCalls(owner, e)) == ServicesFor(owner, ExportedCalls(owner, e))
      && forall s | s in ServicesFor(owner, ExportedCalls(owner, e)) :: b.services[s] == owner.services[s]
  {
    TravelledRows(owner, slug, into);
    TravelledServices(owner, slug, into);
    ExportIsClosed(owner, owner.endpoints[slug]);
    SameServices(Beside(into, Transplant(owner, slug)), owner, ExportedCalls(owner, owner.endpoints[slug]));
  }

  lemma SamePackTravelsOn(owner: Owner, slug: Slug, into: Owner)
    requires Stored(owner) && slug in owner.endpoints && Apart(into, PackOf(owner, slug))
    requires SelectsNone(into, owner.endpoints[slug]) && RenamesNone(into, owner.endpoints[slug])
    ensures PackOf(Beside(into, Transplant(owner, slug)), slug) == PackOf(owner, slug)
  {
    SameCallsTravel(owner, slug, into);
    SameServicesTravel(owner, slug, into);
    TravelledRows(owner, slug, into);
    SameRowsSamePack(owner, slug, Beside(into, Transplant(owner, slug)));
  }

  lemma KeysOfRestriction<V>(rows: map<Slug, V>, keys: set<Slug>)
    requires keys <= rows.Keys
    ensures Restrict(rows, keys).Keys == keys
  {
  }

  lemma PackKeys(owner: Owner, slug: Slug)
    requires slug in owner.endpoints
    ensures PackOf(owner, slug).calls.Keys == ExportedCalls(owner, owner.endpoints[slug])
    ensures PackOf(owner, slug).scripts.Keys == ExportedScripts(owner, owner.endpoints[slug])
  {
    KeysOfRestriction(owner.calls, ExportedCalls(owner, owner.endpoints[slug]));
    KeysOfRestriction(owner.scripts, ExportedScripts(owner, owner.endpoints[slug]));
  }

  lemma OtherwiseOtherPack(owner: Owner, slug: Slug, into: Owner)
    requires Stored(owner) && slug in owner.endpoints && Apart(into, PackOf(owner, slug))
    requires PackOf(Beside(into, Transplant(owner, slug)), slug) == PackOf(owner, slug)
    ensures SelectsNone(into, owner.endpoints[slug]) && RenamesNone(into, owner.endpoints[slug])
  {
    var e, b := owner.endpoints[slug], Beside(into, Transplant(owner, slug));
    PackKeys(b, slug);
    OwnRowsComeOnTop(owner, slug, into);
    assert AliasedScripts(Portable(e)) == AliasedScripts(e) && AliasedCalls(Portable(e)) == AliasedCalls(e);
    OwnRowsStayHome(into.calls.Keys, ExportedCalls(b, Portable(e)), PackOf(owner, slug).calls.Keys);
    OwnRowsStayHome(into.scripts.Keys, ExportedScripts(b, Portable(e)), PackOf(owner, slug).scripts.Keys);
    assert P.SelectedCalls(into, e) == {} && P.SelectedScripts(into, e) == {};
    NoneSelected(into, e);
  }

  lemma OwnRowsStayHome(own: set<Slug>, exported: set<Slug>, packed: set<Slug>)
    requires exported == packed && own !! packed
    ensures forall s | s in own :: s !in exported
  {
  }

  /**
   Exporting the imported endpoint gives the same pack again, exactly when none of the importer's own calls
   and scripts satisfies the endpoint's expression or goes by the name of an alias target, which the
   original owner then lacks.
   */
  lemma ReexportGivesTheSamePack(owner: Owner, slug: Slug, into: Owner)
    requires Stored(owner) && slug in owner.endpoints && Apart(into, PackOf(owner, slug))
    ensures slug in Imported(into, PackOf(owner, slug)).endpoints
    ensures PackOf(Imported(into, PackOf(owner, slug)), slug) == PackOf(owner, slug) <==>
            SelectsNone(into, owner.endpoints[slug]) && RenamesNone(into, owner.endpoints[slug])
  {
    ExportedPackIsImportable(owner, slug, into);
    if SelectsNone(into, owner.endpoints[slug]) && RenamesNone(into, owner.endpoints[slug]) {
      SamePackTravelsOn(owner, slug, into);
    } else if PackOf(Imported(into, PackOf(owner, slug)), slug) == PackOf(owner, slug) {
      OtherwiseOtherPack(owner, slug, into);
    }
  }
}
