/**
 Importing a pack: every definition it names is created or updated by slug, services first, then
 api_calls, scripts and endpoints. A dry run classifies every row and writes none.
 */
module Imports {
  import opened Wrappers
  import opened Slugs
  import opened Orders
  import opened TagExpressions
  import opened Definitions
  import opened Tools
  import opened Rows

  /** An endpoint as a pack carries it: its expression as text. */
  datatype PackEndpoint = PackEndpoint(
    tagExpr: string, writeCeiling: Access, budgets: Budgets, instructions: Option<string>, enabled: bool,
    aliases: map<string, Target>, authProviders: set<Slug>)

  datatype Pack = Pack(
    services: map<Slug, Service>, calls: map<Slug, Tagged<ApiCall>>, scripts: map<Slug, Tagged<ScriptDef>>,
    endpoints: map<Slug, PackEndpoint>, tags: set<Slug>)

  datatype Change = Created | Updated | Unchanged

  /** What happened to each row, in slug order. */
  type Changes = seq<(Slug, Change)>

  datatype ImportReport = ImportReport(services: Changes, calls: Changes, scripts: Changes, endpoints: Changes)

  datatype ImportError = Conversion(endpoint: Slug) | Conflict(slug: Slug) | NotFound(slug: Slug)

  predicate NoneChanged(changes: Changes) {
    forall i | 0 <= i < |changes| :: changes[i].1 == Unchanged
  }

  predicate IsIdempotentNoOp(r: ImportReport) {
    NoneChanged(r.services) && NoneChanged(r.calls) && NoneChanged(r.scripts) && NoneChanged(r.endpoints)
  }

  /** The first `k` entries of the report on `order`. */
  function Reported(all: map<Slug, Change>, order: seq<Slug>, k: nat): Changes
    requires k <= |order| && forall i | 0 <= i < k :: order[i] in all
  {
    seq(k, i requires 0 <= i < k => (order[i], all[order[i]]))
  }

  ghost function Listed(all: map<Slug, Change>): Changes {
    var order := OrderOf(all.Keys);
    Reported(all, order, |order|)
  }

  predicate AllUnchanged(all: map<Slug, Change>) {
    forall s | s in all :: all[s] == Unchanged
  }

  lemma ListedIsUnchanged(all: map<Slug, Change>)
    ensures NoneChanged(Listed(all)) <==> AllUnchanged(all)
  {
    var order := OrderOf(all.Keys);
    if NoneChanged(Listed(all)) {
      forall s | s in all ensures all[s] == Unchanged {
        var i :| 0 <= i < |order| && order[i] == s;
        assert Listed(all)[i].1 == Unchanged;
      }
    }
  }

  // ----- Conversion of an endpoint -----

  function EndpointFromPack(e: PackEndpoint): Option<EndpointDef> {
    match Parse(e.tagExpr)
    case Ok(expr) =>
      Some(EndpointDef(expr, e.writeCeiling, e.budgets, e.instructions, e.enabled, e.aliases, e.authProviders))
    case Err(_) => None
  }

  function EndpointToPack(e: EndpointDef): PackEndpoint {
    PackEndpoint(ToString(e.tagExpr), e.writeCeiling, e.budgets, e.instructions, e.enabled, e.aliases, e.authProviders)
  }

  method ConvertEndpoint(e: PackEndpoint) returns (model: Option<EndpointDef>)
    ensures model == EndpointFromPack(e) && (model.Some? ==> KeywordFree(model.value.tagExpr))
  {
    var parsed := ParseText(e.tagExpr);
    if parsed.Err? {
      return None;
    }
    ParsedTreeIsKeywordFree(e.tagExpr);
    model := Some(EndpointDef(parsed.value, e.writeCeiling, e.budgets, e.instructions, e.enabled, e.aliases,
                              e.authProviders));
  }

  // ----- One row against the stored ones -----

  function Classify<T(==)>(existing: Option<T>, model: T): Change {
    if existing.None? then Created else if existing.value == model then Unchanged else Updated
  }

  /** An api_call is looked up under its service. */
  function LookupCall(rows: map<Slug, Tagged<ApiCall>>, service: Slug, slug: Slug): Option<Tagged<ApiCall>> {
    if slug in rows && rows[slug].def.service == service then Some(rows[slug]) else None
  }

  /** The row can be written: its service exists, and no call of that slug lives under another service. */
  ghost predicate CallFits(services: set<Slug>, rows: map<Slug, Tagged<ApiCall>>, slug: Slug, c: ApiCall) {
    && c.service in services && WritableCallParams(c.params)
    && (slug in rows ==> rows[slug].def.service == c.service)
  }

  ghost predicate ScriptFits(calls: set<Slug>, d: ScriptDef) {
    WritableScriptParams(d.params) && forall a | a in d.callable :: d.callable[a] in calls
  }

  function ProviderSlugs(owner: Owner): set<Slug> {
    set svc | svc in owner.providers :: owner.providers[svc].slug
  }

  ghost predicate EndpointFits(providers: set<Slug>, e: EndpointDef) {
    KeywordFree(e.tagExpr) && Unambiguous(e.aliases) && e.authProviders <= providers
  }

  function ReadTaggedCall(c: Tagged<ApiCall>): Tagged<ApiCall> {
    Tagged(ReadCall(c.def), c.tags)
  }

  function ReadTaggedScript(d: Tagged<ScriptDef>): Tagged<ScriptDef> {
    Tagged(ReadScript(d.def), d.tags)
  }

  // ----- What a whole import leaves -----

  function ReadServices(services: map<Slug, Service>): map<Slug, Service> {
    map s | s in services :: ReadService(services[s])
  }

  function ReadCalls(calls: map<Slug, Tagged<ApiCall>>): map<Slug, Tagged<ApiCall>> {
    map s | s in calls :: ReadTaggedCall(calls[s])
  }

  function ReadScripts(scripts: map<Slug, Tagged<ScriptDef>>): map<Slug, Tagged<ScriptDef>> {
    map s | s in scripts :: ReadTaggedScript(scripts[s])
  }

  /** The endpoints whose expression parses. */
  function EndpointsFrom(endpoints: map<Slug, PackEndpoint>): map<Slug, EndpointDef> {
    map s | s in endpoints && EndpointFromPack(endpoints[s]).Some? :: EndpointFromPack(endpoints[s]).value
  }

  ghost predicate AllParse(endpoints: map<Slug, PackEndpoint>) {
    forall s | s in endpoints :: EndpointFromPack(endpoints[s]).Some?
  }

  function Imported(owner: Owner, pack: Pack): Owner {
    Owner(owner.services + ReadServices(pack.services), owner.calls + ReadCalls(pack.calls),
          owner.scripts + ReadScripts(pack.scripts), owner.endpoints + EndpointsFrom(pack.endpoints), owner.providers)
  }

  ghost predicate CallsFit(services: set<Slug>, rows: map<Slug, Tagged<ApiCall>>, calls: map<Slug, Tagged<ApiCall>>) {
    forall s | s in calls :: CallFits(services, rows, s, calls[s].def)
  }

  ghost predicate ScriptsFit(calls: set<Slug>, scripts: map<Slug, Tagged<ScriptDef>>) {
    forall s | s in scripts :: ScriptFits(calls, scripts[s].def)
  }

  ghost predicate EndpointsFit(providers: set<Slug>, endpoints: map<Slug, PackEndpoint>) {
    forall s | s in endpoints ::
      EndpointFromPack(endpoints[s]).Some? && EndpointFits(providers, EndpointFromPack(endpoints[s]).value)
  }

  /** The pack can be imported in full: each kind of row may refer to what is there and to what the pack brings. */
  ghost predicate Importable(owner: Owner, pack: Pack) {
    && CallsFit(owner.services.Keys + pack.services.Keys, owner.calls, pack.calls)
    && ScriptsFit(owner.calls.Keys + pack.calls.Keys, pack.scripts)
    && EndpointsFit(ProviderSlugs(owner), pack.endpoints)
  }

  function ServiceChanges(rows: map<Slug, Service>, services: map<Slug, Service>): map<Slug, Change> {
    map s | s in services :: Classify(Lookup(rows, s), services[s])
  }

  function CallChanges(rows: map<Slug, Tagged<ApiCall>>, calls: map<Slug, Tagged<ApiCall>>): map<Slug, Change> {
    map s | s in calls :: Classify(LookupCall(rows, calls[s].def.service, s), calls[s])
  }

  function ScriptChanges(rows: map<Slug, Tagged<ScriptDef>>, scripts: map<Slug, Tagged<ScriptDef>>): map<Slug, Change> {
    map s | s in scripts :: Classify(Lookup(rows, s), scripts[s])
  }

  function EndpointChanges(rows: map<Slug, EndpointDef>, endpoints: map<Slug, EndpointDef>): map<Slug, Change> {
    map s | s in endpoints :: Classify(Lookup(rows, s), endpoints[s])
  }

  /** How each row compares with the stored definitions. */
  ghost function ReportOf(owner: Owner, pack: Pack): ImportReport {
    ImportReport(Listed(ServiceChanges(owner.services, pack.services)), Listed(CallChanges(owner.calls, pack.calls)),
                 Listed(ScriptChanges(owner.scripts, pack.scripts)),
                 Listed(EndpointChanges(owner.endpoints, EndpointsFrom(pack.endpoints))))
  }

  // ----- Writing one row -----

  /** Why the store refuses an api_call, if it does. */
  function CallProblem(services: set<Slug>, rows: map<Slug, Tagged<ApiCall>>, slug: Slug,
                       c: ApiCall): Option<ImportError>
  {
    if c.service !in services then Some(NotFound(c.service))
    else if (slug in rows && rows[slug].def.service != c.service) || !WritableCallParams(c.params)
    then Some(Conflict(slug))
    else None
  }

  /** Params come first, then the declared calls in alias order. */
  ghost function ScriptProblem(calls: set<Slug>, slug: Slug, d: ScriptDef): Option<ImportError> {
    var missing := set a | a in d.callable && d.callable[a] !in calls;
    if !WritableScriptParams(d.params) then Some(Conflict(slug))
    else if missing != {} then Some(NotFound(d.callable[LeastOf(missing)]))
    else None
  }

  /** An expression that does not parse fails a dry run too. */
  ghost function EndpointProblem(providers: set<Slug>, dryRun: bool, slug: Slug, e: PackEndpoint): Option<ImportError> {
    match EndpointFromPack(e)
    case None => Some(Conversion(slug))
    case Some(model) =>
      if dryRun then None
      else if !Unambiguous(model.aliases) then Some(Conflict(slug))
      else if !(model.authProviders <= providers) then Some(NotFound(slug))
      else None
  }

  lemma ScriptProblemIsMisfit(calls: set<Slug>, slug: Slug, d: ScriptDef)
    ensures ScriptProblem(calls, slug, d).None? <==> ScriptFits(calls, d)
  {
    var missing := set a | a in d.callable && d.callable[a] !in calls;
    if missing == {} {
      forall a | a in d.callable ensures d.callable[a] in calls {
        assert a !in missing;
      }
    } else {
      var a :| a in missing;
    }
  }

  lemma EndpointProblemIsMisfit(providers: set<Slug>, dryRun: bool, slug: Slug, e: PackEndpoint)
    ensures EndpointProblem(providers, dryRun, slug, e).None? <==>
      EndpointFromPack(e).Some? && (dryRun || EndpointFits(providers, EndpointFromPack(e).value))
  {
    if Parse(e.tagExpr).Ok? {
      ParsedTreeIsKeywordFree(e.tagExpr);
    }
  }

  method WriteCall(services: set<Slug>, rows: map<Slug, Tagged<ApiCall>>, slug: Slug, c: Tagged<ApiCall>)
    returns (r: Result<map<Slug, Tagged<ApiCall>>, ImportError>)
    ensures r.Ok? <==> CallFits(services, rows, slug, c.def)
    ensures r.Ok? ==> r.value == rows[slug := ReadTaggedCall(c)]
    ensures r.Err? ==> CallProblem(services, rows, slug, c.def) == Some(r.error)
  {
    if c.def.service !in services {
      return Err(NotFound(c.def.service));
    }
    var fit := ReplaceParams(c.def.params, false);
    if (slug in rows && rows[slug].def.service != c.def.service) || !fit {
      return Err(Conflict(slug));
    }
    r := Ok(rows[slug := ReadTaggedCall(c)]);
  }

  method WriteScript(calls: set<Slug>, rows: map<Slug, Tagged<ScriptDef>>, slug: Slug, d: Tagged<ScriptDef>)
    returns (r: Result<map<Slug, Tagged<ScriptDef>>, ImportError>)
    ensures r.Ok? <==> ScriptFits(calls, d.def)
    ensures r.Ok? ==> r.value == rows[slug := ReadTaggedScript(d)]
    ensures r.Err? ==> ScriptProblem(calls, slug, d.def) == Some(r.error)
  {
    var fit := ReplaceParams(d.def.params, true);
    if !fit {
      return Err(Conflict(slug));
    }
    var missing := set a | a in d.def.callable && d.def.callable[a] !in calls;
    if missing != {} {
      var alias := FirstOf(missing);
      LeastIsUnique(missing);
      return Err(NotFound(d.def.callable[alias]));
    }
    forall a | a in d.def.callable ensures d.def.callable[a] in calls {
      assert a !in missing;
    }
    r := Ok(rows[slug := ReadTaggedScript(d)]);
  }

  method WriteEndpoint(providers: set<Slug>, rows: map<Slug, EndpointDef>, slug: Slug, e: EndpointDef)
    returns (r: Result<map<Slug, EndpointDef>, ImportError>)
    requires KeywordFree(e.tagExpr)
    ensures r.Ok? <==> EndpointFits(providers, e)
    ensures r.Ok? ==> r.value == rows[slug := e]
    ensures r.Err? ==> r.error == if Unambiguous(e.aliases) then NotFound(slug) else Conflict(slug)
  {
    var reversed := ReverseAliases(e.aliases);
    if reversed.Err? {
      return Err(Conflict(slug));
    }
    if !(e.authProviders <= providers) {
      return Err(NotFound(slug));
    }
    EndpointSurvives(e);
    r := Ok(rows[slug := ReadEndpoint(e).value]);
  }

  // ----- The four loops -----

  /** The rows `done` have been written, unless nothing is to be written. */
  ghost predicate Written<V>(before: map<Slug, V>, after: map<Slug, V>, done: set<Slug>, dryRun: bool,
                             now: map<Slug, V>) {
    && done <= after.Keys
    && if dryRun then now == before else
       now.Keys == before.Keys + done && forall s | s in now :: now[s] == if s in done then after[s] else before[s]
  }

  /** The slugs of the first `k` rows. */
  ghost function Taken(order: seq<Slug>, k: nat): set<Slug>
    requires k <= |order|
  {
    set s | s in order[..k]
  }

  /** The slugs that come before `s`. */
  ghost function Earlier(slugs: set<Slug>, s: Slug): set<Slug> {
    set t | t in slugs && Less(t, s)
  }

  lemma TakeOneMore(order: seq<Slug>, k: nat)
    requires Ascending(order) && k < |order|
    ensures Taken(order, k + 1) == Taken(order, k) + {order[k]} && order[k] !in Taken(order, k)
  {
    assert order[..k + 1] == order[..k] + [order[k]];
    if order[k] in order[..k] {
      var i :| 0 <= i < k && order[..k][i] == order[k];
      AscendingIsDistinct(order, i, k);
    }
  }

  lemma TakenIsEarlier(slugs: set<Slug>, order: seq<Slug>, k: nat)
    requires IsOrderOf(order, slugs) && k < |order|
    ensures Taken(order, k) == Earlier(slugs, order[k])
  {
    forall s | s in slugs && Less(s, order[k]) ensures s in order[..k] {
      var i := EarlierIsTaken(slugs, order, k, s);
      assert order[..k][i] == s;
    }
  }

  lemma TakenAll(slugs: set<Slug>, order: seq<Slug>)
    requires IsOrderOf(order, slugs)
    ensures Taken(order, |order|) == slugs
  {
    assert order[..|order|] == order;
  }

  lemma WriteOne<V(!new)>(before: map<Slug, V>, after: map<Slug, V>, done: set<Slug>, dryRun: bool,
                            now: map<Slug, V>, s: Slug)
    requires Written(before, after, done, dryRun, now) && s in after && s !in done
    ensures Written(before, after, done + {s}, dryRun, if dryRun then now else now[s := after[s]])
  {
  }

  lemma WroteAll<V(!new)>(before: map<Slug, V>, after: map<Slug, V>, dryRun: bool, now: map<Slug, V>)
    requires Written(before, after, after.Keys, dryRun, now)
    ensures now == if dryRun then before else before + after
  {
  }

  /** The first `k` rows have been reported and written. */
  ghost predicate Upserted<V>(all: map<Slug, Change>, before: map<Slug, V>, after: map<Slug, V>, order: seq<Slug>,
                              k: nat, dryRun: bool, changes: Changes, now: map<Slug, V>) {
    && k <= |order| && (forall i | 0 <= i < k :: order[i] in all)
    && changes == Reported(all, order, k) && Written(before, after, Taken(order, k), dryRun, now)
  }

  lemma UpsertNone<V>(all: map<Slug, Change>, before: map<Slug, V>, after: map<Slug, V>, order: seq<Slug>, dryRun: bool)
    ensures Upserted(all, before, after, order, 0, dryRun, [], before)
  {
    assert Taken(order, 0) == {};
  }

  lemma UpsertOneMore<V(!new)>(all: map<Slug, Change>, before: map<Slug, V>, after: map<Slug, V>,
                               order: seq<Slug>, k: nat, dryRun: bool, changes: Changes, now: map<Slug, V>)
    requires Upserted(all, before, after, order, k, dryRun, changes, now)
    requires Ascending(order) && k < |order| && order[k] in all && order[k] in after
    ensures Upserted(all, before, after, order, k + 1, dryRun, changes + [(order[k], all[order[k]])],
                     if dryRun then now else now[order[k] := after[order[k]]])
  {
    TakeOneMore(order, k);
    WriteOne(before, after, Taken(order, k), dryRun, now, order[k]);
  }

  /** The next row has not been touched yet. */
  lemma NextIsUntouched<V(!new)>(all: map<Slug, Change>, before: map<Slug, V>, after: map<Slug, V>,
                                  order: seq<Slug>, k: nat,
                                 dryRun: bool, changes: Changes, now: map<Slug, V>)
    requires Upserted(all, before, after, order, k, dryRun, changes, now)
    requires Ascending(order) && k < |order|
    ensures Lookup(now, order[k]) == Lookup(before, order[k])
  {
    TakeOneMore(order, k);
  }

  lemma UpsertedAll<V(!new)>(all: map<Slug, Change>, before: map<Slug, V>, after: map<Slug, V>, order: seq<Slug>,
                             dryRun: bool, changes: Changes, now: map<Slug, V>)
    requires all.Keys == after.Keys && IsOrderOf(order, all.Keys)
    requires Upserted(all, before, after, order, |order|, dryRun, changes, now)
    ensures changes == Listed(all) && now == if dryRun then before else before + after
  {
    OrderIsUnique(order, OrderOf(all.Keys), all.Keys);
    TakenAll(all.Keys, order);
    WroteAll(before, after, dryRun, now);
  }

  lemma UpsertedEarlier<V(!new)>(all: map<Slug, Change>, before: map<Slug, V>, after: map<Slug, V>, order: seq<Slug>,
                                 slugs: set<Slug>, k: nat, dryRun: bool, changes: Changes, now: map<Slug, V>)
    requires IsOrderOf(order, slugs) && k < |order|
    requires Upserted(all, before, after, order, k, dryRun, changes, now)
    ensures Written(before, after, Earlier(slugs, order[k]), dryRun, now)
  {
    TakenIsEarlier(slugs, order, k);
  }

  method UpsertServices(rows: map<Slug, Service>, services: map<Slug, Service>, dryRun: bool,
                        ghost all: map<Slug, Change>, ghost after: map<Slug, Service>)
    returns (changes: Changes, now: map<Slug, Service>)
    requires all.Keys == after.Keys == services.Keys
    requires forall s | s in services ::
      all[s] == Classify(Lookup(rows, s), services[s]) && after[s] == ReadService(services[s])
    ensures changes == Listed(all) && now == if dryRun then rows else rows + after
    ensures now.Keys == rows.Keys + if dryRun then {} else services.Keys
  {
    now, changes := rows, [];
    var order := InOrder(services.Keys);
    UpsertNone(all, rows, after, order, dryRun);
    for k := 0 to |order|
      invariant Upserted(all, rows, after, order, k, dryRun, changes, now)
    {
      var s := order[k];
      NextIsUntouched(all, rows, after, order, k, dryRun, changes, now);
      UpsertOneMore(all, rows, after, order, k, dryRun, changes, now);
      changes := changes + [(s, Classify(Lookup(now, s), services[s]))];
      if !dryRun {
        now := now[s := ReadService(services[s])];
      }
    }
    UpsertedAll(all, rows, after, order, dryRun, changes, now);
  }

  ghost predicate CallExpected(rows: map<Slug, Tagged<ApiCall>>, slug: Slug, c: Tagged<ApiCall>, change: Change,
                               after: Tagged<ApiCall>) {
    change == Classify(LookupCall(rows, c.def.service, slug), c) && after == ReadTaggedCall(c)
  }

  /** `s` is the first api_call, in order, that the store refuses. */
  ghost predicate FirstBadCall(services: set<Slug>, rows: map<Slug, Tagged<ApiCall>>, calls: map<Slug, Tagged<ApiCall>>,
                               s: Slug, error: ImportError) {
    && s in calls && CallProblem(services, rows, s, calls[s].def) == Some(error)
    && forall t | t in calls && Less(t, s) :: CallFits(services, rows, t, calls[t].def)
  }

  /** The rows before the first refused one have been written, and no others. */
  ghost predicate StopsInCalls(services: set<Slug>, rows: map<Slug, Tagged<ApiCall>>, calls: map<Slug, Tagged<ApiCall>>,
                               error: ImportError, now: map<Slug, Tagged<ApiCall>>) {
    exists s :: FirstBadCall(services, rows, calls, s, error) &&
                Written(rows, ReadCalls(calls), Earlier(calls.Keys, s), false, now)
  }

  lemma CallStops(services: set<Slug>, rows: map<Slug, Tagged<ApiCall>>, now: map<Slug, Tagged<ApiCall>>,
                  calls: map<Slug, Tagged<ApiCall>>, order: seq<Slug>, k: nat, error: ImportError)
    requires IsOrderOf(order, calls.Keys)
    requires
      && k < |order| && Lookup(now, order[k]) == Lookup(rows, order[k])
      && (forall i | 0 <= i < k :: CallFits(services, rows, order[i], calls[order[i]].def))
      && CallProblem(services, now, order[k], calls[order[k]].def) == Some(error)
    ensures FirstBadCall(services, rows, calls, order[k], error)
  {
    forall t | t in calls && Less(t, order[k]) ensures CallFits(services, rows, t, calls[t].def) {
      var i := EarlierIsTaken(calls.Keys, order, k, t);
    }
  }

  lemma AllCallsFit(services: set<Slug>, rows: map<Slug, Tagged<ApiCall>>, calls: map<Slug, Tagged<ApiCall>>,
                    order: seq<Slug>)
    requires IsOrderOf(order, calls.Keys)
    requires forall i | 0 <= i < |order| :: CallFits(services, rows, order[i], calls[order[i]].def)
    ensures CallsFit(services, rows, calls)
  {
    forall s | s in calls ensures CallFits(services, rows, s, calls[s].def) {
      var i :| 0 <= i < |order| && order[i] == s;
    }
  }

  lemma FitsAlike(services: set<Slug>, rows: map<Slug, Tagged<ApiCall>>, now: map<Slug, Tagged<ApiCall>>, s: Slug,
                  c: ApiCall)
    requires Lookup(now, s) == Lookup(rows, s)
    ensures CallFits(services, now, s, c) <==> CallFits(services, rows, s, c)
    ensures LookupCall(now, c.service, s) == LookupCall(rows, c.service, s)
  {
  }

  method UpsertCalls(services: set<Slug>, rows: map<Slug, Tagged<ApiCall>>, calls: map<Slug, Tagged<ApiCall>>,
                     dryRun: bool,
                     ghost all: map<Slug, Change>, ghost after: map<Slug, Tagged<ApiCall>>)
    returns (r: Result<Changes, ImportError>, now: map<Slug, Tagged<ApiCall>>)
    requires all.Keys == after.Keys == calls.Keys
    requires forall s {:trigger CallExpected(rows, s, calls[s], all[s], after[s])} | s in calls ::
      CallExpected(rows, s, calls[s], all[s], after[s])
    ensures r.Ok? <==> dryRun || CallsFit(services, rows, calls)
    ensures r.Ok? ==> r.value == Listed(all) && now == if dryRun then rows else rows + after
    ensures r.Ok? ==> now.Keys == rows.Keys + if dryRun then {} else calls.Keys
    ensures r.Err? ==> exists s :: FirstBadCall(services, rows, calls, s, r.error) &&
                                   Written(rows, after, Earlier(calls.Keys, s), false, now)
  {
    var changes: Changes := [];
    var order := InOrder(calls.Keys);
    now := rows;
    UpsertNone(all, rows, after, order, dryRun);
    for k := 0 to |order|
      invariant Upserted(all, rows, after, order, k, dryRun, changes, now)
      invariant !dryRun ==> forall i | 0 <= i < k :: CallFits(services, rows, order[i], calls[order[i]].def)
    {
      var s := order[k];
      NextIsUntouched(all, rows, after, order, k, dryRun, changes, now);
      FitsAlike(services, rows, now, s, calls[s].def);
      assert CallExpected(rows, s, calls[s], all[s], after[s]);
      UpsertOneMore(all, rows, after, order, k, dryRun, changes, now);
      ghost var reported := changes;
      changes := changes + [(s, Classify(LookupCall(now, calls[s].def.service, s), calls[s]))];
      if !dryRun {
        var written := WriteCall(services, now, s, calls[s]);
        if written.Err? {
          CallStops(services, rows, now, calls, order, k, written.error);
          UpsertedEarlier(all, rows, after, order, calls.Keys, k, dryRun, reported, now);
          return Err(written.error), now;
        }
        now := written.value;
      }
    }
    UpsertedAll(all, rows, after, order, dryRun, changes, now);
    if !dryRun {
      AllCallsFit(services, rows, calls, order);
    }
    r := Ok(changes);
  }

  /** `s` is the first script, in order, that the store refuses. */
  ghost predicate FirstBadScript(calls: set<Slug>, scripts: map<Slug, Tagged<ScriptDef>>, s: Slug, error: ImportError) {
    && s in scripts && ScriptProblem(calls, s, scripts[s].def) == Some(error)
    && forall t | t in scripts && Less(t, s) :: ScriptFits(calls, scripts[t].def)
  }

  ghost predicate StopsInScripts(calls: set<Slug>, rows: map<Slug, Tagged<ScriptDef>>,
                                 scripts: map<Slug, Tagged<ScriptDef>>,
                                 error: ImportError, now: map<Slug, Tagged<ScriptDef>>) {
    exists s :: FirstBadScript(calls, scripts, s, error) &&
                Written(rows, ReadScripts(scripts), Earlier(scripts.Keys, s), false, now)
  }

  lemma ScriptStops(calls: set<Slug>, scripts: map<Slug, Tagged<ScriptDef>>, order: seq<Slug>, k: nat,
                    error: ImportError)
    requires IsOrderOf(order, scripts.Keys)
    requires
      && k < |order| && (forall i | 0 <= i < k :: ScriptFits(calls, scripts[order[i]].def))
      && ScriptProblem(calls, order[k], scripts[order[k]].def) == Some(error)
    ensures FirstBadScript(calls, scripts, order[k], error)
  {
    forall t | t in scripts && Less(t, order[k]) ensures ScriptFits(calls, scripts[t].def) {
      var i := EarlierIsTaken(scripts.Keys, order, k, t);
    }
  }

  method UpsertScripts(calls: set<Slug>, rows: map<Slug, Tagged<ScriptDef>>, scripts: map<Slug, Tagged<ScriptDef>>,
                       dryRun: bool,
                       ghost all: map<Slug, Change>, ghost after: map<Slug, Tagged<ScriptDef>>)
    returns (r: Result<Changes, ImportError>, now: map<Slug, Tagged<ScriptDef>>)
    requires all.Keys == after.Keys == scripts.Keys
    requires forall s | s in scripts ::
      all[s] == Classify(Lookup(rows, s), scripts[s]) && after[s] == ReadTaggedScript(scripts[s])
    ensures r.Ok? <==> dryRun || ScriptsFit(calls, scripts)
    ensures r.Ok? ==> r.value == Listed(all) && now == if dryRun then rows else rows + after
    ensures r.Err? ==> exists s :: FirstBadScript(calls, scripts, s, r.error) &&
                                   Written(rows, after, Earlier(scripts.Keys, s), false, now)
  {
    var changes: Changes := [];
    var order := InOrder(scripts.Keys);
    now := rows;
    UpsertNone(all, rows, after, order, dryRun);
    for k := 0 to |order|
      invariant Upserted(all, rows, after, order, k, dryRun, changes, now)
      invariant !dryRun ==> forall i | 0 <= i < k :: ScriptFits(calls, scripts[order[i]].def)
    {
      var s := order[k];
      NextIsUntouched(all, rows, after, order, k, dryRun, changes, now);
      UpsertOneMore(all, rows, after, order, k, dryRun, changes, now);
      ghost var reported := changes;
      changes := changes + [(s, Classify(Lookup(now, s), scripts[s]))];
      if !dryRun {
        var written := WriteScript(calls, now, s, scripts[s]);
        if written.Err? {
          ScriptStops(calls, scripts, order, k, written.error);
          UpsertedEarlier(all, rows, after, order, scripts.Keys, k, dryRun, reported, now);
          return Err(written.error), now;
        }
        now := written.value;
      }
    }
    UpsertedAll(all, rows, after, order, dryRun, changes, now);
    r := Ok(changes);
  }

  method UpsertEndpoint(providers: set<Slug>, rows: map<Slug, EndpointDef>, slug: Slug, e: PackEndpoint, dryRun: bool)
    returns (r: Result<(Change, map<Slug, EndpointDef>), ImportError>)
    ensures r.Ok? <==> EndpointProblem(providers, dryRun, slug, e).None?
    ensures r.Ok? ==> r.value.0 == Classify(Lookup(rows, slug), EndpointFromPack(e).value)
    ensures r.Ok? ==> r.value.1 == if dryRun then rows else rows[slug := EndpointFromPack(e).value]
    ensures r.Err? ==> EndpointProblem(providers, dryRun, slug, e) == Some(r.error)
  {
    var model := ConvertEndpoint(e);
    if model.None? {
      return Err(Conversion(slug));
    }
    var change := Classify(Lookup(rows, slug), model.value);
    if dryRun {
      return Ok((change, rows));
    }
    var written := WriteEndpoint(providers, rows, slug, model.value);
    if written.Err? {
      return Err(written.error);
    }
    r := Ok((change, written.value));
  }

  ghost predicate ConvertsTo(endpoints: map<Slug, PackEndpoint>, slug: Slug, after: map<Slug, EndpointDef>)
    requires slug in endpoints
  {
    EndpointFromPack(endpoints[slug]) == Lookup(after, slug)
  }

  /** `s` is the first endpoint, in order, that does not convert or that the store refuses. */
  ghost predicate FirstBadEndpoint(providers: set<Slug>, dryRun: bool, endpoints: map<Slug, PackEndpoint>, s: Slug,
                                   error: ImportError) {
    && s in endpoints && EndpointProblem(providers, dryRun, s, endpoints[s]) == Some(error)
    && forall t | t in endpoints && Less(t, s) :: EndpointProblem(providers, dryRun, t, endpoints[t]).None?
  }

  ghost predicate StopsInEndpoints(providers: set<Slug>, dryRun: bool, rows: map<Slug, EndpointDef>,
                                   endpoints: map<Slug, PackEndpoint>, error: ImportError,
                                   now: map<Slug, EndpointDef>) {
    exists s :: FirstBadEndpoint(providers, dryRun, endpoints, s, error) &&
                Written(rows, EndpointsFrom(endpoints), Earlier(endpoints.Keys, s), dryRun, now)
  }

  ghost predicate NoneStops(providers: set<Slug>, dryRun: bool, endpoints: map<Slug, PackEndpoint>, order: seq<Slug>,
                            k: nat) {
    && k <= |order| && (forall i | 0 <= i < k :: order[i] in endpoints)
    && forall i | 0 <= i < k :: EndpointProblem(providers, dryRun, order[i], endpoints[order[i]]).None?
  }

  lemma ConvertedIsAfter(providers: set<Slug>, dryRun: bool, endpoints: map<Slug, PackEndpoint>,
                         after: map<Slug, EndpointDef>, s: Slug)
    requires s in endpoints && ConvertsTo(endpoints, s, after)
    requires EndpointProblem(providers, dryRun, s, endpoints[s]).None?
    ensures s in after && EndpointFromPack(endpoints[s]) == Some(after[s])
  {
  }

  lemma EndpointStops(providers: set<Slug>, dryRun: bool, endpoints: map<Slug, PackEndpoint>, order: seq<Slug>, k: nat,
                      error: ImportError)
    requires IsOrderOf(order, endpoints.Keys) && k < |order| && NoneStops(providers, dryRun, endpoints, order, k)
    requires EndpointProblem(providers, dryRun, order[k], endpoints[order[k]]) == Some(error)
    ensures FirstBadEndpoint(providers, dryRun, endpoints, order[k], error)
  {
    forall t | t in endpoints && Less(t, order[k])
      ensures EndpointProblem(providers, dryRun, t, endpoints[t]).None?
    {
      var i := EarlierIsTaken(endpoints.Keys, order, k, t);
    }
  }

  lemma NoEndpointStops(providers: set<Slug>, dryRun: bool, endpoints: map<Slug, PackEndpoint>,
                        after: map<Slug, EndpointDef>, order: seq<Slug>)
    requires forall s {:trigger ConvertsTo(endpoints, s, after)} | s in endpoints :: ConvertsTo(endpoints, s, after)
    requires IsOrderOf(order, endpoints.Keys) && NoneStops(providers, dryRun, endpoints, order, |order|)
    requires after.Keys <= endpoints.Keys
    ensures forall s | s in endpoints :: EndpointProblem(providers, dryRun, s, endpoints[s]).None?
    ensures after.Keys == endpoints.Keys
  {
    forall s | s in endpoints ensures EndpointProblem(providers, dryRun, s, endpoints[s]).None? && s in after {
      var i :| 0 <= i < |order| && order[i] == s;
      assert ConvertsTo(endpoints, s, after);
    }
  }

  method UpsertEndpoints(providers: set<Slug>, rows: map<Slug, EndpointDef>, endpoints: map<Slug, PackEndpoint>,
                         dryRun: bool,
                         ghost all: map<Slug, Change>, ghost after: map<Slug, EndpointDef>)
    returns (r: Result<Changes, ImportError>, now: map<Slug, EndpointDef>)
    requires all.Keys == after.Keys <= endpoints.Keys
    requires forall s {:trigger ConvertsTo(endpoints, s, after)} | s in endpoints :: ConvertsTo(endpoints, s, after)
    requires forall s | s in after :: all[s] == Classify(Lookup(rows, s), after[s])
    ensures r.Ok? <==> forall s | s in endpoints :: EndpointProblem(providers, dryRun, s, endpoints[s]).None?
    ensures r.Ok? ==> r.value == Listed(all) && now == if dryRun then rows else rows + after
    ensures r.Err? ==> exists s :: FirstBadEndpoint(providers, dryRun, endpoints, s, r.error) &&
                                   Written(rows, after, Earlier(endpoints.Keys, s), dryRun, now)
  {
    var changes: Changes := [];
    var order := InOrder(endpoints.Keys);
    now := rows;
    UpsertNone(all, rows, after, order, dryRun);
    for k := 0 to |order|
      invariant Upserted(all, rows, after, order, k, dryRun, changes, now)
      invariant NoneStops(providers, dryRun, endpoints, order, k)
    {
      var s := order[k];
      NextIsUntouched(all, rows, after, order, k, dryRun, changes, now);
      var upserted := UpsertEndpoint(providers, now, s, endpoints[s], dryRun);
      if upserted.Err? {
        EndpointStops(providers, dryRun, endpoints, order, k, upserted.error);
        UpsertedEarlier(all, rows, after, order, endpoints.Keys, k, dryRun, changes, now);
        return Err(upserted.error), now;
      }
      ConvertedIsAfter(providers, dryRun, endpoints, after, s);
      UpsertOneMore(all, rows, after, order, k, dryRun, changes, now);
      changes := changes + [(s, upserted.value.0)];
      now := upserted.value.1;
    }
    NoEndpointStops(providers, dryRun, endpoints, after, order);
    UpsertedAll(all, rows, after, order, dryRun, changes, now);
    r := Ok(changes);
  }

  method ImportServices(rows: map<Slug, Service>, services: map<Slug, Service>, dryRun: bool)
    returns (changes: Changes, now: map<Slug, Service>)
    ensures changes == Listed(ServiceChanges(rows, services))
    ensures now == if dryRun then rows else rows + ReadServices(services)
    ensures now.Keys == rows.Keys + if dryRun then {} else services.Keys
  {
    changes, now := UpsertServices(rows, services, dryRun, ServiceChanges(rows, services), ReadServices(services));
  }

  method ImportCalls(services: set<Slug>, rows: map<Slug, Tagged<ApiCall>>, calls: map<Slug, Tagged<ApiCall>>,
                     dryRun: bool)
    returns (r: Result<Changes, ImportError>, now: map<Slug, Tagged<ApiCall>>)
    ensures r.Ok? <==> dryRun || CallsFit(services, rows, calls)
    ensures r.Ok? ==> r.value == Listed(CallChanges(rows, calls))
    ensures r.Ok? ==> now == if dryRun then rows else rows + ReadCalls(calls)
    ensures r.Ok? ==> now.Keys == rows.Keys + if dryRun then {} else calls.Keys
    ensures r.Err? ==> StopsInCalls(services, rows, calls, r.error, now)
  {
    r, now := UpsertCalls(services, rows, calls, dryRun, CallChanges(rows, calls), ReadCalls(calls));
  }

  method ImportScripts(calls: set<Slug>, rows: map<Slug, Tagged<ScriptDef>>, scripts: map<Slug, Tagged<ScriptDef>>,
                       dryRun: bool)
    returns (r: Result<Changes, ImportError>, now: map<Slug, Tagged<ScriptDef>>)
    ensures r.Ok? <==> dryRun || ScriptsFit(calls, scripts)
    ensures r.Ok? ==> r.value == Listed(ScriptChanges(rows, scripts))
    ensures r.Ok? ==> now == if dryRun then rows else rows + ReadScripts(scripts)
    ensures r.Err? ==> StopsInScripts(calls, rows, scripts, r.error, now)
  {
    r, now := UpsertScripts(calls, rows, scripts, dryRun, ScriptChanges(rows, scripts), ReadScripts(scripts));
  }

  method ImportEndpoints(providers: set<Slug>, rows: map<Slug, EndpointDef>, endpoints: map<Slug, PackEndpoint>,
                         dryRun: bool)
    returns (r: Result<Changes, ImportError>, now: map<Slug, EndpointDef>)
    ensures r.Ok? <==> if dryRun then AllParse(endpoints) else EndpointsFit(providers, endpoints)
    ensures r.Ok? ==> r.value == Listed(EndpointChanges(rows, EndpointsFrom(endpoints)))
    ensures r.Ok? ==> now == if dryRun then rows else rows + EndpointsFrom(endpoints)
    ensures r.Err? ==> StopsInEndpoints(providers, dryRun, rows, endpoints, r.error, now)
  {
    ghost var after := EndpointsFrom(endpoints);
    forall s | s in endpoints
      ensures EndpointProblem(providers, dryRun, s, endpoints[s]).None? <==>
        EndpointFromPack(endpoints[s]).Some? &&
        (dryRun || EndpointFits(providers, EndpointFromPack(endpoints[s]).value))
    {
      EndpointProblemIsMisfit(providers, dryRun, s, endpoints[s]);
    }
    r, now := UpsertEndpoints(providers, rows, endpoints, dryRun, EndpointChanges(rows, after), after);
  }

  // ----- The import -----

  /** The first api_call at fault: what comes before it is written, and nothing else of calls, scripts and endpoints. */
  ghost predicate StopsAtCalls(before: Owner, pack: Pack, error: ImportError, now: Owner) {
    && now == before.(services := before.services + ReadServices(pack.services), calls := now.calls)
    && StopsInCalls(before.services.Keys + pack.services.Keys, before.calls, pack.calls, error, now.calls)
  }

  /** The first script at fault: services and calls are written in full, and the scripts before it. */
  ghost predicate StopsAtScripts(before: Owner, pack: Pack, error: ImportError, now: Owner) {
    && now == before.(services := before.services + ReadServices(pack.services),
                      calls := before.calls + ReadCalls(pack.calls),
                      scripts := now.scripts)
    && CallsFit(before.services.Keys + pack.services.Keys, before.calls, pack.calls)
    && StopsInScripts(before.calls.Keys + pack.calls.Keys, before.scripts, pack.scripts, error, now.scripts)
  }

  /** The first endpoint at fault: all else is written in full, and the endpoints before it. */
  ghost predicate StopsAtEndpoints(before: Owner, pack: Pack, error: ImportError, now: Owner) {
    && now == Imported(before, pack).(endpoints := now.endpoints)
    && CallsFit(before.services.Keys + pack.services.Keys, before.calls, pack.calls)
    && ScriptsFit(before.calls.Keys + pack.calls.Keys, pack.scripts)
    && StopsInEndpoints(ProviderSlugs(before), false, before.endpoints, pack.endpoints, error, now.endpoints)
  }

  /** How an import fails and what it leaves. A dry run writes nothing, and fails where an endpoint does not convert. */
  ghost predicate StopsAt(before: Owner, pack: Pack, dryRun: bool, error: ImportError, now: Owner) {
    if dryRun
    then now == before && exists s :: FirstBadEndpoint(ProviderSlugs(before), true, pack.endpoints, s, error)
    else StopsAtCalls(before, pack, error, now) || StopsAtScripts(before, pack, error, now) ||
         StopsAtEndpoints(before, pack, error, now)
  }

  lemma CallsStop(data: Owner, pack: Pack, error: ImportError, calls: map<Slug, Tagged<ApiCall>>)
    requires StopsInCalls(data.services.Keys + pack.services.Keys, data.calls, pack.calls, error, calls)
    ensures StopsAt(data, pack, false, error, Owner(data.services + ReadServices(pack.services), calls, data.scripts,
                                                    data.endpoints, data.providers))
  {
  }

  lemma ScriptsStop(data: Owner, pack: Pack, error: ImportError, scripts: map<Slug, Tagged<ScriptDef>>)
    requires CallsFit(data.services.Keys + pack.services.Keys, data.calls, pack.calls)
    requires StopsInScripts(data.calls.Keys + pack.calls.Keys, data.scripts, pack.scripts, error, scripts)
    ensures StopsAt(data, pack, false, error,
                    Owner(data.services + ReadServices(pack.services), data.calls + ReadCalls(pack.calls),
                          scripts, data.endpoints, data.providers))
  {
  }

  lemma EndpointsStop(data: Owner, pack: Pack, dryRun: bool, error: ImportError, endpoints: map<Slug, EndpointDef>)
    requires dryRun || CallsFit(data.services.Keys + pack.services.Keys, data.calls, pack.calls)
    requires dryRun || ScriptsFit(data.calls.Keys + pack.calls.Keys, pack.scripts)
    requires StopsInEndpoints(ProviderSlugs(data), dryRun, data.endpoints, pack.endpoints, error, endpoints)
    ensures StopsAt(data, pack, dryRun, error, (if dryRun then data else Imported(data, pack)).(endpoints := endpoints))
  {
  }

  method ImportRows(data: Owner, pack: Pack, dryRun: bool) returns (r: Result<ImportReport, ImportError>, now: Owner)
    ensures r.Ok? <==> if dryRun then AllParse(pack.endpoints) else Importable(data, pack)
    ensures r.Ok? ==> r.value == ReportOf(data, pack)
    ensures r.Ok? ==> now == if dryRun then data else Imported(data, pack)
    ensures r.Err? ==> StopsAt(data, pack, dryRun, r.error, now)
  {
    var services, serviceRows := ImportServices(data.services, pack.services, dryRun);
    var calls, callRows := ImportCalls(serviceRows.Keys, data.calls, pack.calls, dryRun);
    if calls.Err? {
      CallsStop(data, pack, calls.error, callRows);
      return Err(calls.error), Owner(serviceRows, callRows, data.scripts, data.endpoints, data.providers);
    }
    var scripts, scriptRows := ImportScripts(callRows.Keys, data.scripts, pack.scripts, dryRun);
    if scripts.Err? {
      ScriptsStop(data, pack, scripts.error, scriptRows);
      return Err(scripts.error), Owner(serviceRows, callRows, scriptRows, data.endpoints, data.providers);
    }
    var endpoints, endpointRows := ImportEndpoints(ProviderSlugs(data), data.endpoints, pack.endpoints, dryRun);
    now := Owner(serviceRows, callRows, scriptRows, endpointRows, data.providers);
    if endpoints.Err? {
      EndpointsStop(data, pack, dryRun, endpoints.error, endpointRows);
      return Err(endpoints.error), now;
    }
    r := Ok(ImportReport(services, calls.value, scripts.value, endpoints.value));
  }

  class Stores {
    var data: Owner

    constructor (data: Owner)
      ensures this.data == data
    {
      this.data := data;
    }

    /**
     A dry run writes nothing and reports what a real import from the same state reports; a real import
     succeeds exactly when the pack is importable, and otherwise stops at the first row at fault.
     */
    method Import(pack: Pack, dryRun: bool) returns (r: Result<ImportReport, ImportError>)
      modifies this
      ensures r.Ok? <==> if dryRun then AllParse(pack.endpoints) else Importable(old(data), pack)
      ensures r.Ok? ==> r.value == ReportOf(old(data), pack)
      ensures r.Ok? ==> data == if dryRun then old(data) else Imported(old(data), pack)
      ensures r.Err? ==> StopsAt(old(data), pack, dryRun, r.error, data)
      ensures dryRun ==> data == old(data)
    {
      r, data := ImportRows(data, pack, dryRun);
    }
  }

  // ----- One way to fail -----

  lemma WrittenOnce<V(!new)>(before: map<Slug, V>, after: map<Slug, V>, done: set<Slug>, dryRun: bool,
                               a: map<Slug, V>, b: map<Slug, V>)
    requires Written(before, after, done, dryRun, a) && Written(before, after, done, dryRun, b)
    ensures a == b
  {
  }

  lemma OneBadCall(services: set<Slug>, rows: map<Slug, Tagged<ApiCall>>, calls: map<Slug, Tagged<ApiCall>>,
                   s: Slug, a: ImportError, t: Slug, b: ImportError)
    requires FirstBadCall(services, rows, calls, s, a) && FirstBadCall(services, rows, calls, t, b)
    ensures s == t && a == b && !CallsFit(services, rows, calls)
  {
    assert !CallFits(services, rows, s, calls[s].def) && !CallFits(services, rows, t, calls[t].def);
    LessIsTotal(s, t);
  }

  lemma OneCallStop(services: set<Slug>, rows: map<Slug, Tagged<ApiCall>>, calls: map<Slug, Tagged<ApiCall>>,
                    a: ImportError, nowA: map<Slug, Tagged<ApiCall>>, b: ImportError, nowB: map<Slug, Tagged<ApiCall>>)
    requires StopsInCalls(services, rows, calls, a, nowA) && StopsInCalls(services, rows, calls, b, nowB)
    ensures a == b && nowA == nowB && !CallsFit(services, rows, calls)
  {
    var s: Slug :| FirstBadCall(services, rows, calls, s, a) &&
                   Written(rows, ReadCalls(calls), Earlier(calls.Keys, s), false, nowA);
    var t: Slug :| FirstBadCall(services, rows, calls, t, b) &&
                   Written(rows, ReadCalls(calls), Earlier(calls.Keys, t), false, nowB);
    OneBadCall(services, rows, calls, s, a, t, b);
    WrittenOnce(rows, ReadCalls(calls), Earlier(calls.Keys, s), false, nowA, nowB);
  }

  lemma OneBadScript(calls: set<Slug>, scripts: map<Slug, Tagged<ScriptDef>>, s: Slug, a: ImportError, t: Slug,
                     b: ImportError)
    requires FirstBadScript(calls, scripts, s, a) && FirstBadScript(calls, scripts, t, b)
    ensures s == t && a == b && !ScriptsFit(calls, scripts)
  {
    ScriptProblemIsMisfit(calls, s, scripts[s].def);
    ScriptProblemIsMisfit(calls, t, scripts[t].def);
    LessIsTotal(s, t);
  }

  lemma OneScriptStop(calls: set<Slug>, rows: map<Slug, Tagged<ScriptDef>>, scripts: map<Slug, Tagged<ScriptDef>>,
                      a: ImportError, nowA: map<Slug, Tagged<ScriptDef>>, b: ImportError,
                      nowB: map<Slug, Tagged<ScriptDef>>)
    requires StopsInScripts(calls, rows, scripts, a, nowA) && StopsInScripts(calls, rows, scripts, b, nowB)
    ensures a == b && nowA == nowB && !ScriptsFit(calls, scripts)
  {
    var s: Slug :| FirstBadScript(calls, scripts, s, a) &&
                   Written(rows, ReadScripts(scripts), Earlier(scripts.Keys, s), false, nowA);
    var t: Slug :| FirstBadScript(calls, scripts, t, b) &&
                   Written(rows, ReadScripts(scripts), Earlier(scripts.Keys, t), false, nowB);
    OneBadScript(calls, scripts, s, a, t, b);
    WrittenOnce(rows, ReadScripts(scripts), Earlier(scripts.Keys, s), false, nowA, nowB);
  }

  lemma OneBadEndpoint(providers: set<Slug>, dryRun: bool, endpoints: map<Slug, PackEndpoint>, s: Slug, a: ImportError,
                       t: Slug, b: ImportError)
    requires FirstBadEndpoint(providers, dryRun, endpoints, s, a) &&
             FirstBadEndpoint(providers, dryRun, endpoints, t, b)
    ensures s == t && a == b
  {
    LessIsTotal(s, t);
  }

  lemma OneEndpointStop(providers: set<Slug>, rows: map<Slug, EndpointDef>, endpoints: map<Slug, PackEndpoint>,
                        a: ImportError, nowA: map<Slug, EndpointDef>, b: ImportError, nowB: map<Slug, EndpointDef>)
    requires StopsInEndpoints(providers, false, rows, endpoints, a, nowA)
    requires StopsInEndpoints(providers, false, rows, endpoints, b, nowB)
    ensures a == b && nowA == nowB
  {
    var s: Slug :| FirstBadEndpoint(providers, false, endpoints, s, a) &&
             Written(rows, EndpointsFrom(endpoints), Earlier(endpoints.Keys, s), false, nowA);
    var t: Slug :| FirstBadEndpoint(providers, false, endpoints, t, b) &&
             Written(rows, EndpointsFrom(endpoints), Earlier(endpoints.Keys, t), false, nowB);
    OneBadEndpoint(providers, false, endpoints, s, a, t, b);
    WrittenOnce(rows, EndpointsFrom(endpoints), Earlier(endpoints.Keys, s), false, nowA, nowB);
  }

  lemma StopsAreExclusive(before: Owner, pack: Pack, error: ImportError, now: Owner)
    ensures StopsAtCalls(before, pack, error, now) ==>
      !CallsFit(before.services.Keys + pack.services.Keys, before.calls, pack.calls)
    ensures StopsAtScripts(before, pack, error, now) ==> !ScriptsFit(before.calls.Keys + pack.calls.Keys, pack.scripts)
  {
    if StopsAtCalls(before, pack, error, now) {
      OneCallStop(before.services.Keys + pack.services.Keys, before.calls, pack.calls, error, now.calls, error,
                  now.calls);
    }
    if StopsAtScripts(before, pack, error, now) {
      OneScriptStop(before.calls.Keys + pack.calls.Keys, before.scripts, pack.scripts, error, now.scripts, error,
                    now.scripts);
    }
  }

  lemma OneStopAtCalls(before: Owner, pack: Pack, a: ImportError, nowA: Owner, b: ImportError, nowB: Owner)
    requires StopsAtCalls(before, pack, a, nowA) && StopsAtCalls(before, pack, b, nowB)
    ensures a == b && nowA == nowB
  {
    OneCallStop(before.services.Keys + pack.services.Keys, before.calls, pack.calls, a, nowA.calls, b, nowB.calls);
  }

  lemma OneStopAtScripts(before: Owner, pack: Pack, a: ImportError, nowA: Owner, b: ImportError, nowB: Owner)
    requires StopsAtScripts(before, pack, a, nowA) && StopsAtScripts(before, pack, b, nowB)
    ensures a == b && nowA == nowB
  {
    OneScriptStop(before.calls.Keys + pack.calls.Keys, before.scripts, pack.scripts, a, nowA.scripts, b, nowB.scripts);
  }

  lemma OneStopAtEndpoints(before: Owner, pack: Pack, a: ImportError, nowA: Owner, b: ImportError, nowB: Owner)
    requires StopsAtEndpoints(before, pack, a, nowA) && StopsAtEndpoints(before, pack, b, nowB)
    ensures a == b && nowA == nowB
  {
    OneEndpointStop(ProviderSlugs(before), before.endpoints, pack.endpoints, a, nowA.endpoints, b, nowB.endpoints);
  }

  lemma OneDryFailure(before: Owner, pack: Pack, a: ImportError, nowA: Owner, b: ImportError, nowB: Owner)
    requires StopsAt(before, pack, true, a, nowA) && StopsAt(before, pack, true, b, nowB)
    ensures a == b && nowA == nowB
  {
    var s: Slug :| FirstBadEndpoint(ProviderSlugs(before), true, pack.endpoints, s, a);
    var t: Slug :| FirstBadEndpoint(ProviderSlugs(before), true, pack.endpoints, t, b);
    OneBadEndpoint(ProviderSlugs(before), true, pack.endpoints, s, a, t, b);
  }

  /** Whether it is api_calls, scripts or endpoints that stop an import depends on the store and the pack alone. */
  lemma OneStage(before: Owner, pack: Pack, a: ImportError, nowA: Owner, b: ImportError, nowB: Owner)
    requires StopsAt(before, pack, false, a, nowA) && StopsAt(before, pack, false, b, nowB)
    ensures StopsAtCalls(before, pack, a, nowA) <==> StopsAtCalls(before, pack, b, nowB)
    ensures StopsAtScripts(before, pack, a, nowA) <==> StopsAtScripts(before, pack, b, nowB)
  {
    StopsAreExclusive(before, pack, a, nowA);
    StopsAreExclusive(before, pack, b, nowB);
  }

  /** The store and the pack determine how a failing import fails and what it leaves. */
  lemma FailureIsUnique(before: Owner, pack: Pack, dryRun: bool, a: ImportError, nowA: Owner, b: ImportError,
                        nowB: Owner)
    requires StopsAt(before, pack, dryRun, a, nowA) && StopsAt(before, pack, dryRun, b, nowB)
    ensures a == b && nowA == nowB
  {
    if dryRun {
      OneDryFailure(before, pack, a, nowA, b, nowB);
    } else {
      OneStage(before, pack, a, nowA, b, nowB);
      if StopsAtCalls(before, pack, a, nowA) {
        OneStopAtCalls(before, pack, a, nowA, b, nowB);
      } else if StopsAtScripts(before, pack, a, nowA) {
        OneStopAtScripts(before, pack, a, nowA, b, nowB);
      } else {
        OneStopAtEndpoints(before, pack, a, nowA, b, nowB);
      }
    }
  }
}
