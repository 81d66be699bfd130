/** What an import demands, leaves and reports, row by row, in terms of the store and the pack alone. */
module ImportLaws {
  import opened Wrappers
  import opened MachineInts
  import opened Slugs
  import opened Orders
  import opened TagExpressions
  import opened Definitions
  import opened Tools
  import opened Rows
  import opened Imports

  // ----- The report -----

  /** One entry for each row of the pack, in slug order, saying how it compares with the row that is there. */
  ghost predicate Reports<V>(changes: Changes, pack: map<Slug, V>, there: map<Slug, V>) {
    && (forall i, j | 0 <= i < j < |changes| :: Less(changes[i].0, changes[j].0))
    && (forall s: Slug :: (s, Created) in changes <==> s in pack && s !in there)
    && (forall s: Slug :: (s, Unchanged) in changes <==> s in pack && s in there && there[s] == pack[s])
    && (forall s: Slug :: (s, Updated) in changes <==> s in pack && s in there && there[s] != pack[s])
  }

  lemma ListedPairs(all: map<Slug, Change>, s: Slug, c: Change)
    ensures (s, c) in Listed(all) <==> s in all && all[s] == c
  {
    var order := OrderOf(all.Keys);
    if s in all {
      var i :| 0 <= i < |order| && order[i] == s;
      assert Listed(all)[i] == (s, all[s]);
    }
    if (s, c) in Listed(all) {
      var i :| 0 <= i < |Listed(all)| && Listed(all)[i] == (s, c);
      assert order[i] == s && all[order[i]] == c;
    }
  }

  lemma ListedReports<V>(all: map<Slug, Change>, pack: map<Slug, V>, there: map<Slug, V>)
    requires all.Keys == pack.Keys
    requires forall s | s in all ::
      all[s] == if s !in there then Created else if there[s] == pack[s] then Unchanged else Updated
    ensures Reports(Listed(all), pack, there)
  {
    forall s: Slug, c ensures (s, c) in Listed(all) <==> s in all && all[s] == c {
      ListedPairs(all, s, c);
    }
  }

  /** The api_calls that stand under the service the pack gives them. */
  ghost function UnderTheirService(rows: map<Slug, Tagged<ApiCall>>, pack: map<Slug, Tagged<ApiCall>>)
    : map<Slug, Tagged<ApiCall>>
  {
    map s | s in rows && s in pack && rows[s].def.service == pack[s].def.service :: rows[s]
  }

  lemma ServicesAreReported(rows: map<Slug, Service>, pack: map<Slug, Service>)
    ensures Reports(Listed(ServiceChanges(rows, pack)), pack, rows)
  {
    ListedReports(ServiceChanges(rows, pack), pack, rows);
  }

  lemma CallsAreReported(rows: map<Slug, Tagged<ApiCall>>, pack: map<Slug, Tagged<ApiCall>>)
    ensures Reports(Listed(CallChanges(rows, pack)), pack, UnderTheirService(rows, pack))
  {
    ListedReports(CallChanges(rows, pack), pack, UnderTheirService(rows, pack));
  }

  lemma ScriptsAreReported(rows: map<Slug, Tagged<ScriptDef>>, pack: map<Slug, Tagged<ScriptDef>>)
    ensures Reports(Listed(ScriptChanges(rows, pack)), pack, rows)
  {
    ListedReports(ScriptChanges(rows, pack), pack, rows);
  }

  lemma EndpointsAreReported(rows: map<Slug, EndpointDef>, pack: map<Slug, EndpointDef>)
    ensures Reports(Listed(EndpointChanges(rows, pack)), pack, rows)
  {
    ListedReports(EndpointChanges(rows, pack), pack, rows);
  }

  /** Created, updated or unchanged: each row of the pack is reported by what was there under its slug. */
  lemma ReportReads(owner: Owner, pack: Pack)
    ensures var report := ReportOf(owner, pack);
      && Reports(report.services, pack.services, owner.services)
      && Reports(report.calls, pack.calls, UnderTheirService(owner.calls, pack.calls))
      && Reports(report.scripts, pack.scripts, owner.scripts)
      && Reports(report.endpoints, EndpointsFrom(pack.endpoints), owner.endpoints)
  {
    ServicesAreReported(owner.services, pack.services);
    CallsAreReported(owner.calls, pack.calls);
    ScriptsAreReported(owner.scripts, pack.scripts);
    EndpointsAreReported(owner.endpoints, EndpointsFrom(pack.endpoints));
  }

  // ----- What can be imported -----

  ghost predicate CallImportable(owner: Owner, pack: Pack, s: Slug)
    requires s in pack.calls
  {
    var c := pack.calls[s].def;
    && (c.service in owner.services || c.service in pack.services)
    && (s in owner.calls ==> owner.calls[s].def.service == c.service)
    && NamedAndPlacedOnce(c.params)
    && forall p | p in c.params :: !p.location.Local? && !(p.fixed.Some? && p.required)
  }

  ghost predicate ScriptImportable(owner: Owner, pack: Pack, s: Slug)
    requires s in pack.scripts
  {
    var d := pack.scripts[s].def;
    && NamedAndPlacedOnce(d.params) && (forall p | p in d.params :: p.location.Local?)
    && forall a | a in d.callable :: d.callable[a] in owner.calls || d.callable[a] in pack.calls
  }

  ghost predicate EndpointImportable(owner: Owner, e: PackEndpoint) {
    && Parse(e.tagExpr).Ok?
    && (forall a, b | a in e.aliases && b in e.aliases && a != b :: e.aliases[a] != e.aliases[b])
    && forall p | p in e.authProviders :: exists svc :: svc in owner.providers && owner.providers[svc].slug == p
  }

  ghost predicate NamedAndPlacedOnce(ps: seq<Param>) {
    forall i, j | 0 <= i < |ps| && 0 <= j < |ps| && i != j ::
      ps[i].name != ps[j].name && ps[i].position != ps[j].position
  }

  lemma CallFitsExactlyWhen(owner: Owner, pack: Pack, s: Slug)
    requires s in pack.calls
    ensures CallFits(owner.services.Keys + pack.services.Keys, owner.calls, s, pack.calls[s].def) <==>
            CallImportable(owner, pack, s)
  {
    var ps := pack.calls[s].def.params;
    assert WritableCallParams(ps) <==>
      NamedAndPlacedOnce(ps) && forall p | p in ps :: !p.location.Local? && !(p.fixed.Some? && p.required) by {
      if forall p | p in ps :: !p.location.Local? && !(p.fixed.Some? && p.required) {
        forall i | 0 <= i < |ps| ensures ps[i].location != Local && (ps[i].fixed.Some? ==> !ps[i].required) {
          assert ps[i] in ps;
        }
      }
    }
  }

  lemma ScriptFitsExactlyWhen(owner: Owner, pack: Pack, s: Slug)
    requires s in pack.scripts
    ensures ScriptFits(owner.calls.Keys + pack.calls.Keys, pack.scripts[s].def) <==> ScriptImportable(owner, pack, s)
  {
    var ps := pack.scripts[s].def.params;
    if forall p | p in ps :: p.location.Local? {
      forall i | 0 <= i < |ps| ensures ps[i].location == Local {
        assert ps[i] in ps;
      }
    }
  }

  lemma EndpointFitsExactlyWhen(owner: Owner, e: PackEndpoint)
    ensures (EndpointFromPack(e).Some? && EndpointFits(ProviderSlugs(owner), EndpointFromPack(e).value)) <==>
            EndpointImportable(owner, e)
  {
    if Parse(e.tagExpr).Ok? {
      ParsedTreeIsKeywordFree(e.tagExpr);
    }
    forall p | p in e.authProviders
      ensures p in ProviderSlugs(owner) <==> exists svc :: svc in owner.providers && owner.providers[svc].slug == p
    {
    }
  }

  /**
   A pack can be imported exactly when its references lead to rows that are there or come along, its params fit
   their tables, its api_calls are not taken under other services, and its endpoints parse, rename nothing twice
   and name providers there are.
   */
  lemma ImportableExactlyWhen(owner: Owner, pack: Pack)
    ensures Importable(owner, pack) <==>
      && (forall s | s in pack.calls :: CallImportable(owner, pack, s))
      && (forall s | s in pack.scripts :: ScriptImportable(owner, pack, s))
      && (forall s | s in pack.endpoints :: EndpointImportable(owner, pack.endpoints[s]))
  {
    forall s | s in pack.calls
      ensures CallFits(owner.services.Keys + pack.services.Keys, owner.calls, s, pack.calls[s].def) <==>
              CallImportable(owner, pack, s)
    {
      CallFitsExactlyWhen(owner, pack, s);
    }
    forall s | s in pack.scripts
      ensures ScriptFits(owner.calls.Keys + pack.calls.Keys, pack.scripts[s].def) <==> ScriptImportable(owner, pack, s)
    {
      ScriptFitsExactlyWhen(owner, pack, s);
    }
    forall s | s in pack.endpoints
      ensures (EndpointFromPack(pack.endpoints[s]).Some? &&
               EndpointFits(ProviderSlugs(owner), EndpointFromPack(pack.endpoints[s]).value)) <==>
              EndpointImportable(owner, pack.endpoints[s])
    {
      EndpointFitsExactlyWhen(owner, pack.endpoints[s]);
    }
  }
}
