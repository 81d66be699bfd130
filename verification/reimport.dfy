/**
 What importing leaves behind: a store in good order, on which the same import changes nothing more.
 */
module Reimports {
  import opened Wrappers
  import opened Slugs
  import opened Orders
  import opened TagExpressions
  import opened Definitions
  import opened Tools
  import opened Rows
  import opened Imports

  // ----- Stores in good order -----

  ghost predicate StoredCall(owner: Owner, c: ApiCall) {
    CanonicalCall(c) && WritableCallParams(c.params) && c.service in owner.services
  }

  ghost predicate StoredScript(owner: Owner, d: ScriptDef) {
    CanonicalScript(d) && ScriptFits(owner.calls.Keys, d)
  }

  /** Every row is as a read returns it and refers to rows that exist. */
  ghost predicate Stored(owner: Owner) {
    && (forall s | s in owner.services :: CanonicalService(owner.services[s]))
    && (forall s | s in owner.calls :: StoredCall(owner, owner.calls[s].def))
    && (forall s | s in owner.scripts :: StoredScript(owner, owner.scripts[s].def))
    && (forall s | s in owner.endpoints :: EndpointFits(ProviderSlugs(owner), owner.endpoints[s]))
  }

  lemma ReadCallIsStored(owner: Owner, c: ApiCall)
    requires WritableCallParams(c.params) && c.service in owner.services
    ensures StoredCall(owner, ReadCall(c))
  {
    ReadParamsAreCanonical(c.params, false);
    ReadParamsAreWritable(c.params);
  }

  lemma ReadScriptIsStored(owner: Owner, d: ScriptDef)
    requires ScriptFits(owner.calls.Keys, d)
    ensures StoredScript(owner, ReadScript(d))
  {
    ReadParamsAreCanonical(d.params, true);
    ReadParamsAreWritable(d.params);
  }

  /** Each call of `now` is an old one, or one of the pack's that fits. */
  ghost predicate CallFrom(owner: Owner, pack: Pack, s: Slug, c: Tagged<ApiCall>) {
    (s in owner.calls && c == owner.calls[s]) ||
    (&& s in pack.calls && c == ReadTaggedCall(pack.calls[s])
     && CallFits(owner.services.Keys + pack.services.Keys, owner.calls, s, pack.calls[s].def))
  }

  ghost predicate ScriptFrom(owner: Owner, pack: Pack, calls: set<Slug>, s: Slug, d: Tagged<ScriptDef>) {
    (s in owner.scripts && d == owner.scripts[s]) ||
    (s in pack.scripts && d == ReadTaggedScript(pack.scripts[s]) && ScriptFits(calls, pack.scripts[s].def))
  }

  ghost predicate EndpointFrom(owner: Owner, s: Slug, e: EndpointDef) {
    (s in owner.endpoints && e == owner.endpoints[s]) || EndpointFits(ProviderSlugs(owner), e)
  }

  /** Every row of `now` was there before or has been imported, and no call and no service is lost. */
  ghost predicate MixOf(owner: Owner, pack: Pack, now: Owner) {
    && now.services == owner.services + ReadServices(pack.services) && now.providers == owner.providers
    && owner.calls.Keys <= now.calls.Keys
    && (forall s | s in now.calls :: CallFrom(owner, pack, s, now.calls[s]))
    && (forall s | s in now.scripts :: ScriptFrom(owner, pack, now.calls.Keys, s, now.scripts[s]))
    && (forall s | s in now.endpoints :: EndpointFrom(owner, s, now.endpoints[s]))
  }

  lemma MixedCallIsStored(owner: Owner, pack: Pack, now: Owner, s: Slug)
    requires Stored(owner) && MixOf(owner, pack, now) && s in now.calls
    ensures StoredCall(now, now.calls[s].def)
  {
    assert CallFrom(owner, pack, s, now.calls[s]);
    if s in owner.calls && now.calls[s] == owner.calls[s] {
      assert StoredCall(owner, owner.calls[s].def);
    } else {
      ReadCallIsStored(now, pack.calls[s].def);
    }
  }

  lemma MixedScriptIsStored(owner: Owner, pack: Pack, now: Owner, s: Slug)
    requires Stored(owner) && MixOf(owner, pack, now) && s in now.scripts
    ensures StoredScript(now, now.scripts[s].def)
  {
    assert ScriptFrom(owner, pack, now.calls.Keys, s, now.scripts[s]);
    if s in owner.scripts && now.scripts[s] == owner.scripts[s] {
      assert StoredScript(owner, owner.scripts[s].def);
    } else {
      ReadScriptIsStored(now, pack.scripts[s].def);
    }
  }

  lemma MixIsStored(owner: Owner, pack: Pack, now: Owner)
    requires Stored(owner) && MixOf(owner, pack, now)
    ensures Stored(now)
  {
    forall s | s in now.calls ensures StoredCall(now, now.calls[s].def) {
      MixedCallIsStored(owner, pack, now, s);
    }
    forall s | s in now.scripts ensures StoredScript(now, now.scripts[s].def) {
      MixedScriptIsStored(owner, pack, now, s);
    }
    assert ProviderSlugs(now) == ProviderSlugs(owner);
    forall s | s in now.endpoints ensures EndpointFits(ProviderSlugs(owner), now.endpoints[s]) {
      assert EndpointFrom(owner, s, now.endpoints[s]);
    }
  }

  lemma AllCallsAreMixed(owner: Owner, pack: Pack)
    requires CallsFit(owner.services.Keys + pack.services.Keys, owner.calls, pack.calls)
    ensures var now := owner.calls + ReadCalls(pack.calls);
      now.Keys == owner.calls.Keys + pack.calls.Keys && forall s | s in now :: CallFrom(owner, pack, s, now[s])
  {
  }

  lemma AllScriptsAreMixed(owner: Owner, pack: Pack)
    requires ScriptsFit(owner.calls.Keys + pack.calls.Keys, pack.scripts)
    ensures var now := owner.scripts + ReadScripts(pack.scripts);
      forall s | s in now :: ScriptFrom(owner, pack, owner.calls.Keys + pack.calls.Keys, s, now[s])
  {
  }

  lemma AllEndpointsAreMixed(owner: Owner, pack: Pack)
    requires EndpointsFit(ProviderSlugs(owner), pack.endpoints)
    ensures var now := owner.endpoints + EndpointsFrom(pack.endpoints);
      forall s | s in now :: EndpointFrom(owner, s, now[s])
  {
  }

  lemma ImportedIsMix(owner: Owner, pack: Pack)
    requires Importable(owner, pack)
    ensures MixOf(owner, pack, Imported(owner, pack))
  {
    AllCallsAreMixed(owner, pack);
    AllScriptsAreMixed(owner, pack);
    AllEndpointsAreMixed(owner, pack);
  }

  lemma StoppedCallsAreMixed(owner: Owner, pack: Pack, error: ImportError, now: map<Slug, Tagged<ApiCall>>)
    requires StopsInCalls(owner.services.Keys + pack.services.Keys, owner.calls, pack.calls, error, now)
    ensures owner.calls.Keys <= now.Keys && forall s | s in now :: CallFrom(owner, pack, s, now[s])
  {
    var services := owner.services.Keys + pack.services.Keys;
    var bad :| FirstBadCall(services, owner.calls, pack.calls, bad, error) &&
               Written(owner.calls, ReadCalls(pack.calls), Earlier(pack.calls.Keys, bad), false, now);
  }

  lemma StoppedScriptsAreMixed(owner: Owner, pack: Pack, error: ImportError, now: map<Slug, Tagged<ScriptDef>>)
    requires StopsInScripts(owner.calls.Keys + pack.calls.Keys, owner.scripts, pack.scripts, error, now)
    ensures forall s | s in now :: ScriptFrom(owner, pack, owner.calls.Keys + pack.calls.Keys, s, now[s])
  {
    var calls := owner.calls.Keys + pack.calls.Keys;
    var bad :| FirstBadScript(calls, pack.scripts, bad, error) &&
               Written(owner.scripts, ReadScripts(pack.scripts), Earlier(pack.scripts.Keys, bad), false, now);
  }

  lemma EarlierEndpointsFit(owner: Owner, pack: Pack, bad: Slug, error: ImportError)
    requires FirstBadEndpoint(ProviderSlugs(owner), false, pack.endpoints, bad, error)
    ensures forall s | s in Earlier(pack.endpoints.Keys, bad) ::
      s in EndpointsFrom(pack.endpoints) && EndpointFits(ProviderSlugs(owner), EndpointsFrom(pack.endpoints)[s])
  {
    forall s | s in Earlier(pack.endpoints.Keys, bad)
      ensures s in EndpointsFrom(pack.endpoints) && EndpointFits(ProviderSlugs(owner), EndpointsFrom(pack.endpoints)[s])
    {
      EndpointProblemIsMisfit(ProviderSlugs(owner), false, s, pack.endpoints[s]);
    }
  }

  lemma WrittenEndpointsAreMixed(owner: Owner, after: map<Slug, EndpointDef>, done: set<Slug>,
                                 now: map<Slug, EndpointDef>)
    requires Written(owner.endpoints, after, done, false, now)
    requires forall s | s in done :: s in after && EndpointFits(ProviderSlugs(owner), after[s])
    ensures forall s | s in now :: EndpointFrom(owner, s, now[s])
  {
  }

  lemma StoppedEndpointsAreMixed(owner: Owner, pack: Pack, error: ImportError, now: map<Slug, EndpointDef>)
    requires StopsInEndpoints(ProviderSlugs(owner), false, owner.endpoints, pack.endpoints, error, now)
    ensures forall s | s in now :: EndpointFrom(owner, s, now[s])
  {
    var bad :| FirstBadEndpoint(ProviderSlugs(owner), false, pack.endpoints, bad, error) &&
               Written(owner.endpoints, EndpointsFrom(pack.endpoints), Earlier(pack.endpoints.Keys, bad), false, now);
    EarlierEndpointsFit(owner, pack, bad, error);
    WrittenEndpointsAreMixed(owner, EndpointsFrom(pack.endpoints), Earlier(pack.endpoints.Keys, bad), now);
  }

  lemma StoppedAtCallsIsMix(owner: Owner, pack: Pack, error: ImportError, now: Owner)
    requires StopsAtCalls(owner, pack, error, now)
    ensures MixOf(owner, pack, now)
  {
    StoppedCallsAreMixed(owner, pack, error, now.calls);
  }

  lemma StoppedAtScriptsIsMix(owner: Owner, pack: Pack, error: ImportError, now: Owner)
    requires StopsAtScripts(owner, pack, error, now)
    ensures MixOf(owner, pack, now)
  {
    AllCallsAreMixed(owner, pack);
    StoppedScriptsAreMixed(owner, pack, error, now.scripts);
  }

  lemma StoppedAtEndpointsIsMix(owner: Owner, pack: Pack, error: ImportError, now: Owner)
    requires StopsAtEndpoints(owner, pack, error, now)
    ensures MixOf(owner, pack, now)
  {
    AllCallsAreMixed(owner, pack);
    AllScriptsAreMixed(owner, pack);
    StoppedEndpointsAreMixed(owner, pack, error, now.endpoints);
  }

  /** One import: it succeeds, or stops at the first row at fault. */
  ghost predicate ImportStep(before: Owner, pack: Pack, now: Owner) {
    (Importable(before, pack) && now == Imported(before, pack)) ||
    exists error :: StopsAt(before, pack, false, error, now)
  }

  /** An import, successful or not, keeps the store in good order. */
  lemma ImportKeepsStored(owner: Owner, pack: Pack, now: Owner)
    requires Stored(owner) && ImportStep(owner, pack, now)
    ensures Stored(now)
  {
    if Importable(owner, pack) && now == Imported(owner, pack) {
      ImportedIsMix(owner, pack);
    } else {
      var error :| StopsAt(owner, pack, false, error, now);
      if StopsAtCalls(owner, pack, error, now) {
        StoppedAtCallsIsMix(owner, pack, error, now);
      } else if StopsAtScripts(owner, pack, error, now) {
        StoppedAtScriptsIsMix(owner, pack, error, now);
      } else {
        StoppedAtEndpointsIsMix(owner, pack, error, now);
      }
    }
    MixIsStored(owner, pack, now);
  }

  /** The stores that a sequence of imports goes through. */
  ghost predicate AreImportsOf(stores: seq<Owner>, packs: seq<Pack>) {
    |stores| == |packs| + 1 && forall i | 0 <= i < |packs| :: ImportStep(stores[i], packs[i], stores[i + 1])
  }

  /** Whatever has been imported into an owner that began empty, and however it went, the store is in good order. */
  lemma {:induction false} ImportsFromNothingAreStored(stores: seq<Owner>, packs: seq<Pack>, k: nat)
    requires AreImportsOf(stores, packs) && stores[0] == EMPTY && k < |stores|
    ensures Stored(stores[k])
  {
    if k > 0 {
      ImportsFromNothingAreStored(stores, packs, k - 1);
      ImportKeepsStored(stores[k - 1], packs[k - 1], stores[k]);
    }
  }

  // ----- The same import again -----

  lemma OverwritingTwice<V(!new)>(rows: map<Slug, V>, newer: map<Slug, V>)
    ensures rows + newer + newer == rows + newer
  {
  }

  /** After a successful import the same import succeeds again and leaves the store as it is. */
  lemma ReimportChangesNothing(owner: Owner, pack: Pack)
    requires Importable(owner, pack)
    ensures Importable(Imported(owner, pack), pack)
    ensures Imported(Imported(owner, pack), pack) == Imported(owner, pack)
  {
    var t := Imported(owner, pack);
    OverwritingTwice(owner.services, ReadServices(pack.services));
    OverwritingTwice(owner.calls, ReadCalls(pack.calls));
    OverwritingTwice(owner.scripts, ReadScripts(pack.scripts));
    OverwritingTwice(owner.endpoints, EndpointsFrom(pack.endpoints));
    forall s | s in pack.calls ensures CallFits(t.services.Keys + pack.services.Keys, t.calls, s, pack.calls[s].def) {
      assert CallFits(owner.services.Keys + pack.services.Keys, owner.calls, s, pack.calls[s].def);
    }
    forall s | s in pack.scripts ensures ScriptFits(t.calls.Keys + pack.calls.Keys, pack.scripts[s].def) {
      assert ScriptFits(owner.calls.Keys + pack.calls.Keys, pack.scripts[s].def);
    }
  }

  ghost predicate CanonicalPack(pack: Pack) {
    && (forall s | s in pack.services :: CanonicalService(pack.services[s]))
    && (forall s | s in pack.calls :: CanonicalCall(pack.calls[s].def))
    && (forall s | s in pack.scripts :: CanonicalScript(pack.scripts[s].def))
  }

  /** On a second import a service is unchanged exactly when the store can hold it as it stands. */
  lemma SecondServiceReport(rows: map<Slug, Service>, services: map<Slug, Service>)
    ensures AllUnchanged(ServiceChanges(rows + ReadServices(services), services)) <==>
            forall s | s in services :: CanonicalService(services[s])
  {
    var r := ServiceChanges(rows + ReadServices(services), services);
    forall s | s in services ensures r[s] == if CanonicalService(services[s]) then Unchanged else Updated {
    }
    assert r.Keys == services.Keys;
  }

  lemma TaggedCallSurvives(c: Tagged<ApiCall>)
    requires DistinctPositions(c.def.params)
    ensures ReadTaggedCall(c) == c <==> CanonicalCall(c.def)
  {
    ParamsSurviveExactlyWhenCanonical(c.def.params, false);
  }

  lemma TaggedScriptSurvives(d: Tagged<ScriptDef>)
    requires DistinctPositions(d.def.params)
    ensures ReadTaggedScript(d) == d <==> CanonicalScript(d.def)
  {
    ParamsSurviveExactlyWhenCanonical(d.def.params, true);
  }

  lemma SecondCallReport(rows: map<Slug, Tagged<ApiCall>>, calls: map<Slug, Tagged<ApiCall>>)
    requires forall s | s in calls :: DistinctPositions(calls[s].def.params)
    ensures AllUnchanged(CallChanges(rows + ReadCalls(calls), calls)) <==>
            forall s | s in calls :: CanonicalCall(calls[s].def)
  {
    var r := CallChanges(rows + ReadCalls(calls), calls);
    forall s | s in calls ensures ReadTaggedCall(calls[s]) == calls[s] <==> CanonicalCall(calls[s].def) {
      TaggedCallSurvives(calls[s]);
    }
    assert forall s | s in calls :: r[s] == if ReadTaggedCall(calls[s]) == calls[s] then Unchanged else Updated;
    assert r.Keys == calls.Keys;
  }

  lemma SecondScriptReport(rows: map<Slug, Tagged<ScriptDef>>, scripts: map<Slug, Tagged<ScriptDef>>)
    requires forall s | s in scripts :: DistinctPositions(scripts[s].def.params)
    ensures AllUnchanged(ScriptChanges(rows + ReadScripts(scripts), scripts)) <==>
            forall s | s in scripts :: CanonicalScript(scripts[s].def)
  {
    var r := ScriptChanges(rows + ReadScripts(scripts), scripts);
    forall s | s in scripts ensures ReadTaggedScript(scripts[s]) == scripts[s] <==> CanonicalScript(scripts[s].def) {
      TaggedScriptSurvives(scripts[s]);
    }
    assert forall s | s in scripts :: r[s] == if ReadTaggedScript(scripts[s]) == scripts[s] then Unchanged else Updated;
    assert r.Keys == scripts.Keys;
  }

  lemma SecondEndpointReport(rows: map<Slug, EndpointDef>, endpoints: map<Slug, EndpointDef>)
    ensures AllUnchanged(EndpointChanges(rows + endpoints, endpoints))
  {
  }

  /** A re-import reports nothing but unchanged rows exactly when every row of the pack is canonical. */
  lemma SecondReportIsNoOpIffCanonical(owner: Owner, pack: Pack)
    requires Importable(owner, pack)
    ensures IsIdempotentNoOp(ReportOf(Imported(owner, pack), pack)) <==> CanonicalPack(pack)
  {
    forall s | s in pack.calls ensures DistinctPositions(pack.calls[s].def.params) {
      assert CallFits(owner.services.Keys + pack.services.Keys, owner.calls, s, pack.calls[s].def);
    }
    forall s | s in pack.scripts ensures DistinctPositions(pack.scripts[s].def.params) {
      assert ScriptFits(owner.calls.Keys + pack.calls.Keys, pack.scripts[s].def);
    }
    SecondServiceReport(owner.services, pack.services);
    SecondCallReport(owner.calls, pack.calls);
    SecondScriptReport(owner.scripts, pack.scripts);
    var now := Imported(owner, pack);
    ListedIsUnchanged(ServiceChanges(now.services, pack.services));
    ListedIsUnchanged(CallChanges(now.calls, pack.calls));
    ListedIsUnchanged(ScriptChanges(now.scripts, pack.scripts));
    ListedIsUnchanged(EndpointChanges(now.endpoints, EndpointsFrom(pack.endpoints)));
    SecondEndpointReport(owner.endpoints, EndpointsFrom(pack.endpoints));
  }
}
