/**
 What the store gives back for what it was given: params come back in position order, empty
 descriptions and out-of-range limits come back changed, tag expressions go through their text.
 */
module Rows {
  import opened Wrappers
  import opened MachineInts
  import opened Slugs
  import opened TagExpressions
  import U = UrlTemplates
  import opened Definitions

  const I32_MAX := 0x7FFF_FFFF

  // ----- Params -----

  predicate InPositionOrder(ps: seq<Param>) {
    forall i, j | 0 <= i < j < |ps| :: ps[i].position < ps[j].position
  }

  predicate DistinctPositions(ps: seq<Param>) {
    forall i, j | 0 <= i < j < |ps| :: ps[i].position != ps[j].position
  }

  /** The rows the tables accept; a fixed param may not be required. */
  predicate WritableCallParams(ps: seq<Param>) {
    && DistinctPositions(ps) && DistinctParams(ps)
    && forall i | 0 <= i < |ps| :: ps[i].location != Local && (ps[i].fixed.Some? ==> !ps[i].required)
  }

  /** A script's params have no location column and no fixed column. */
  predicate WritableScriptParams(ps: seq<Param>) {
    DistinctPositions(ps) && DistinctParams(ps) && forall i | 0 <= i < |ps| :: ps[i].location == Local
  }

  function Collapse(d: Option<string>): Option<string> {
    if d == Some("") then None else d
  }

  function ReadParam(p: Param, ofScript: bool): Param {
    p.(description := Collapse(p.description), fixed := if ofScript then None else p.fixed)
  }

  function InsertParam(sorted: seq<Param>, p: Param): seq<Param> {
    if sorted == [] || sorted[|sorted| - 1].position <= p.position then sorted + [p]
    else InsertParam(sorted[..|sorted| - 1], p) + [sorted[|sorted| - 1]]
  }

  function SortParams(ps: seq<Param>): seq<Param> {
    if ps == [] then [] else InsertParam(SortParams(ps[..|ps| - 1]), ps[|ps| - 1])
  }

  /** The params as a read returns them. */
  function ReadParams(ps: seq<Param>, ofScript: bool): (r: seq<Param>)
    ensures |r| == |SortParams(ps)|
  {
    var sorted := SortParams(ps);
    seq(|sorted|, i requires 0 <= i < |sorted| => ReadParam(sorted[i], ofScript))
  }

  predicate CanonicalParams(ps: seq<Param>, ofScript: bool) {
    && InPositionOrder(ps)
    && forall i | 0 <= i < |ps| :: ps[i].description != Some("") && (ofScript ==> ps[i].fixed.None?)
  }

  lemma {:induction false} InsertParamElements(sorted: seq<Param>, p: Param)
    ensures multiset(InsertParam(sorted, p)) == multiset(sorted) + multiset{p}
  {
    if sorted != [] && sorted[|sorted| - 1].position > p.position {
      InsertParamElements(sorted[..|sorted| - 1], p);
      assert sorted == sorted[..|sorted| - 1] + [sorted[|sorted| - 1]];
    }
  }

  /** Sorting loses, adds and doubles nothing. */
  lemma {:induction false} SortParamsElements(ps: seq<Param>)
    ensures multiset(SortParams(ps)) == multiset(ps)
    ensures |SortParams(ps)| == |ps|
  {
    if ps != [] {
      SortParamsElements(ps[..|ps| - 1]);
      InsertParamElements(SortParams(ps[..|ps| - 1]), ps[|ps| - 1]);
      assert ps == ps[..|ps| - 1] + [ps[|ps| - 1]];
    }
    assert |multiset(SortParams(ps))| == |multiset(ps)|;
  }

  lemma AppendInOrder(sorted: seq<Param>, p: Param)
    requires InPositionOrder(sorted) && forall q | q in sorted :: q.position < p.position
    ensures InPositionOrder(sorted + [p])
  {
    forall i | 0 <= i < |sorted| ensures sorted[i].position < p.position {
      assert sorted[i] in sorted;
    }
  }

  lemma LastIsGreatest(sorted: seq<Param>, q: Param)
    requires InPositionOrder(sorted) && sorted != [] && q in sorted
    ensures q == sorted[|sorted| - 1] || q.position < sorted[|sorted| - 1].position
  {
    var i :| 0 <= i < |sorted| && sorted[i] == q;
  }

  lemma {:induction false} InsertParamOrder(sorted: seq<Param>, p: Param)
    requires InPositionOrder(sorted) && forall q | q in sorted :: q.position != p.position
    ensures InPositionOrder(InsertParam(sorted, p))
  {
    if sorted != [] {
      var init, last := sorted[..|sorted| - 1], sorted[|sorted| - 1];
      if last.position > p.position {
        InsertParamOrder(init, p);
        InsertParamElements(init, p);
        forall q | q in InsertParam(init, p) ensures q.position < last.position {
          assert q in multiset(init) + multiset{p};
          if q in init {
            LastIsGreatest(sorted, q);
          }
        }
        AppendInOrder(InsertParam(init, p), last);
      } else {
        forall q | q in sorted ensures q.position < p.position {
          LastIsGreatest(sorted, q);
        }
        AppendInOrder(sorted, p);
      }
    }
  }

  lemma {:induction false} SortParamsOrder(ps: seq<Param>)
    requires DistinctPositions(ps)
    ensures InPositionOrder(SortParams(ps))
  {
    if ps != [] {
      var init, p := ps[..|ps| - 1], ps[|ps| - 1];
      SortParamsOrder(init);
      SortParamsElements(init);
      forall q | q in SortParams(init) ensures q.position != p.position {
        assert q in multiset(init);
      }
      InsertParamOrder(SortParams(init), p);
    }
  }

  lemma SortOneMore(ps: seq<Param>, p: Param)
    ensures SortParams(ps + [p]) == InsertParam(SortParams(ps), p)
  {
    assert (ps + [p])[..|ps|] == ps;
  }

  lemma {:induction false} SortedPrefixStays(ps: seq<Param>, k: nat)
    requires InPositionOrder(ps) && k <= |ps|
    ensures SortParams(ps[..k]) == ps[..k]
  {
    if k > 0 {
      SortedPrefixStays(ps, k - 1);
      SortOneMore(ps[..k - 1], ps[k - 1]);
      assert ps[..k] == ps[..k - 1] + [ps[k - 1]];
      assert k > 1 ==> ps[..k - 1][k - 2].position < ps[k - 1].position;
    }
  }

  lemma SortedParamsStay(ps: seq<Param>)
    requires InPositionOrder(ps)
    ensures SortParams(ps) == ps
  {
    SortedPrefixStays(ps, |ps|);
    assert ps[..|ps|] == ps;
  }

  /** A read always returns canonical params. */
  lemma ReadParamsAreCanonical(ps: seq<Param>, ofScript: bool)
    requires DistinctPositions(ps)
    ensures CanonicalParams(ReadParams(ps, ofScript), ofScript)
  {
    SortParamsOrder(ps);
  }

  /** Params come back as they were written exactly when they are canonical. */
  lemma ParamsSurviveExactlyWhenCanonical(ps: seq<Param>, ofScript: bool)
    requires DistinctPositions(ps)
    ensures ReadParams(ps, ofScript) == ps <==> CanonicalParams(ps, ofScript)
  {
    ReadParamsAreCanonical(ps, ofScript);
    if CanonicalParams(ps, ofScript) {
      SortedParamsStay(ps);
    }
  }

  lemma PropertyOfSorted(ps: seq<Param>, j: nat) returns (i: nat)
    requires j < |SortParams(ps)|
    ensures i < |ps| && ps[i] == SortParams(ps)[j]
  {
    SortParamsElements(ps);
    assert SortParams(ps)[j] in multiset(ps);
    i :| i < |ps| && ps[i] == SortParams(ps)[j];
  }

  /** Names stay distinct under sorting, because sorting is a permutation. */
  lemma SortedNamesStayDistinct(ps: seq<Param>)
    requires DistinctParams(ps)
    ensures DistinctParams(SortParams(ps))
  {
    var r := SortParams(ps);
    SortParamsElements(ps);
    forall i, j | 0 <= i < j < |r| ensures r[i].name != r[j].name {
      if r[i].name == r[j].name {
        var a := PropertyOfSorted(ps, i);
        var b := PropertyOfSorted(ps, j);
        assert a == b;
        TwiceIn(r, i, j);
        OnceIn(ps, a);
      }
    }
  }

  lemma TwiceIn(ps: seq<Param>, i: nat, j: nat)
    requires i < j < |ps| && ps[i] == ps[j]
    ensures multiset(ps)[ps[i]] >= 2
  {
    assert ps == ps[..j] + [ps[j]] + ps[j + 1..];
    assert ps[i] in multiset(ps[..j]);
  }

  lemma OnceIn(ps: seq<Param>, i: nat)
    requires i < |ps| && forall j | 0 <= j < |ps| && ps[j] == ps[i] :: j == i
    ensures multiset(ps)[ps[i]] == 1
  {
    assert ps == ps[..i] + [ps[i]] + ps[i + 1..];
    assert ps[i] !in ps[..i] && ps[i] !in ps[i + 1..];
    assert ps[i] !in multiset(ps[..i]) && ps[i] !in multiset(ps[i + 1..]);
  }

  /** What a read returns can be written again. */
  lemma ReadParamsAreWritable(ps: seq<Param>)
    ensures WritableCallParams(ps) ==> WritableCallParams(ReadParams(ps, false))
    ensures WritableScriptParams(ps) ==> WritableScriptParams(ReadParams(ps, true))
  {
    if WritableCallParams(ps) || WritableScriptParams(ps) {
      SortParamsOrder(ps);
      SortedNamesStayDistinct(ps);
      forall j: nat | j < |SortParams(ps)| ensures SortParams(ps)[j] in ps {
        var i := PropertyOfSorted(ps, j);
      }
    }
  }

  // ----- Whole rows -----

  /** The column holds 0 for "no opinion", and a value its 32 bits read as negative reads the same. */
  function ReadService(s: Service): Service {
    s.(rateLimitPerMin :=
         if s.rateLimitPerMin.Some? && 0 < s.rateLimitPerMin.value <= I32_MAX then s.rateLimitPerMin else None)
  }

  predicate CanonicalService(s: Service) {
    s.rateLimitPerMin.Some? ==> 0 < s.rateLimitPerMin.value <= I32_MAX
  }

  function ReadCall(c: ApiCall): ApiCall {
    c.(params := ReadParams(c.params, false), description := Collapse(c.description))
  }

  predicate CanonicalCall(c: ApiCall) {
    CanonicalParams(c.params, false) && c.description != Some("")
  }

  /** A limit too large for its signed column comes back negative and is raised to zero. */
  function ReadLimit(v: Option<nat>, top: nat): Option<nat> {
    if v.Some? && v.value > top then Some(0) else v
  }

  function ReadBudgets(b: Budgets): Budgets {
    Budgets(ReadLimit(b.maxCalls, I32_MAX), ReadLimit(b.maxBytes, I64_MAX),
            if b.wallClockMs.Some? && b.wallClockMs.value > I32_MAX then Some(I32_MAX) else b.wallClockMs,
            ReadLimit(b.maxPages, I32_MAX), ReadLimit(b.maxConcurrency, I32_MAX))
  }

  predicate AtMost(v: Option<nat>, top: nat) {
    v.Some? ==> v.value <= top
  }

  predicate CanonicalBudgets(b: Budgets) {
    && AtMost(b.maxCalls, I32_MAX) && AtMost(b.maxBytes, I64_MAX) && AtMost(b.wallClockMs, I32_MAX)
    && AtMost(b.maxPages, I32_MAX) && AtMost(b.maxConcurrency, I32_MAX)
  }

  function ReadScript(s: ScriptDef): ScriptDef {
    s.(params := ReadParams(s.params, true), budgets := ReadBudgets(s.budgets))
  }

  predicate CanonicalScript(s: ScriptDef) {
    CanonicalParams(s.params, true) && CanonicalBudgets(s.budgets)
  }

  /** An endpoint's expression is stored as text and parsed on every read. */
  function ReadEndpoint(e: EndpointDef): Option<EndpointDef> {
    match Parse(ToString(e.tagExpr))
    case Ok(expr) => Some(e.(tagExpr := expr))
    case Err(_) => None
  }

  lemma EndpointSurvives(e: EndpointDef)
    requires KeywordFree(e.tagExpr)
    ensures ReadEndpoint(e) == Some(e)
  {
    PrintThenParse(e.tagExpr);
  }

  /** Rows come back as they were written exactly when they are canonical. */
  lemma RowsSurviveExactlyWhenCanonical(s: Service, c: ApiCall, d: ScriptDef)
    requires DistinctPositions(c.params) && DistinctPositions(d.params)
    ensures ReadService(s) == s <==> CanonicalService(s)
    ensures ReadCall(c) == c <==> CanonicalCall(c)
    ensures ReadScript(d) == d <==> CanonicalScript(d)
  {
    ParamsSurviveExactlyWhenCanonical(c.params, false);
    ParamsSurviveExactlyWhenCanonical(d.params, true);
  }

  /** Writing what was read changes nothing any more. */
  lemma ReadingSettles(s: Service, c: ApiCall, d: ScriptDef)
    requires WritableCallParams(c.params) && WritableScriptParams(d.params)
    ensures ReadService(ReadService(s)) == ReadService(s) && CanonicalService(ReadService(s))
    ensures ReadCall(ReadCall(c)) == ReadCall(c) && CanonicalCall(ReadCall(c))
    ensures ReadScript(ReadScript(d)) == ReadScript(d) && CanonicalScript(ReadScript(d))
  {
    ReadParamsAreCanonical(c.params, false);
    ReadParamsAreCanonical(d.params, true);
    ParamsSurviveExactlyWhenCanonical(ReadParams(c.params, false), false);
    ParamsSurviveExactlyWhenCanonical(ReadParams(d.params, true), true);
  }

  // ----- Through the columns -----

  /** A 32-bit column takes the bits of an unsigned value and gives them back as a signed one. */
  ghost function SignedOf32(v: nat): int {
    if v < 0x8000_0000 then v else v - 0x1_0000_0000
  }

  ghost function SignedOf64(v: nat): int {
    if v < 0x8000_0000_0000_0000 then v else v - 0x1_0000_0000_0000_0000
  }

  ghost function AtLeastZero(i: int): nat {
    if i < 0 then 0 else i
  }

  /** What reading does to the limits is what their signed columns do to them. */
  lemma LimitsGoThroughTheirColumns(v: Option<nat>)
    requires v.Some?
    ensures v.value <= 0xFFFF_FFFF ==> ReadLimit(v, I32_MAX) == Some(AtLeastZero(SignedOf32(v.value)))
    ensures v.value <= 0xFFFF_FFFF_FFFF_FFFF ==> ReadLimit(v, I64_MAX) == Some(AtLeastZero(SignedOf64(v.value)))
  {
  }

  /** A service comes back with another rate limit at most: the column's, where nothing above zero is none. */
  lemma ServicesGoThroughTheirColumns(s: Service)
    requires s.rateLimitPerMin.Some? ==> s.rateLimitPerMin.value <= 0xFFFF_FFFF
    ensures var column := SignedOf32(if s.rateLimitPerMin.Some? then s.rateLimitPerMin.value else 0);
      ReadService(s) == s.(rateLimitPerMin := if column <= 0 then None else Some(column))
  {
  }

  /** A script's budgets come back through their columns; a wall clock beyond its column is capped, not wrapped. */
  lemma BudgetsGoThroughTheirColumns(b: Budgets)
    ensures var r := ReadBudgets(b);
      && r.maxCalls == ReadLimit(b.maxCalls, I32_MAX) && r.maxPages == ReadLimit(b.maxPages, I32_MAX)
      && r.maxConcurrency == ReadLimit(b.maxConcurrency, I32_MAX) && r.maxBytes == ReadLimit(b.maxBytes, I64_MAX)
      && (r.wallClockMs.None? <==> b.wallClockMs.None?)
      && (b.wallClockMs.Some? ==>
            r.wallClockMs.value == if b.wallClockMs.value < 0x7FFF_FFFF then b.wallClockMs.value else 0x7FFF_FFFF)
  {
  }

  ghost predicate ComesFrom(p: Param, ps: seq<Param>, ofScript: bool) {
    exists i :: 0 <= i < |ps| && p ==
      ps[i].(description := if ps[i].description == Some("") then None else ps[i].description,
             fixed := if ofScript then None else ps[i].fixed)
  }

  /**
   Params come back in position order, each as one that was written but for an empty description and, in scripts,
   a fixed value.
   */
  lemma ParamsGoThroughTheirTable(ps: seq<Param>, ofScript: bool)
    requires DistinctPositions(ps)
    ensures |ReadParams(ps, ofScript)| == |ps| && InPositionOrder(ReadParams(ps, ofScript))
    ensures forall p | p in ReadParams(ps, ofScript) :: ComesFrom(p, ps, ofScript)
  {
    SortParamsElements(ps);
    SortParamsOrder(ps);
    forall j: nat | j < |ps| ensures ComesFrom(ReadParams(ps, ofScript)[j], ps, ofScript) {
      var i := PropertyOfSorted(ps, j);
    }
  }

  /**
   Besides its params and an empty description an api_call comes back as it was; a script but for params and
   budgets.
   */
  lemma OtherColumnsStay(c: ApiCall, d: ScriptDef)
    ensures ReadCall(c) == c.(params := ReadParams(c.params, false),
                              description := if c.description == Some("") then None else c.description)
    ensures ReadScript(d) == d.(params := ReadParams(d.params, true), budgets := ReadBudgets(d.budgets))
  {
  }

  // ----- Writing params -----

  /** Params are inserted row by row; each row must pass the checks and both unique indexes. */
  method ReplaceParams(ps: seq<Param>, ofScript: bool) returns (ok: bool)
    ensures ok <==> if ofScript then WritableScriptParams(ps) else WritableCallParams(ps)
  {
    var names: set<U.Text>, positions: set<int> := {}, {};
    for k := 0 to |ps|
      invariant forall name :: name in names <==> exists i :: 0 <= i < k && ps[i].name == name
      invariant forall n :: n in positions <==> exists i :: 0 <= i < k && ps[i].position == n
      invariant DistinctParams(ps[..k]) && DistinctPositions(ps[..k])
      invariant forall i | 0 <= i < k :: RowPasses(ps[i], ofScript)
    {
      if (ps[k].location == Local) != ofScript { return false; }
      if !ofScript && ps[k].fixed.Some? && ps[k].required { return false; }
      if ps[k].name in names || ps[k].position in positions { return false; }
      names, positions := names + {ps[k].name}, positions + {ps[k].position};
    }
    assert ps[..|ps|] == ps;
    ok := true;
  }

  ghost predicate RowPasses(p: Param, ofScript: bool) {
    if ofScript then p.location == Local else p.location != Local && (p.fixed.Some? ==> !p.required)
  }
}
