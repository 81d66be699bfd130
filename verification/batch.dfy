/**
 One batch of upstream calls: all-or-nothing reservation, caps computed once, concurrent fan-out,
 then byte and page commits in index order.
 */
module Batches {
  import opened Wrappers
  import opened MachineInts
  import opened Meters
  import F = FanOuts

  datatype DispatchError = PageCapExceeded | Timeout | OtherFailure(message: string)

  /** A completed call: its total bytes and pages, and the projected value. */
  datatype Done = Done(bytes: u64, pages: u32, value: string)

  type CallResult = Result<Done, DispatchError>

  datatype CallBudget = CallBudget(maxResponseBytes: u64, maxPages: u32, deadline: nat)

  /** A call to make. What the upstream answers may depend on the budget it is sent with. */
  datatype Item = Item(name: string, dispatch: CallBudget -> CallResult)

  datatype ItemOutcome =
    | Completed(done: Done)
    | Failed(error: DispatchError)
    | NotAttempted(axis: BudgetAxis)
    | BudgetCut(axis: BudgetAxis, done: Done)

  datatype Entry = Entry(index: nat, name: string, outcome: ItemOutcome)

  datatype BatchStatus = AllOk | Partial | AllFailedOnBudget(axis: BudgetAxis) | AllFailed

  datatype BatchOutcome = BatchOutcome(entries: seq<Entry>, status: BatchStatus)

  /** Stands in for the deadline of a run that has none; times are in milliseconds. */
  const NO_WALL_CLOCK_BUDGET_FALLBACK: nat := 3_600_000

  function BudgetTrip(e: DispatchError): Option<BudgetAxis> {
    match e
    case PageCapExceeded => Some(Pages)
    case Timeout => Some(WallClock)
    case OtherFailure(_) => None
  }

  function AxisOf(o: ItemOutcome): Option<BudgetAxis> {
    match o
    case NotAttempted(axis) => Some(axis)
    case BudgetCut(axis, _) => Some(axis)
    case Failed(e) => BudgetTrip(e)
    case Completed(_) => None
  }

  // ----- The verdict on a batch -----

  function Successes(entries: seq<Entry>, k: nat): (n: nat)
    requires k <= |entries|
    ensures n <= k
  {
    if k == 0 then 0 else Successes(entries, k - 1) + if entries[k - 1].outcome.Completed? then 1 else 0
  }

  predicate AllOnAxis(entries: seq<Entry>, axis: BudgetAxis) {
    forall i | 0 <= i < |entries| :: AxisOf(entries[i].outcome) == Some(axis)
  }

  function DeriveStatus(entries: seq<Entry>): BatchStatus {
    var succeeded := Successes(entries, |entries|);
    if succeeded == |entries| then AllOk
    else if succeeded > 0 then Partial
    else
      var first := AxisOf(entries[0].outcome);
      if first.Some? && AllOnAxis(entries, first.value) then AllFailedOnBudget(first.value) else AllFailed
  }

  lemma {:induction false} CountingSuccesses(entries: seq<Entry>, k: nat)
    requires k <= |entries|
    ensures Successes(entries, k) == k <==> forall i | 0 <= i < k :: entries[i].outcome.Completed?
    ensures Successes(entries, k) == 0 <==> forall i | 0 <= i < k :: !entries[i].outcome.Completed?
  {
    if k > 0 {
      CountingSuccesses(entries, k - 1);
    }
  }

  ghost predicate SomeCompleted(entries: seq<Entry>) {
    exists i :: 0 <= i < |entries| && entries[i].outcome.Completed?
  }

  ghost predicate SomeNotCompleted(entries: seq<Entry>) {
    exists i :: 0 <= i < |entries| && !entries[i].outcome.Completed?
  }

  /** The item failed for want of this part of the budget and for nothing else. */
  ghost predicate FellTo(o: ItemOutcome, axis: BudgetAxis) {
    match o
    case Completed(_) => false
    case NotAttempted(why) => why == axis
    case BudgetCut(why, _) => why == axis
    case Failed(PageCapExceeded) => axis == Pages
    case Failed(Timeout) => axis == WallClock
    case Failed(OtherFailure(_)) => false
  }

  /** Every status is equivalent to a statement about the entries; together they cover all batches. */
  lemma StatusReading(entries: seq<Entry>, axis: BudgetAxis)
    ensures DeriveStatus(entries) == AllOk <==> !SomeNotCompleted(entries)
    ensures DeriveStatus(entries) == Partial <==> SomeCompleted(entries) && SomeNotCompleted(entries)
    ensures DeriveStatus(entries) == AllFailedOnBudget(axis) <==> entries != [] && AllOnAxis(entries, axis)
    ensures AllOnAxis(entries, axis) <==> forall i | 0 <= i < |entries| :: FellTo(entries[i].outcome, axis)
    ensures DeriveStatus(entries) == AllFailed <==>
      entries != [] && !SomeCompleted(entries) && forall a :: !AllOnAxis(entries, a)
  {
    CountingSuccesses(entries, |entries|);
    if entries != [] {
      assert forall a :: AllOnAxis(entries, a) ==> AxisOf(entries[0].outcome) == Some(a);
    }
  }

  // ----- What a batch charges -----

  function AmountOf(r: CallResult, axis: BudgetAxis): nat {
    if r.Err? then 0 else if axis == Bytes then r.value.bytes else r.value.pages
  }

  /** Per input index, what its result weighs on `axis`; a failed call weighs nothing. */
  function Weights(results: seq<CallResult>, axis: BudgetAxis): (w: seq<nat>)
    ensures |w| == |results|
  {
    seq(|results|, i requires 0 <= i < |results| => AmountOf(results[i], axis))
  }

  /** The charges handed to the meter: completed calls only, in index order. */
  function Totals(results: seq<CallResult>, axis: BudgetAxis, n: nat): seq<(nat, nat)>
    requires n <= |results|
  {
    if n == 0 then [] else
    Totals(results, axis, n - 1) + if results[n - 1].Ok? then [(n - 1, AmountOf(results[n - 1], axis))] else []
  }

  method CollectTotals(results: seq<CallResult>, axis: BudgetAxis) returns (ordered: seq<(nat, nat)>)
    ensures ordered == Totals(results, axis, |results|)
  {
    ordered := [];
    for i := 0 to |results|
      invariant ordered == Totals(results, axis, i)
    {
      if results[i].Ok? {
        ordered := ordered + [(i, AmountOf(results[i], axis))];
      }
    }
  }

  lemma {:induction false} SumsAgree(a: seq<nat>, b: seq<nat>, k: nat)
    requires k <= |a| && k <= |b| && a[..k] == b[..k]
    ensures SumTo(a, k) == SumTo(b, k)
  {
    if k > 0 {
      assert a[..k - 1] == a[..k][..k - 1] == b[..k][..k - 1] == b[..k - 1];
      assert a[k - 1] == a[..k][k - 1] == b[..k][k - 1] == b[k - 1];
      SumsAgree(a, b, k - 1);
    }
  }

  lemma {:induction false} TotalsWeighTheSame(results: seq<CallResult>, axis: BudgetAxis, n: nat)
    requires n <= |results|
    ensures var t := Totals(results, axis, n); SumTo(Amounts(t), |t|) == SumTo(Weights(results, axis), n)
  {
    if n > 0 {
      TotalsWeighTheSame(results, axis, n - 1);
      var t, init := Totals(results, axis, n), Totals(results, axis, n - 1);
      if results[n - 1].Err? {
        assert t == init;
      } else {
        assert Amounts(t)[..|init|] == Amounts(init)[..|init|];
        SumsAgree(Amounts(t), Amounts(init), |init|);
        assert Amounts(t)[|init|] == Weights(results, axis)[n - 1];
      }
    }
  }

  /** The charge at position `p` belongs to index `i`, and the charges before it to the indices before `i`. */
  lemma {:induction false} TotalsAreAPrefix(results: seq<CallResult>, axis: BudgetAxis, n: nat, p: nat) returns (i: nat)
    requires n <= |results| && p < |Totals(results, axis, n)|
    ensures i < n && Totals(results, axis, n)[p] == (i, Weights(results, axis)[i])
    ensures Totals(results, axis, i) == Totals(results, axis, n)[..p]
  {
    var init := Totals(results, axis, n - 1);
    if p < |init| {
      i := TotalsAreAPrefix(results, axis, n - 1, p);
      assert init[..p] == Totals(results, axis, n)[..p];
    } else {
      i := n - 1;
      assert init == Totals(results, axis, n)[..p];
    }
  }

  lemma SumUnderRoom(amounts: seq<nat>, room: Option<nat>, k: nat)
    requires k <= |amounts| && forall i | 0 <= i < k :: !Overruns(amounts, room, i)
    ensures room.Some? ==> SumTo(amounts, k) <= room.value
  {
    assert k > 0 ==> !Overruns(amounts, room, k - 1);
  }

  /** Leaving failed calls out of the charges moves neither the trip nor the amount charged. */
  lemma FilteringIsHarmless(results: seq<CallResult>, axis: BudgetAxis, room: Option<nat>)
    ensures var t, w := Totals(results, axis, |results|), Weights(results, axis);
      var k, c := Cut(Amounts(t), room), Cut(w, room);
      && SumTo(Amounts(t), k) == SumTo(w, c)
      && (k < |t| <==> c < |results|)
      && (k < |t| ==> t[k].0 == c)
  {
    var t, w := Totals(results, axis, |results|), Weights(results, axis);
    var a := Amounts(t);
    var k := Cut(a, room);
    SumUnderRoom(a, room, k);
    if k < |t| {
      var c := TotalsAreAPrefix(results, axis, |results|, k);
      TotalsWeighTheSame(results, axis, c);
      assert Amounts(t[..k])[..k] == a[..k];
      SumsAgree(a, Amounts(t[..k]), k);
      SumsUnderBound(w, room, c);
      CutIsUnique(w, room, c);
    } else {
      TotalsWeighTheSame(results, axis, |results|);
      SumsUnderBound(w, room, |w|);
      CutIsUnique(w, room, |w|);
    }
  }

  lemma FilteringIsHarmlessToTheMeter(results: seq<CallResult>, axis: BudgetAxis, limit: Option<nat>, used: nat,
                                      top: nat)
    requires Under(used, limit)
    ensures var t, w := Totals(results, axis, |results|), Weights(results, axis);
      var c := Cut(w, Room(limit, used, top));
      && Charge(Amounts(t), limit, used, top) == Charge(w, limit, used, top)
      && TripAt(t, limit, used, top) == if c < |results| then Some(c) else None
  {
    FilteringIsHarmless(results, axis, Room(limit, used, top));
  }

  lemma SumsUnderBound(w: seq<nat>, room: Option<nat>, c: nat)
    requires c <= |w| && (room.Some? ==> SumTo(w, c) <= room.value)
    ensures forall i | 0 <= i < c :: !Overruns(w, room, i)
  {
    forall i | 0 <= i < c ensures !Overruns(w, room, i) {
      SumsGrow(w, i + 1, c);
    }
  }

  // ----- The batch as a function of meter, clock and results -----

  function ByteCut(m: Meter, results: seq<CallResult>): (c: nat)
    requires WithinCeilings(m)
    ensures c <= |results|
  {
    Cut(Weights(results, Bytes), Room(m.maxBytes, m.bytes, U64_MAX))
  }

  function PageCut(m: Meter, results: seq<CallResult>): (c: nat)
    requires WithinCeilings(m)
    ensures c <= |results|
  {
    Cut(Weights(results, Pages), Room(m.maxPages, m.pages, U32_MAX))
  }

  function OutcomeAt(r: CallResult, i: nat, byteCut: nat, pageCut: nat): ItemOutcome {
    if r.Err? then Failed(r.error)
    else if i < byteCut && i < pageCut then Completed(r.value)
    else BudgetCut(if pageCut < byteCut then Pages else Bytes, r.value)
  }

  function EntriesOf(items: seq<Item>, results: seq<CallResult>, byteCut: nat, pageCut: nat): (es: seq<Entry>)
    requires |items| == |results|
    ensures |es| == |items|
  {
    seq(|items|, i requires 0 <= i < |items| => Entry(i, items[i].name, OutcomeAt(results[i], i, byteCut, pageCut)))
  }

  function Charged(m: Meter, results: seq<CallResult>): Meter
    requires WithinCeilings(m)
  {
    m.(bytes := Charge(Weights(results, Bytes), m.maxBytes, m.bytes, U64_MAX),
       pages := Charge(Weights(results, Pages), m.maxPages, m.pages, U32_MAX))
  }

  function Settle(m: Meter, items: seq<Item>, results: seq<CallResult>): (Meter, BatchOutcome)
    requires WithinCeilings(m) && |items| == |results|
  {
    var entries := EntriesOf(items, results, ByteCut(m, results), PageCut(m, results));
    (Charged(m, results), BatchOutcome(entries, DeriveStatus(entries)))
  }

  function NoneAttempted(items: seq<Item>, axis: BudgetAxis): BatchOutcome {
    BatchOutcome(seq(|items|, i requires 0 <= i < |items| => Entry(i, items[i].name, NotAttempted(axis))),
                 AllFailedOnBudget(axis))
  }

  function BudgetFor(m: Meter, now: nat): CallBudget
    requires WithinCeilings(m)
  {
    CallBudget(ByteCap(m, U64_MAX),
               if PageCap(m) < 1 then 1 else PageCap(m),
               if m.deadline.None? then NO_WALL_CLOCK_BUDGET_FALLBACK
               else SaturatingSub(m.deadline.value, now))
  }

  function ResultsOf(items: seq<Item>, budget: CallBudget): (rs: seq<CallResult>)
    ensures |rs| == |items|
  {
    seq(|items|, i requires 0 <= i < |items| => items[i].dispatch(budget))
  }

  /** `now0` and `now1` are the clock at the reservation and at the later deadline check. */
  function Batch(m: Meter, items: seq<Item>, now0: nat, now1: nat): (Meter, BatchOutcome)
    requires WithinCeilings(m)
  {
    if items == [] then (m, BatchOutcome([], AllOk)) else
    var (trip, m1) := Reserve(m, |items| % (U32_MAX + 1), now0);
    if trip.Some? then (m1, NoneAttempted(items, trip.value))
    else if Late(m1, now1) then (m1, NoneAttempted(items, WallClock))
    else Settle(m1, items, ResultsOf(items, BudgetFor(m1, now1)))
  }

  /** Whichever axis trips at the lower index cuts the batch, bytes on a tie. */
  function FirstTrip(byteTripAt: Option<nat>, pageTripAt: Option<nat>): Option<(nat, BudgetAxis)> {
    match (byteTripAt, pageTripAt)
    case (Some(b), Some(p)) => if p < b then Some((p, Pages)) else Some((b, Bytes))
    case (Some(b), None) => Some((b, Bytes))
    case (None, Some(p)) => Some((p, Pages))
    case (None, None) => None
  }

  function CutOutcome(r: CallResult, i: nat, cut: Option<(nat, BudgetAxis)>): ItemOutcome {
    match r
    case Err(e) => Failed(e)
    case Ok(done) => if cut.Some? && i >= cut.value.0 then BudgetCut(cut.value.1, done) else Completed(done)
  }

  lemma CutsAgree(results: seq<CallResult>, byteCut: nat, pageCut: nat, byteTripAt: Option<nat>,
                  pageTripAt: Option<nat>)
    requires byteCut <= |results| && pageCut <= |results|
    requires byteTripAt == if byteCut < |results| then Some(byteCut) else None
    requires pageTripAt == if pageCut < |results| then Some(pageCut) else None
    ensures forall i: nat | i < |results| ::
      CutOutcome(results[i], i, FirstTrip(byteTripAt, pageTripAt)) == OutcomeAt(results[i], i, byteCut, pageCut)
  {
  }

  method CollectEntries(items: seq<Item>, results: seq<CallResult>, cut: Option<(nat, BudgetAxis)>)
    returns (entries: seq<Entry>)
    requires |items| == |results|
    ensures |entries| == |items|
    ensures forall i: nat | i < |items| :: entries[i] == Entry(i, items[i].name, CutOutcome(results[i], i, cut))
  {
    entries := [];
    for i := 0 to |items|
      invariant |entries| == i
      invariant forall j: nat | j < i :: entries[j] == Entry(j, items[j].name, CutOutcome(results[j], j, cut))
    {
      entries := entries + [Entry(i, items[i].name, CutOutcome(results[i], i, cut))];
    }
  }

  /** The calls to fan out: each is limited with its own service, an undeclared one under the endpoint's name. */
  method FanItems(planned: map<string, string>, endpoint: string, items: seq<Item>, budget: CallBudget)
    returns (b: F.Batch<CallResult>)
    ensures |b.services| == |items| && b.values == ResultsOf(items, budget)
    ensures forall i | 0 <= i < |items| ::
      b.services[i] == if items[i].name in planned then planned[items[i].name] else endpoint
  {
    var services, values := [], [];
    for i := 0 to |items|
      invariant |services| == i && values == ResultsOf(items, budget)[..i]
      invariant forall j | 0 <= j < i ::
        services[j] == if items[j].name in planned then planned[items[j].name] else endpoint
    {
      services := services + [if items[i].name in planned then planned[items[i].name] else endpoint];
      values := values + [items[i].dispatch(budget)];
    }
    b := F.Batch(services, values);
  }

  /** Charges both axes after a fan-out and picks the one that cuts first, bytes on a tie. */
  method SettleBatch(meter: BudgetMeter, items: seq<Item>, results: seq<CallResult>) returns (r: BatchOutcome)
    requires meter.Valid() && |items| == |results|
    modifies meter`bytesUsed, meter`pagesUsed
    ensures meter.Valid() && (meter.Reading(), r) == Settle(old(meter.Reading()), items, results)
  {
    ghost var m := meter.Reading();
    FilteringIsHarmlessToTheMeter(results, Bytes, m.maxBytes, m.bytes, U64_MAX);
    FilteringIsHarmlessToTheMeter(results, Pages, m.maxPages, m.pages, U32_MAX);
    var byteTotals := CollectTotals(results, Bytes);
    var byteTripAt := meter.CommitBytesInOrder(byteTotals);
    var pageTotals := CollectTotals(results, Pages);
    var pageTripAt := meter.CommitPagesInOrder(pageTotals);
    var entries := CollectEntries(items, results, FirstTrip(byteTripAt, pageTripAt));
    CutsAgree(results, ByteCut(m, results), PageCut(m, results), byteTripAt, pageTripAt);
    assert entries == EntriesOf(items, results, ByteCut(m, results), PageCut(m, results));
    r := BatchOutcome(entries, DeriveStatus(entries));
  }

  /** Fans the calls out and settles what comes back. */
  method RunCalls(planned: map<string, string>, endpoint: string, limits: F.Limits, meter: BudgetMeter,
                  items: seq<Item>, budget: CallBudget) returns (r: BatchOutcome)
    requires meter.Valid()
    modifies meter`bytesUsed, meter`pagesUsed
    ensures meter.Valid() && (meter.Reading(), r) == Settle(old(meter.Reading()), items, ResultsOf(items, budget))
  {
    var calls := FanItems(planned, endpoint, items, budget);
    var results := F.FanOut(limits, calls);
    r := SettleBatch(meter, items, results);
  }

  method RunBatch(planned: map<string, string>, endpoint: string, limits: F.Limits, meter: BudgetMeter,
                  items: seq<Item>, now0: nat, now1: nat) returns (r: BatchOutcome)
    requires meter.Valid()
    modifies meter
    ensures meter.Valid() && (meter.Reading(), r) == Batch(old(meter.Reading()), items, now0, now1)
  {
    if |items| == 0 {
      return BatchOutcome([], AllOk);
    }
    var trip := meter.ReserveCalls(|items| % (U32_MAX + 1), now0);
    if trip.Some? {
      return NoneAttempted(items, trip.value);
    }
    var left := meter.RemainingTime(now1);
    if left.Err? {
      return NoneAttempted(items, left.error);
    }
    var budget := CallBudget(
      meter.BatchByteCap(U64_MAX),
      if meter.BatchPageCap() < 1 then 1 else meter.BatchPageCap(),
      if left.value.None? then NO_WALL_CLOCK_BUDGET_FALLBACK else left.value.value);
    r := RunCalls(planned, endpoint, limits, meter, items, budget);
  }

  // ----- What a batch guarantees -----

  /** What is left at the second look at the clock: bytes and time as they are, and at least one page. */
  ghost predicate IsLeft(m: Meter, now1: nat, b: CallBudget) {
    && b.maxResponseBytes == (if m.maxBytes.None? then 0xFFFF_FFFF_FFFF_FFFF else m.maxBytes.value - m.bytes)
    && b.maxPages == (if m.maxPages.None? then 0xFFFF_FFFF
                      else if m.maxPages.value == m.pages then 1 else m.maxPages.value - m.pages)
    && b.deadline == if m.deadline.None? then 3_600_000 else m.deadline.value - now1
  }

  ghost predicate AgreeOnWhatIsLeft(m: Meter, now1: nat, a: Item, b: Item) {
    a.name == b.name && forall budget | IsLeft(m, now1, budget) :: a.dispatch(budget) == b.dispatch(budget)
  }

  lemma BudgetForIsLeft(m: Meter, now: nat)
    requires WithinCeilings(m) && !Late(m, now)
    ensures IsLeft(m, now, BudgetFor(m, now))
  {
  }

  /** Every call is sent with what is left of the budget, the same for all: the batch depends on no other answer. */
  lemma CallsAreSentWithWhatIsLeft(m: Meter, a: seq<Item>, b: seq<Item>, now0: nat, now1: nat)
    requires WithinCeilings(m) && |a| == |b|
    requires forall i | 0 <= i < |a| :: AgreeOnWhatIsLeft(m, now1, a[i], b[i])
    ensures Batch(m, a, now0, now1) == Batch(m, b, now0, now1)
  {
    forall i | 0 <= i < |a| ensures a[i].name == b[i].name {
      assert AgreeOnWhatIsLeft(m, now1, a[i], b[i]);
    }
    forall axis ensures NoneAttempted(a, axis) == NoneAttempted(b, axis) {
      assert NoneAttempted(a, axis).entries == NoneAttempted(b, axis).entries;
    }
    var m1 := Reserve(m, |a| % (U32_MAX + 1), now0).1;
    if !Late(m1, now1) {
      BudgetForIsLeft(m1, now1);
      var budget := BudgetFor(m1, now1);
      assert IsLeft(m, now1, budget);
      forall i | 0 <= i < |a| ensures a[i].dispatch(budget) == b[i].dispatch(budget) {
        assert AgreeOnWhatIsLeft(m, now1, a[i], b[i]);
      }
      SameResultsSettleAlike(m1, a, b, budget);
    }
  }

  lemma SameResultsSettleAlike(m: Meter, a: seq<Item>, b: seq<Item>, budget: CallBudget)
    requires WithinCeilings(m) && |a| == |b|
    requires forall i | 0 <= i < |a| :: a[i].name == b[i].name && a[i].dispatch(budget) == b[i].dispatch(budget)
    ensures Settle(m, a, ResultsOf(a, budget)) == Settle(m, b, ResultsOf(b, budget))
  {
    assert ResultsOf(a, budget) == ResultsOf(b, budget);
    var results := ResultsOf(a, budget);
    assert EntriesOf(a, results, ByteCut(m, results), PageCut(m, results))
        == EntriesOf(b, results, ByteCut(m, results), PageCut(m, results));
  }

  lemma SettledIsAttempted(m: Meter, items: seq<Item>, results: seq<CallResult>)
    requires WithinCeilings(m) && |items| == |results|
    ensures forall e | e in Settle(m, items, results).1.entries :: !e.outcome.NotAttempted?
  {
  }

  /** Which batches are not attempted, why, and what they cost. */
  lemma NothingIsAttemptedExactlyWhen(m: Meter, items: seq<Item>, now0: nat, now1: nat)
    requires WithinCeilings(m) && 0 < |items| <= 0xFFFF_FFFF
    ensures var (n, r) := Batch(m, items, now0, now1);
      if m.deadline.Some? && now0 >= m.deadline.value then
        n == m && forall e | e in r.entries :: e.outcome == NotAttempted(WallClock)
      else if m.maxCalls.Some? && m.calls + |items| > m.maxCalls.value then
        n == m && forall e | e in r.entries :: e.outcome == NotAttempted(Calls)
      else if m.deadline.Some? && now1 >= m.deadline.value then
        && n == m.(calls := n.calls) && (m.maxCalls.Some? ==> n.calls == m.calls + |items|)
        && forall e | e in r.entries :: e.outcome == NotAttempted(WallClock)
      else forall e | e in r.entries :: !e.outcome.NotAttempted?
  {
    var m1 := Reserve(m, |items|, now0).1;
    assert |items| % (U32_MAX + 1) == |items|;
    SettledIsAttempted(m1, items, ResultsOf(items, BudgetFor(m1, now1)));
  }

  predicate Numbered(entries: seq<Entry>) {
    forall i | 0 <= i < |entries| :: entries[i].index == i
  }

  /** One entry per input, at the input's position and under its name, whatever happens. */
  lemma EveryItemIsAnswered(m: Meter, items: seq<Item>, now0: nat, now1: nat)
    requires WithinCeilings(m)
    ensures var es := Batch(m, items, now0, now1).1.entries;
      && |es| == |items| && Numbered(es)
      && forall i | 0 <= i < |items| :: es[i].name == items[i].name
  {
  }

  /** The status a batch reports is the one its entries call for, also when nothing was attempted. */
  lemma StatusFollowsEntries(m: Meter, items: seq<Item>, now0: nat, now1: nat)
    requires WithinCeilings(m)
    ensures var r := Batch(m, items, now0, now1).1; r.status == DeriveStatus(r.entries)
  {
    var r := Batch(m, items, now0, now1).1;
    if r.status.AllFailedOnBudget? {
      StatusReading(r.entries, r.status.axis);
    }
  }

  /** Nothing completed follows a cut entry, and all cut entries name the same axis. */
  ghost predicate CutOnce(es: seq<Entry>) {
    && (forall i, j | 0 <= i <= j < |es| && es[i].outcome.BudgetCut? :: !es[j].outcome.Completed?)
    && (forall i, j | 0 <= i < |es| && 0 <= j < |es| && es[i].outcome.BudgetCut? && es[j].outcome.BudgetCut? ::
          es[i].outcome.axis == es[j].outcome.axis)
  }

  lemma SettledBatchIsCutOnce(items: seq<Item>, results: seq<CallResult>, byteCut: nat, pageCut: nat)
    requires |items| == |results|
    ensures CutOnce(EntriesOf(items, results, byteCut, pageCut))
  {
  }

  lemma BatchIsCutOnce(m: Meter, items: seq<Item>, now0: nat, now1: nat)
    requires WithinCeilings(m)
    ensures CutOnce(Batch(m, items, now0, now1).1.entries)
  {
    var (trip, m1) := Reserve(m, |items| % (U32_MAX + 1), now0);
    var results := ResultsOf(items, BudgetFor(m1, now1));
    SettledBatchIsCutOnce(items, results, ByteCut(m1, results), PageCut(m1, results));
  }

  /** The amounts up to and including `i` fit what the ceiling leaves. */
  ghost predicate Fits(w: seq<nat>, limit: Option<nat>, used: nat, i: nat)
    requires i < |w|
  {
    limit.Some? ==> used + SumTo(w, i + 1) <= limit.value
  }

  lemma BeforeCutMeansFits(w: seq<nat>, limit: Option<nat>, used: nat, top: nat, i: nat)
    requires i < |w| && Under(used, limit) && (limit.Some? ==> limit.value < top)
    ensures i < Cut(w, Room(limit, used, top)) <==> Fits(w, limit, used, i)
  {
    var c := Cut(w, Room(limit, used, top));
    if i < c {
      assert !Overruns(w, Room(limit, used, top), i);
    } else {
      SumsGrow(w, c + 1, i + 1);
    }
  }

  /** The bytes of the first `n` calls, as far as they completed. */
  ghost function BytesUpTo(results: seq<CallResult>, n: nat): nat
    requires n <= |results|
  {
    if n == 0 then 0
    else BytesUpTo(results, n - 1) + match results[n - 1] case Ok(done) => done.bytes case Err(_) => 0
  }

  ghost function PagesUpTo(results: seq<CallResult>, n: nat): nat
    requires n <= |results|
  {
    if n == 0 then 0
    else PagesUpTo(results, n - 1) + match results[n - 1] case Ok(done) => done.pages case Err(_) => 0
  }

  lemma {:induction false} WeightsAreSummed(results: seq<CallResult>, n: nat)
    requires n <= |results|
    ensures SumTo(Weights(results, Bytes), n) == BytesUpTo(results, n)
    ensures SumTo(Weights(results, Pages), n) == PagesUpTo(results, n)
  {
    if n > 0 {
      WeightsAreSummed(results, n - 1);
    }
  }

  /**
   A completed call keeps its value exactly when the bytes and the pages of all results up to it fit
   what both ceilings left before the batch.
   */
  lemma KeptExactlyWithinBothBudgets(m: Meter, items: seq<Item>, results: seq<CallResult>, i: nat)
    requires WithinCeilings(m) && i < |items| == |results|
    requires m.maxBytes.Some? ==> m.maxBytes.value < U64_MAX
    requires m.maxPages.Some? ==> m.maxPages.value < U32_MAX
    ensures Settle(m, items, results).1.entries[i].outcome.Completed? <==>
      && results[i].Ok?
      && (m.maxBytes.Some? ==> m.bytes + BytesUpTo(results, i + 1) <= m.maxBytes.value)
      && (m.maxPages.Some? ==> m.pages + PagesUpTo(results, i + 1) <= m.maxPages.value)
  {
    WeightsAreSummed(results, i + 1);
    BeforeCutMeansFits(Weights(results, Bytes), m.maxBytes, m.bytes, U64_MAX, i);
    BeforeCutMeansFits(Weights(results, Pages), m.maxPages, m.pages, U32_MAX, i);
  }

  /** The page cap handed to calls is floored at one, but with no pages left nothing is kept or charged. */
  lemma NothingKeptWithoutPages(m: Meter, items: seq<Item>, results: seq<CallResult>)
    requires WithinCeilings(m) && |items| == |results| && m.maxPages == Some(m.pages) && m.pages < U32_MAX
    requires forall i | 0 <= i < |results| && results[i].Ok? :: results[i].value.pages >= 1
    ensures Settle(m, items, results).0.pages == m.pages
    ensures !SomeCompleted(Settle(m, items, results).1.entries)
  {
    var w := Weights(results, Pages);
    ChargeIsExact(w, m.maxPages, m.pages, U32_MAX);
    forall i | 0 <= i < |results| && results[i].Ok? ensures i >= PageCut(m, results) {
      assert SumTo(w, i + 1) == SumTo(w, i) + results[i].value.pages;
      assert Overruns(w, Some(0), i);
    }
  }

  /** A page trip does not stop the charging of bytes, nor the reverse. */
  lemma AxesAreChargedIndependently(m: Meter, results: seq<CallResult>)
    requires WithinCeilings(m)
    ensures Charged(m, results).bytes == Charged(m.(maxPages := None), results).bytes
    ensures Charged(m, results).pages == Charged(m.(maxBytes := None), results).pages
  {
  }

  // ----- Accounts -----

  /** Entries whose request may have gone out. */
  function Attempted(es: seq<Entry>): nat {
    if es == [] then 0 else
    Attempted(es[..|es| - 1]) + if es[|es| - 1].outcome.NotAttempted? then 0 else 1
  }

  function KeptWeight(o: ItemOutcome, axis: BudgetAxis): nat {
    if o.Completed? then AmountOf(Ok(o.done), axis) else 0
  }

  /** The bytes, or pages, of the results the caller gets to see. */
  function Kept(es: seq<Entry>, axis: BudgetAxis): nat {
    if es == [] then 0 else Kept(es[..|es| - 1], axis) + KeptWeight(es[|es| - 1].outcome, axis)
  }

  lemma {:induction false} AttemptedAppend(a: seq<Entry>, b: seq<Entry>)
    ensures Attempted(a + b) == Attempted(a) + Attempted(b)
  {
    if b == [] {
      assert a + b == a;
    } else {
      var init := b[..|b| - 1];
      assert (a + b)[..|a + b| - 1] == a + init;
      AttemptedAppend(a, init);
    }
  }

  lemma {:induction false} KeptAppend(a: seq<Entry>, b: seq<Entry>, axis: BudgetAxis)
    ensures Kept(a + b, axis) == Kept(a, axis) + Kept(b, axis)
  {
    if b == [] {
      assert a + b == a;
    } else {
      var init := b[..|b| - 1];
      assert (a + b)[..|a + b| - 1] == a + init;
      KeptAppend(a, init, axis);
    }
  }

  lemma {:induction false} AttemptedAtMost(es: seq<Entry>)
    ensures Attempted(es) <= |es|
    ensures (forall e | e in es :: e.outcome.NotAttempted?) ==> Attempted(es) == 0
    ensures (forall e | e in es :: !e.outcome.NotAttempted?) ==> Attempted(es) == |es|
  {
    if es != [] {
      AttemptedAtMost(es[..|es| - 1]);
      assert es[|es| - 1] in es;
    }
  }

  lemma {:induction false} KeptAtMostWeights(es: seq<Entry>, w: seq<nat>, axis: BudgetAxis, c: nat)
    requires |es| <= |w| && c <= |w|
    requires forall i | 0 <= i < |es| :: KeptWeight(es[i].outcome, axis) <= if i < c then w[i] else 0
    ensures Kept(es, axis) <= SumTo(w, if |es| <= c then |es| else c)
  {
    if es != [] {
      var init := es[..|es| - 1];
      assert forall i | 0 <= i < |init| :: init[i] == es[i];
      KeptAtMostWeights(init, w, axis, c);
    }
  }

  /** What a batch lets the caller see, it has charged. */
  lemma KeptIsCharged(m: Meter, items: seq<Item>, results: seq<CallResult>)
    requires WithinCeilings(m) && |items| == |results|
    ensures Kept(Settle(m, items, results).1.entries, Bytes) <= SumTo(Weights(results, Bytes), ByteCut(m, results))
    ensures Kept(Settle(m, items, results).1.entries, Pages) <= SumTo(Weights(results, Pages), PageCut(m, results))
  {
    var es := Settle(m, items, results).1.entries;
    KeptAtMostWeights(es, Weights(results, Bytes), Bytes, ByteCut(m, results));
    KeptAtMostWeights(es, Weights(results, Pages), Pages, PageCut(m, results));
  }

  lemma NothingKeptWhenNoneAttempted(es: seq<Entry>, axis: BudgetAxis)
    requires forall e | e in es :: !e.outcome.Completed?
    ensures Kept(es, axis) == 0
  {
    if es != [] {
      assert es[|es| - 1] in es;
      NothingKeptWhenNoneAttempted(es[..|es| - 1], axis);
    }
  }

  /** A batch keeps every counter within its ceiling and leaves the ceilings alone. */
  lemma BatchKeepsCeilings(m: Meter, items: seq<Item>, now0: nat, now1: nat)
    requires WithinCeilings(m)
    ensures var n := Batch(m, items, now0, now1).0;
      && WithinCeilings(n)
      && (n.maxCalls, n.maxBytes, n.maxPages, n.deadline) == (m.maxCalls, m.maxBytes, m.maxPages, m.deadline)
  {
    if items != [] && Reserve(m, |items| % (U32_MAX + 1), now0).0.None? {
      var m1 := Reserve(m, |items| % (U32_MAX + 1), now0).1;
      var results := ResultsOf(items, BudgetFor(m1, now1));
      ChargeStaysUnder(Weights(results, Bytes), m1.maxBytes, m1.bytes, U64_MAX);
      ChargeStaysUnder(Weights(results, Pages), m1.maxPages, m1.pages, U32_MAX);
    }
  }

  lemma RefusedBatchAttemptsNothing(items: seq<Item>, axis: BudgetAxis)
    ensures Attempted(NoneAttempted(items, axis).entries) == 0
  {
    AttemptedAtMost(NoneAttempted(items, axis).entries);
  }

  /** Every attempted call was reserved, as long as the batch size fits the counter. */
  lemma AttemptsAreReserved(m: Meter, items: seq<Item>, now0: nat, now1: nat)
    requires WithinCeilings(m) && m.maxCalls.Some? && |items| <= U32_MAX
    ensures var (n, r) := Batch(m, items, now0, now1); m.calls + Attempted(r.entries) <= n.calls
  {
    var (trip, m1) := Reserve(m, |items|, now0);
    assert |items| % (U32_MAX + 1) == |items|;
    if trip.Some? {
      RefusedBatchAttemptsNothing(items, trip.value);
    } else {
      assert m1.calls == m.calls + |items|;
      EveryItemIsAnswered(m, items, now0, now1);
      AttemptedAtMost(Batch(m, items, now0, now1).1.entries);
    }
  }

  /** Every batch of `n` items reserves at least the calls it attempts, under every meter with a call ceiling. */
  ghost predicate ReservesWhatItAttempts(n: nat) {
    forall m, items, now0: nat, now1: nat | WithinCeilings(m) && m.maxCalls.Some? && |items| == n ::
      m.calls + Attempted(Batch(m, items, now0, now1).1.entries) <= Batch(m, items, now0, now1).0.calls
  }

  /**
   The batch size is cast to the counter's 32 bits, so attempts are covered exactly up to the counter's
   largest value. The bridge refuses batches long before that.
   */
  lemma AttemptsAreReservedIffCountable(n: nat)
    ensures ReservesWhatItAttempts(n) <==> n <= 0xFFFF_FFFF
  {
    if n <= U32_MAX {
      forall m, items, now0: nat, now1: nat | WithinCeilings(m) && m.maxCalls.Some? && |items| == n
        ensures m.calls + Attempted(Batch(m, items, now0, now1).1.entries) <= Batch(m, items, now0, now1).0.calls
      {
        AttemptsAreReserved(m, items, now0, now1);
      }
    } else {
      var m := Meter(Some(U32_MAX), None, None, None, 0, 0, 0);
      var items := seq(n, _ => Item("", _ => CallResult.Err(Timeout)));
      AttemptedAtMost(Batch(m, items, 0, 0).1.entries);
      assert Batch(m, items, 0, 0).0.calls == n % (U32_MAX + 1) < n;
    }
  }

  /** The bytes and pages the caller sees are covered by what the counters moved. */
  lemma KeptIsPaidFor(m: Meter, items: seq<Item>, now0: nat, now1: nat)
    requires WithinCeilings(m)
    ensures var (n, r) := Batch(m, items, now0, now1);
      && (m.maxBytes.Some? && m.maxBytes.value < U64_MAX ==> m.bytes + Kept(r.entries, Bytes) <= n.bytes)
      && (m.maxPages.Some? && m.maxPages.value < U32_MAX ==> m.pages + Kept(r.entries, Pages) <= n.pages)
  {
    var (n, r) := Batch(m, items, now0, now1);
    var (trip, m1) := Reserve(m, |items| % (U32_MAX + 1), now0);
    if items == [] || trip.Some? || Late(m1, now1) {
      NothingKeptWhenNoneAttempted(r.entries, Bytes);
      NothingKeptWhenNoneAttempted(r.entries, Pages);
    } else {
      var results := ResultsOf(items, BudgetFor(m1, now1));
      KeptIsCharged(m1, items, results);
      if m.maxBytes.Some? && m.maxBytes.value < U64_MAX {
        ChargeIsExact(Weights(results, Bytes), m.maxBytes, m.bytes, U64_MAX);
      }
      if m.maxPages.Some? && m.maxPages.value < U32_MAX {
        ChargeIsExact(Weights(results, Pages), m.maxPages, m.pages, U32_MAX);
      }
    }
  }
}
