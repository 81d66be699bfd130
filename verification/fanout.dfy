/**
 Concurrent fan-out of one batch under per-service semaphores.

 Each item waits for a permit of its service, runs, and on completion writes its value into the
 slot of its own index. The order in which items get permits and complete is arbitrary.
 */
module FanOuts {
  import opened Wrappers

  /** Permits per service. A service without an entry is not limited. */
  type Limits = m: map<string, nat> | forall svc | svc in m :: m[svc] >= 1

  function Ceiling(serviceMax: nat, budgetMax: Option<nat>): (c: nat)
    ensures 1 <= c
    ensures c <= 1 || (c <= serviceMax && (budgetMax.Some? ==> c <= budgetMax.value))
    ensures c >= serviceMax || (budgetMax.Some? && c >= budgetMax.value)
  {
    var ceiling := if budgetMax.Some? && budgetMax.value < serviceMax then budgetMax.value else serviceMax;
    if ceiling < 1 then 1 else ceiling
  }

  function LimitsOf(calls: seq<(string, nat)>, budgetMax: Option<nat>): Limits {
    if calls == [] then map[] else
    var (svc, max) := calls[|calls| - 1];
    var m := LimitsOf(calls[..|calls| - 1], budgetMax);
    if svc in m then m else m[svc := Ceiling(max, budgetMax)]
  }

  /** One semaphore per service of the planned calls, sized from the first call met on it. */
  method BuildLimits(calls: seq<(string, nat)>, budgetMax: Option<nat>) returns (limits: Limits)
    ensures limits == LimitsOf(calls, budgetMax)
  {
    limits := map[];
    for k := 0 to |calls|
      invariant limits == LimitsOf(calls[..k], budgetMax)
    {
      assert calls[..k + 1][..k] == calls[..k];
      if calls[k].0 !in limits {
        limits := limits[calls[k].0 := Ceiling(calls[k].1, budgetMax)];
      }
    }
    assert calls[..|calls|] == calls;
  }

  lemma {:induction false} OnlyPlannedServicesAreLimited(calls: seq<(string, nat)>, budgetMax: Option<nat>, svc: string)
    ensures svc in LimitsOf(calls, budgetMax) <==> exists i :: 0 <= i < |calls| && calls[i].0 == svc
  {
    if calls != [] {
      var init := calls[..|calls| - 1];
      OnlyPlannedServicesAreLimited(init, budgetMax, svc);
      if svc in LimitsOf(init, budgetMax) {
        var i :| 0 <= i < |init| && init[i].0 == svc;
        assert calls[i].0 == svc;
      }
    }
  }

  /** A service's limit is the ceiling of its first planned call. */
  lemma {:induction false} FirstCallDecides(calls: seq<(string, nat)>, budgetMax: Option<nat>, i: nat)
    requires i < |calls| && forall j | 0 <= j < i :: calls[j].0 != calls[i].0
    ensures calls[i].0 in LimitsOf(calls, budgetMax)
    ensures LimitsOf(calls, budgetMax)[calls[i].0] == Ceiling(calls[i].1, budgetMax)
  {
    var init := calls[..|calls| - 1];
    if i < |init| {
      FirstCallDecides(init, budgetMax, i);
    } else {
      OnlyPlannedServicesAreLimited(init, budgetMax, calls[i].0);
    }
  }

  datatype Phase = Waiting | Running | Finished

  /** A batch: the service of each item, and the value each item's call will produce. */
  datatype Batch<T> = Batch(services: seq<string>, values: seq<T>)

  datatype State<T> = State(phases: seq<Phase>, free: map<string, nat>, slots: seq<Option<T>>)

  ghost predicate WellFormed<T>(b: Batch<T>) {
    |b.services| == |b.values|
  }

  function Start<T>(limits: Limits, b: Batch<T>): State<T> {
    State(seq(|b.services|, _ => Waiting), limits, seq(|b.services|, _ => None))
  }

  ghost predicate Shaped<T>(limits: Limits, b: Batch<T>, s: State<T>) {
    && WellFormed(b) && |s.phases| == |s.slots| == |b.services|
    && s.free.Keys == limits.Keys
  }

  /** Item `i` can take its next step: get a permit, or complete. */
  predicate Enabled<T>(b: Batch<T>, s: State<T>, i: nat)
    requires |s.phases| == |b.services|
  {
    && i < |s.phases|
    && match s.phases[i]
       case Waiting => b.services[i] in s.free ==> s.free[b.services[i]] > 0
       case Running => true
       case Finished => false
  }

  function Advance<T>(b: Batch<T>, s: State<T>, i: nat): State<T>
    requires |b.services| == |b.values| == |s.phases| == |s.slots| && Enabled(b, s, i)
  {
    var svc := b.services[i];
    if s.phases[i] == Waiting then
      State(s.phases[i := Running],
            if svc in s.free then s.free[svc := s.free[svc] - 1] else s.free,
            s.slots)
    else
      State(s.phases[i := Finished],
            if svc in s.free then s.free[svc := s.free[svc] + 1] else s.free,
            s.slots[i := Some(b.values[i])])
  }

  // ----- What every step keeps -----

  ghost function RunningOn<T>(b: Batch<T>, phases: seq<Phase>, svc: string): set<nat>
    requires |phases| == |b.services|
  {
    set i: nat | i < |phases| && phases[i] == Running && b.services[i] == svc
  }

  /** A slot holds its own item's value once the item has finished, and nothing before. */
  ghost predicate SlotsFollow<T>(b: Batch<T>, s: State<T>)
    requires WellFormed(b) && |s.phases| == |s.slots| == |b.services|
  {
    forall i | 0 <= i < |s.slots| :: s.slots[i] == if s.phases[i] == Finished then Some(b.values[i]) else None
  }

  /** Permits are neither created nor lost. */
  ghost predicate PermitsConserved<T>(limits: Limits, b: Batch<T>, s: State<T>)
    requires Shaped(limits, b, s)
  {
    forall svc | svc in limits :: s.free[svc] + |RunningOn(b, s.phases, svc)| == limits[svc]
  }

  ghost predicate Inv<T>(limits: Limits, b: Batch<T>, s: State<T>) {
    Shaped(limits, b, s) && SlotsFollow(b, s) && PermitsConserved(limits, b, s)
  }

  lemma RunningElsewhere<T>(b: Batch<T>, phases: seq<Phase>, i: nat, p: Phase, svc: string)
    requires |phases| == |b.services| && i < |phases| && svc != b.services[i]
    ensures RunningOn(b, phases[i := p], svc) == RunningOn(b, phases, svc)
  {
  }

  lemma RunningAfterStart<T>(b: Batch<T>, phases: seq<Phase>, i: nat)
    requires |phases| == |b.services| && i < |phases| && phases[i] == Waiting
    ensures |RunningOn(b, phases[i := Running], b.services[i])| == |RunningOn(b, phases, b.services[i])| + 1
  {
    var before := RunningOn(b, phases, b.services[i]);
    assert RunningOn(b, phases[i := Running], b.services[i]) == before + {i};
  }

  lemma RunningAfterFinish<T>(b: Batch<T>, phases: seq<Phase>, i: nat)
    requires |phases| == |b.services| && i < |phases| && phases[i] == Running
    ensures |RunningOn(b, phases[i := Finished], b.services[i])| == |RunningOn(b, phases, b.services[i])| - 1
  {
    var before := RunningOn(b, phases, b.services[i]);
    assert i in before && RunningOn(b, phases[i := Finished], b.services[i]) == before - {i};
  }

  lemma AdvanceConservesPermits<T>(limits: Limits, b: Batch<T>, s: State<T>, i: nat)
    requires Shaped(limits, b, s) && PermitsConserved(limits, b, s) && Enabled(b, s, i)
    ensures Shaped(limits, b, Advance(b, s, i)) && PermitsConserved(limits, b, Advance(b, s, i))
  {
    var t := Advance(b, s, i);
    forall svc | svc in limits ensures t.free[svc] + |RunningOn(b, t.phases, svc)| == limits[svc] {
      if svc != b.services[i] {
        RunningElsewhere(b, s.phases, i, t.phases[i], svc);
      } else if s.phases[i] == Waiting {
        RunningAfterStart(b, s.phases, i);
      } else {
        RunningAfterFinish(b, s.phases, i);
      }
    }
  }

  lemma AdvanceKeepsInv<T>(limits: Limits, b: Batch<T>, s: State<T>, i: nat)
    requires Inv(limits, b, s) && Enabled(b, s, i)
    ensures Inv(limits, b, Advance(b, s, i))
  {
    AdvanceConservesPermits(limits, b, s, i);
  }

  // ----- Progress and termination -----

  predicate Done(phases: seq<Phase>) {
    forall i | 0 <= i < |phases| :: phases[i] == Finished
  }

  /** While an item is unfinished, some item can take a step: no batch ever gets stuck. */
  lemma SomeItemCanAdvance<T>(limits: Limits, b: Batch<T>, s: State<T>) returns (i: nat)
    requires Inv(limits, b, s) && !Done(s.phases)
    ensures i < |s.phases| && Enabled(b, s, i)
  {
    var j: nat :| j < |s.phases| && s.phases[j] != Finished;
    var svc := b.services[j];
    if Enabled(b, s, j) {
      i := j;
    } else {
      var running := RunningOn(b, s.phases, svc);
      assert |running| == limits[svc] >= 1;
      i :| i in running;
    }
  }

  function Left(phases: seq<Phase>): nat {
    if phases == [] then 0 else
    Left(phases[..|phases| - 1]) + match phases[|phases| - 1] case Waiting => 2 case Running => 1 case Finished => 0
  }

  lemma {:induction false} LeftAfterUpdate(phases: seq<Phase>, i: nat, p: Phase)
    requires i < |phases|
    requires (phases[i] == Waiting && p == Running) || (phases[i] == Running && p == Finished)
    ensures Left(phases[i := p]) == Left(phases) - 1
  {
    var last := |phases| - 1;
    if i == last {
      assert phases[i := p][..last] == phases[..last];
    } else {
      assert phases[i := p][..last] == phases[..last][i := p];
      LeftAfterUpdate(phases[..last], i, p);
    }
  }

  lemma {:induction false} LeftAtTheEnds(phases: seq<Phase>)
    ensures Left(phases) == 0 <==> Done(phases)
    ensures (forall i | 0 <= i < |phases| :: phases[i] == Waiting) ==> Left(phases) == 2 * |phases|
  {
    if phases != [] {
      LeftAtTheEnds(phases[..|phases| - 1]);
      assert forall i | 0 <= i < |phases| - 1 :: phases[i] == phases[..|phases| - 1][i];
    }
  }

  // ----- Schedules -----

  /** A schedule names, step by step, the item that advances. */
  ghost predicate IsSchedule<T>(limits: Limits, b: Batch<T>, s: State<T>, order: seq<nat>)
    decreases |order|
  {
    && Shaped(limits, b, s)
    && (order != [] ==> Enabled(b, s, order[0]) && IsSchedule(limits, b, Advance(b, s, order[0]), order[1..]))
  }

  ghost function After<T>(limits: Limits, b: Batch<T>, s: State<T>, order: seq<nat>): State<T>
    requires IsSchedule(limits, b, s, order)
    decreases |order|
  {
    if order == [] then s else After(limits, b, Advance(b, s, order[0]), order[1..])
  }

  lemma {:induction false} ScheduleKeepsInv<T>(limits: Limits, b: Batch<T>, s: State<T>, order: seq<nat>)
    requires IsSchedule(limits, b, s, order) && Inv(limits, b, s)
    ensures Inv(limits, b, After(limits, b, s, order))
    ensures |order| + Left(After(limits, b, s, order).phases) == Left(s.phases)
    decreases |order|
  {
    if order != [] {
      AdvanceKeepsInv(limits, b, s, order[0]);
      LeftAfterUpdate(s.phases, order[0], Advance(b, s, order[0]).phases[order[0]]);
      ScheduleKeepsInv(limits, b, Advance(b, s, order[0]), order[1..]);
    }
  }

  /** In every reachable state, the items running on a service fit its limit. */
  lemma RunningStaysWithinLimit<T>(limits: Limits, b: Batch<T>, order: seq<nat>, svc: string)
    requires WellFormed(b) && IsSchedule(limits, b, Start(limits, b), order) && svc in limits
    ensures var s := After(limits, b, Start(limits, b), order);
      |s.phases| == |b.services| && |RunningOn(b, s.phases, svc)| <= limits[svc]
  {
    ScheduleKeepsInv(limits, b, Start(limits, b), order);
  }

  /**
   Every schedule is finite, and whatever the schedule, when nothing is left to do each slot holds
   its own item's value: completion order cannot be observed.
   */
  lemma EveryScheduleFinishesAlike<T>(limits: Limits, b: Batch<T>, order: seq<nat>)
    requires WellFormed(b) && IsSchedule(limits, b, Start(limits, b), order)
    ensures |order| <= 2 * |b.services|
    ensures var s := After(limits, b, Start(limits, b), order);
      && |s.phases| == |s.slots| == |b.values|
      && ((forall i: nat :: !Enabled(b, s, i)) <==> |order| == 2 * |b.services|)
      && (|order| == 2 * |b.services| ==> forall i | 0 <= i < |b.values| :: s.slots[i] == Some(b.values[i]))
  {
    var s0 := Start(limits, b);
    ScheduleKeepsInv(limits, b, s0, order);
    LeftAtTheEnds(s0.phases);
    var s := After(limits, b, s0, order);
    LeftAtTheEnds(s.phases);
    if !Done(s.phases) {
      var i := SomeItemCanAdvance(limits, b, s);
    }
  }

  function Count(order: seq<nat>, i: nat): nat {
    if order == [] then 0 else (if order[0] == i then 1 else 0) + Count(order[1..], i)
  }

  function StepsTaken(p: Phase): nat {
    match p case Waiting => 0 case Running => 1 case Finished => 2
  }

  /** An item steps twice, once to start and once to fill its slot, so no slot is filled twice. */
  lemma {:induction false} EachSlotFilledOnce<T>(limits: Limits, b: Batch<T>, s: State<T>, order: seq<nat>, i: nat)
    requires IsSchedule(limits, b, s, order) && i < |s.phases|
    ensures |After(limits, b, s, order).phases| == |s.phases|
    ensures StepsTaken(s.phases[i]) + Count(order, i) == StepsTaken(After(limits, b, s, order).phases[i]) <= 2
    decreases |order|
  {
    if order != [] {
      EachSlotFilledOnce(limits, b, Advance(b, s, order[0]), order[1..], i);
    }
  }

  /** The driver: whichever item is picked at each step, the values come back in input order. */
  method FanOut<T>(limits: Limits, b: Batch<T>) returns (out: seq<T>)
    requires |b.services| == |b.values|
    ensures out == b.values
  {
    var s := Start(limits, b);
    var slots := new Option<T>[|b.services|](_ => None);
    while !Done(s.phases)
      invariant Inv(limits, b, s) && slots[..] == s.slots
      decreases Left(s.phases)
    {
      ghost var enabled := SomeItemCanAdvance(limits, b, s);
      var index: nat :| index < |s.phases| && Enabled(b, s, index);
      AdvanceKeepsInv(limits, b, s, index);
      LeftAfterUpdate(s.phases, index, Advance(b, s, index).phases[index]);
      if s.phases[index] == Running {
        slots[index] := Some(b.values[index]);
      }
      s := Advance(b, s, index);
    }
    assert forall i | 0 <= i < |s.slots| :: s.slots[i] == Some(b.values[i]);
    out := Unwrap(slots[..]);
    assert out == b.values;
  }

  method Unwrap<T>(slots: seq<Option<T>>) returns (out: seq<T>)
    requires forall i | 0 <= i < |slots| :: slots[i].Some?
    ensures |out| == |slots| && forall i | 0 <= i < |slots| :: slots[i] == Some(out[i])
  {
    out := [];
    for i := 0 to |slots|
      invariant |out| == i && forall j | 0 <= j < i :: slots[j] == Some(out[j])
    {
      out := out + [slots[i].value];
    }
  }
}
