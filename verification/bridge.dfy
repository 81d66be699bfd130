/**
 The bridge between a script and its upstream calls: one batch at a time, every batch's entries
 appended to one audit list for the whole run.
 */
module Bridges {
  import opened Wrappers
  import opened MachineInts
  import opened Meters
  import opened Batches
  import F = FanOuts

  const MAX_BATCH := 500

  /** One `api`, `api_try` or `api_many`, with the clock at the two moments the batch looks at it. */
  datatype BindingCall = BindingCall(name: string, batch: seq<CallBudget -> CallResult>, now0: nat, now1: nat)

  datatype Refusal = BatchTooLarge | NotDeclared

  datatype BridgeReply = Entries(entries: seq<Entry>) | Refused(why: Refusal) | Terminated

  /** What a run has accumulated. */
  datatype RunState = RunState(meter: Meter, audit: seq<Entry>)

  function ItemsOf(call: BindingCall): (items: seq<Item>)
    ensures |items| == |call.batch|
  {
    seq(|call.batch|, i requires 0 <= i < |call.batch| => Item(call.name, call.batch[i]))
  }

  function Reindexed(es: seq<Entry>, base: nat): (r: seq<Entry>)
    ensures |r| == |es|
  {
    seq(|es|, i requires 0 <= i < |es| => es[i].(index := base + i))
  }

  function Serve(planned: map<string, string>, s: RunState, call: BindingCall): (RunState, BridgeReply)
    requires WithinCeilings(s.meter)
  {
    if |call.batch| > MAX_BATCH then (s, Refused(BatchTooLarge))
    else if call.name !in planned then (s, Refused(NotDeclared))
    else
      var (m, r) := Batch(s.meter, ItemsOf(call), call.now0, call.now1);
      (RunState(m, s.audit + Reindexed(r.entries, |s.audit|)),
       if r.status == AllFailedOnBudget(WallClock) then Terminated else Entries(r.entries))
  }

  lemma ServeKeepsCeilings(planned: map<string, string>, s: RunState, call: BindingCall)
    requires WithinCeilings(s.meter)
    ensures var m := Serve(planned, s, call).0.meter;
      && WithinCeilings(m)
      && (m.maxCalls, m.maxBytes, m.maxPages, m.deadline)
         == (s.meter.maxCalls, s.meter.maxBytes, s.meter.maxPages, s.meter.deadline)
  {
    BatchKeepsCeilings(s.meter, ItemsOf(call), call.now0, call.now1);
  }

  /** The state after serving the first `n` calls of a run. */
  function RunOf(planned: map<string, string>, s: RunState, calls: seq<BindingCall>, n: nat): (t: RunState)
    requires WithinCeilings(s.meter) && n <= |calls|
    ensures WithinCeilings(t.meter)
    ensures (t.meter.maxCalls, t.meter.maxBytes, t.meter.maxPages, t.meter.deadline)
         == (s.meter.maxCalls, s.meter.maxBytes, s.meter.maxPages, s.meter.deadline)
  {
    if n == 0 then s else
    var before := RunOf(planned, s, calls, n - 1);
    ServeKeepsCeilings(planned, before, calls[n - 1]);
    Serve(planned, before, calls[n - 1]).0
  }

  function RepliesOf(planned: map<string, string>, s: RunState, calls: seq<BindingCall>, n: nat): seq<BridgeReply>
    requires WithinCeilings(s.meter) && n <= |calls|
  {
    if n == 0 then [] else
    RepliesOf(planned, s, calls, n - 1) + [Serve(planned, RunOf(planned, s, calls, n - 1), calls[n - 1]).1]
  }

  class Bridge {
    const planned: map<string, string>   // the script's callable names, each with its service
    const endpoint: string
    const limits: F.Limits
    const meter: BudgetMeter
    var audit: seq<Entry>

    ghost predicate Valid()
      reads this, meter
    {
      meter.Valid()
    }

    ghost function Contents(): RunState
      reads this, meter
    {
      RunState(meter.Reading(), audit)
    }

    constructor (planned: map<string, string>, endpoint: string, limits: F.Limits, meter: BudgetMeter)
      requires meter.Valid()
      ensures Valid() && this.planned == planned && this.meter == meter && audit == []
    {
      this.planned, this.endpoint, this.limits, this.meter := planned, endpoint, limits, meter;
      audit := [];
    }

    method ServiceOne(call: BindingCall) returns (reply: BridgeReply)
      requires Valid()
      modifies this, meter
      ensures Valid() && (Contents(), reply) == Serve(planned, old(Contents()), call)
    {
      if |call.batch| > MAX_BATCH {
        return Refused(BatchTooLarge);
      }
      if call.name !in planned {
        return Refused(NotDeclared);
      }
      var items := seq(|call.batch|, i requires 0 <= i < |call.batch| => Item(call.name, call.batch[i]));
      var outcome := RunBatch(planned, endpoint, limits, meter, items, call.now0, call.now1);
      audit := audit + Reindexed(outcome.entries, |audit|);
      if outcome.status == AllFailedOnBudget(WallClock) {
        return Terminated;
      }
      reply := Entries(outcome.entries);
    }

    /** Serves a run's calls one after the other. */
    method Service(calls: seq<BindingCall>) returns (replies: seq<BridgeReply>)
      requires Valid()
      modifies this, meter
      ensures Valid() && Contents() == RunOf(planned, old(Contents()), calls, |calls|)
      ensures replies == RepliesOf(planned, old(Contents()), calls, |calls|)
    {
      ghost var start := Contents();
      replies := [];
      for n := 0 to |calls|
        invariant Valid() && Contents() == RunOf(planned, start, calls, n)
        invariant replies == RepliesOf(planned, start, calls, n)
      {
        var reply := ServiceOne(calls[n]);
        replies := replies + [reply];
      }
    }
  }

  // ----- One call -----

  /** More than 500 argument lists, or a name that is not declared, and nothing happens but the refusal. */
  lemma RefusedExactlyWhen(planned: map<string, string>, s: RunState, call: BindingCall)
    requires WithinCeilings(s.meter)
    ensures Serve(planned, s, call).1 == Refused(BatchTooLarge) <==> |call.batch| > 500
    ensures Serve(planned, s, call).1 == Refused(NotDeclared) <==> |call.batch| <= 500 && call.name !in planned
    ensures Serve(planned, s, call).1.Refused? ==> Serve(planned, s, call).0 == s
  {
  }

  /** A call that is not refused adds its batch to the audit, entry by entry, and only that; a reply shows the same. */
  lemma AuditGrowsByTheBatch(planned: map<string, string>, s: RunState, call: BindingCall)
    requires WithinCeilings(s.meter) && !Serve(planned, s, call).1.Refused?
    ensures var (t, reply) := Serve(planned, s, call);
      var es := Batch(s.meter, ItemsOf(call), call.now0, call.now1).1.entries;
      && |t.audit| == |s.audit| + |call.batch| && s.audit <= t.audit && (reply.Entries? ==> reply.entries == es)
      && |es| == |call.batch| && forall i | 0 <= i < |es| ::
           t.audit[|s.audit| + i] == Entry(|s.audit| + i, call.name, es[i].outcome)
  {
    EveryItemIsAnswered(s.meter, ItemsOf(call), call.now0, call.now1);
  }

  // ----- Over any run -----

  /** Every audited entry that was not refused by the reservation is paid for by a reserved call. */
  ghost predicate CallsPaid(s: RunState) {
    s.meter.maxCalls.Some? ==> Attempted(s.audit) <= s.meter.calls
  }

  ghost predicate BytesPaid(s: RunState) {
    s.meter.maxBytes.Some? && s.meter.maxBytes.value < U64_MAX ==> Kept(s.audit, Bytes) <= s.meter.bytes
  }

  ghost predicate PagesPaid(s: RunState) {
    s.meter.maxPages.Some? && s.meter.maxPages.value < U32_MAX ==> Kept(s.audit, Pages) <= s.meter.pages
  }

  lemma {:induction false} ReindexingKeepsAccounts(es: seq<Entry>, base: nat, axis: BudgetAxis)
    ensures Attempted(Reindexed(es, base)) == Attempted(es)
    ensures Kept(Reindexed(es, base), axis) == Kept(es, axis)
  {
    if es != [] {
      var init := es[..|es| - 1];
      assert Reindexed(es, base)[..|es| - 1] == Reindexed(init, base);
      ReindexingKeepsAccounts(init, base, axis);
    }
  }

  lemma ServeKeepsCallsPaid(planned: map<string, string>, s: RunState, call: BindingCall)
    requires WithinCeilings(s.meter) && CallsPaid(s)
    ensures CallsPaid(Serve(planned, s, call).0)
  {
    var r := Batch(s.meter, ItemsOf(call), call.now0, call.now1).1;
    AttemptedAppend(s.audit, Reindexed(r.entries, |s.audit|));
    ReindexingKeepsAccounts(r.entries, |s.audit|, Bytes);
    ServeKeepsCeilings(planned, s, call);
    if s.meter.maxCalls.Some? && |call.batch| <= MAX_BATCH {
      AttemptsAreReserved(s.meter, ItemsOf(call), call.now0, call.now1);
    }
  }

  lemma ServeKeepsWeightsPaid(planned: map<string, string>, s: RunState, call: BindingCall)
    requires WithinCeilings(s.meter)
    ensures BytesPaid(s) ==> BytesPaid(Serve(planned, s, call).0)
    ensures PagesPaid(s) ==> PagesPaid(Serve(planned, s, call).0)
  {
    var r := Batch(s.meter, ItemsOf(call), call.now0, call.now1).1;
    var more := Reindexed(r.entries, |s.audit|);
    KeptAppend(s.audit, more, Bytes);
    KeptAppend(s.audit, more, Pages);
    ReindexingKeepsAccounts(r.entries, |s.audit|, Bytes);
    ReindexingKeepsAccounts(r.entries, |s.audit|, Pages);
    ServeKeepsCeilings(planned, s, call);
    KeptIsPaidFor(s.meter, ItemsOf(call), call.now0, call.now1);
  }

  /** In every run, the attempted entries number at most the calls charged, which stay under the ceiling. */
  lemma {:induction false} AttemptsStayWithinBudget(planned: map<string, string>, s: RunState,
                                                    calls: seq<BindingCall>, n: nat)
    requires WithinCeilings(s.meter) && s.audit == [] && n <= |calls| && s.meter.maxCalls.Some?
    ensures var t := RunOf(planned, s, calls, n);
      Attempted(t.audit) <= t.meter.calls <= s.meter.maxCalls.value
  {
    if n > 0 {
      AttemptsStayWithinBudget(planned, s, calls, n - 1);
      ServeKeepsCallsPaid(planned, RunOf(planned, s, calls, n - 1), calls[n - 1]);
    }
  }

  /** In every run, the bytes of all kept results sum to at most the bytes charged, under the ceiling. */
  lemma {:induction false} KeptBytesStayWithinBudget(planned: map<string, string>, s: RunState,
                                                     calls: seq<BindingCall>, n: nat)
    requires WithinCeilings(s.meter) && s.audit == [] && n <= |calls|
    requires s.meter.maxBytes.Some? && s.meter.maxBytes.value < U64_MAX
    ensures var t := RunOf(planned, s, calls, n);
      Kept(t.audit, Bytes) <= t.meter.bytes <= s.meter.maxBytes.value
  {
    if n > 0 {
      KeptBytesStayWithinBudget(planned, s, calls, n - 1);
      ServeKeepsWeightsPaid(planned, RunOf(planned, s, calls, n - 1), calls[n - 1]);
    }
  }

  /** The same for pages, although the page cap of a batch never drops below one. */
  lemma {:induction false} KeptPagesStayWithinBudget(planned: map<string, string>, s: RunState,
                                                     calls: seq<BindingCall>, n: nat)
    requires WithinCeilings(s.meter) && s.audit == [] && n <= |calls|
    requires s.meter.maxPages.Some? && s.meter.maxPages.value < U32_MAX
    ensures var t := RunOf(planned, s, calls, n);
      Kept(t.audit, Pages) <= t.meter.pages <= s.meter.maxPages.value
  {
    if n > 0 {
      KeptPagesStayWithinBudget(planned, s, calls, n - 1);
      ServeKeepsWeightsPaid(planned, RunOf(planned, s, calls, n - 1), calls[n - 1]);
    }
  }

  /** The audit of any run is numbered from zero without gaps, and names only declared calls. */
  lemma {:induction false} AuditIsNumberedAndDeclared(planned: map<string, string>, s: RunState,
                                                      calls: seq<BindingCall>, n: nat)
    requires WithinCeilings(s.meter) && s.audit == [] && n <= |calls|
    ensures Numbered(RunOf(planned, s, calls, n).audit)
    ensures forall e | e in RunOf(planned, s, calls, n).audit :: e.name in planned
  {
    if n > 0 {
      AuditIsNumberedAndDeclared(planned, s, calls, n - 1);
      var before, call := RunOf(planned, s, calls, n - 1), calls[n - 1];
      EveryItemIsAnswered(before.meter, ItemsOf(call), call.now0, call.now1);
    }
  }

  /** Every call of the batch, sent with the budget it would get, times out on its own. */
  ghost predicate AllTimeOut(s: RunState, call: BindingCall)
    requires WithinCeilings(s.meter)
  {
    forall i | 0 <= i < |call.batch| :: call.batch[i](BudgetFor(s.meter, call.now1)) == CallResult.Err(Timeout)
  }

  /** Whether a batch fails on the wall clock in every item shows from its results. */
  lemma SettledOnTheWallClock(items: seq<Item>, results: seq<CallResult>, byteCut: nat, pageCut: nat)
    requires |items| == |results|
    ensures AllOnAxis(EntriesOf(items, results, byteCut, pageCut), WallClock) <==>
      forall i | 0 <= i < |results| :: results[i] == CallResult.Err(Timeout)
  {
    var es := EntriesOf(items, results, byteCut, pageCut);
    forall i | 0 <= i < |results|
      ensures AxisOf(es[i].outcome) == Some(WallClock) <==> results[i] == CallResult.Err(Timeout)
    {
    }
  }

  lemma AttemptedOnTheWallClock(s: RunState, call: BindingCall)
    requires WithinCeilings(s.meter) && 0 < |call.batch| <= MAX_BATCH
    requires !Late(s.meter, call.now0) && !Late(s.meter, call.now1)
    requires s.meter.maxCalls.Some? ==> s.meter.calls + |call.batch| <= s.meter.maxCalls.value
    ensures AllOnAxis(Batch(s.meter, ItemsOf(call), call.now0, call.now1).1.entries, WallClock) <==> AllTimeOut(s, call)
  {
    var m1 := Reserve(s.meter, |call.batch|, call.now0).1;
    var results := ResultsOf(ItemsOf(call), BudgetFor(m1, call.now1));
    assert |call.batch| % (U32_MAX + 1) == |call.batch| && BudgetFor(m1, call.now1) == BudgetFor(s.meter, call.now1);
    SettledOnTheWallClock(ItemsOf(call), results, ByteCut(m1, results), PageCut(m1, results));
    assert forall i | 0 <= i < |call.batch| :: results[i] == call.batch[i](BudgetFor(s.meter, call.now1));
  }

  /**
   A script is terminated exactly when its batch is not refused, not empty, and either meets the run's own
   deadline at one of the two moments the batch looks at the clock, or has every one of its calls time out
   by itself. A batch the call ceiling refuses never terminates the script by the second look.
   */
  lemma TerminatedExactlyWhenAllTimeOut(planned: map<string, string>, s: RunState, call: BindingCall)
    requires WithinCeilings(s.meter)
    ensures Serve(planned, s, call).1 == Terminated <==>
      && 0 < |call.batch| <= MAX_BATCH && call.name in planned
      && (Late(s.meter, call.now0) ||
          ((s.meter.maxCalls.Some? ==> s.meter.calls + |call.batch| <= s.meter.maxCalls.value) &&
           (Late(s.meter, call.now1) || AllTimeOut(s, call))))
  {
    var r := Batch(s.meter, ItemsOf(call), call.now0, call.now1).1;
    EveryItemIsAnswered(s.meter, ItemsOf(call), call.now0, call.now1);
    StatusFollowsEntries(s.meter, ItemsOf(call), call.now0, call.now1);
    StatusReading(r.entries, WallClock);
    if && 0 < |call.batch| <= MAX_BATCH && !Late(s.meter, call.now0) && !Late(s.meter, call.now1)
       && (s.meter.maxCalls.Some? ==> s.meter.calls + |call.batch| <= s.meter.maxCalls.value) {
      AttemptedOnTheWallClock(s, call);
    }
  }

  /** Once the deadline has passed, a declared batch ends the script and costs nothing. */
  lemma PastTheDeadlineNothingRuns(planned: map<string, string>, s: RunState, call: BindingCall)
    requires WithinCeilings(s.meter) && call.name in planned && 0 < |call.batch| <= MAX_BATCH
    requires Late(s.meter, call.now0)
    ensures Serve(planned, s, call).1 == Terminated
    ensures Serve(planned, s, call).0.meter == s.meter
    ensures Attempted(Serve(planned, s, call).0.audit) == Attempted(s.audit)
  {
    var r := Batch(s.meter, ItemsOf(call), call.now0, call.now1).1;
    AttemptedAtMost(r.entries);
    AttemptedAppend(s.audit, Reindexed(r.entries, |s.audit|));
    ReindexingKeepsAccounts(r.entries, |s.audit|, Bytes);
  }

  /** Replies have one entry per argument list, so an empty batch is answered with an empty list. */
  lemma RepliesAnswerEveryItem(planned: map<string, string>, s: RunState, call: BindingCall)
    requires WithinCeilings(s.meter)
    ensures var reply := Serve(planned, s, call).1;
      reply.Entries? ==> |reply.entries| == |call.batch| && Numbered(reply.entries) && CutOnce(reply.entries)
    ensures call.name in planned && call.batch == [] ==> Serve(planned, s, call).1 == Entries([])
  {
    BatchIsCutOnce(s.meter, ItemsOf(call), call.now0, call.now1);
  }
}
