/**
 The budget meter of one run: call, byte and page counters under optional ceilings, and a
 deadline.

 Calls are reserved before a batch runs. Bytes and pages are charged after it, in index order,
 up to the first item whose running total passes what is left.
 */
module Meters {
  import opened Wrappers
  import opened MachineInts
  import R = Reservation

  datatype BudgetAxis = Calls | Bytes | WallClock | Pages

  /** A meter's ceilings and usage as a value. */
  datatype Meter = Meter(
    maxCalls: Option<u32>, maxBytes: Option<u64>, maxPages: Option<u32>, deadline: Option<nat>,
    calls: u32, bytes: u64, pages: u32)

  predicate Under(used: nat, limit: Option<nat>) {
    limit.Some? ==> used <= limit.value
  }

  /** No counter is past its ceiling. */
  predicate WithinCeilings(m: Meter) {
    Under(m.calls, m.maxCalls) && Under(m.bytes, m.maxBytes) && Under(m.pages, m.maxPages)
  }

  // ----- Reservation of calls -----

  predicate Late(m: Meter, now: nat) {
    m.deadline.Some? && now >= m.deadline.value
  }

  function Reserve(m: Meter, n: u32, now: nat): (Option<BudgetAxis>, Meter) {
    if Late(m, now) then (Some(WallClock), m)
    else if m.maxCalls.None? then (None, m.(calls := WrapAdd(m.calls, n, U32_MAX)))
    else if m.calls + n > m.maxCalls.value then (Some(Calls), m)
    else (None, m.(calls := m.calls + n))
  }

  /** Admitted calls are all counted, for every use and every batch, precisely when there is a ceiling. */
  lemma ReservationIsExactIffCeilinged(max: Option<u32>)
    ensures (forall m: Meter, n: u32, now: nat
               | m.maxCalls == max && Under(m.calls, max) && Reserve(m, n, now).0.None? ::
               Reserve(m, n, now).1.calls == m.calls + n)
            <==> max.Some?
  {
    if max.None? {
      var m := Meter(None, None, None, None, U32_MAX, 0, 0);
      assert Reserve(m, 1, 0).1.calls == 0;
    }
  }

  /** The steps of a caller whom nobody disturbs, until it has its answer. */
  function AloneResult(max: u32, used: u32, n: u32, late: bool): (s: R.State)
    ensures |s.callers| == 1 && R.Finished(s.callers[0])
  {
    var s1 := R.Step(max, R.State(used, [R.Entering(n)], []), 0, late);
    if late then s1 else
    var s3 := R.Step(max, R.Step(max, s1, 0, false), 0, false);
    if s3.callers[0].Refused? then s3 else R.Step(max, s3, 0, false)
  }

  /** The atomic operation is what a caller running alone computes with its loads and exchanges. */
  lemma ReserveIsTheAloneRun(m: Meter, n: u32, now: nat)
    requires m.maxCalls.Some? && Under(m.calls, m.maxCalls)
    ensures var s := AloneResult(m.maxCalls.value, m.calls, n, Late(m, now));
      Reserve(m, n, now) ==
      (if s.callers[0].Expired? then Some(WallClock) else if s.callers[0].Refused? then Some(Calls) else None,
       m.(calls := s.used))
  {
  }

  // ----- In-order commits -----

  function SumTo(amounts: seq<nat>, k: nat): nat
    requires k <= |amounts|
  {
    if k == 0 then 0 else SumTo(amounts, k - 1) + amounts[k - 1]
  }

  /** What a ceiling leaves, or None when no amount can pass it: a ceiling of `top` never trips. */
  function Room(limit: Option<nat>, used: nat, top: nat): Option<nat>
    requires Under(used, limit)
  {
    if limit.None? || limit.value >= top then None else Some(limit.value - used)
  }

  predicate Overruns(amounts: seq<nat>, room: Option<nat>, i: nat)
    requires i < |amounts|
  {
    room.Some? && SumTo(amounts, i + 1) > room.value
  }

  /** `c` is the first position whose inclusive prefix sum overruns, or the length if none does. */
  ghost predicate IsCut(amounts: seq<nat>, room: Option<nat>, c: nat) {
    && c <= |amounts|
    && (forall i | 0 <= i < c :: !Overruns(amounts, room, i))
    && (c < |amounts| ==> Overruns(amounts, room, c))
  }

  function CutFrom(amounts: seq<nat>, room: Option<nat>, k: nat): (c: nat)
    requires k <= |amounts|
    ensures k <= c <= |amounts|
    ensures forall i | k <= i < c :: !Overruns(amounts, room, i)
    ensures c < |amounts| ==> Overruns(amounts, room, c)
    decreases |amounts| - k
  {
    if k == |amounts| || Overruns(amounts, room, k) then k else CutFrom(amounts, room, k + 1)
  }

  function Cut(amounts: seq<nat>, room: Option<nat>): (c: nat)
    ensures IsCut(amounts, room, c)
  {
    CutFrom(amounts, room, 0)
  }

  lemma CutIsUnique(amounts: seq<nat>, room: Option<nat>, c: nat)
    requires IsCut(amounts, room, c)
    ensures c == Cut(amounts, room)
  {
    var d := Cut(amounts, room);
    assert IsCut(amounts, room, d);
  }

  lemma {:induction false} SumsGrow(amounts: seq<nat>, i: nat, j: nat)
    requires i <= j <= |amounts|
    ensures SumTo(amounts, i) <= SumTo(amounts, j)
  {
    if i < j {
      SumsGrow(amounts, i, j - 1);
    }
  }

  /** The new value of a counter charged with everything before the cut. */
  function Charge(amounts: seq<nat>, limit: Option<nat>, used: nat, top: nat): nat
    requires Under(used, limit)
  {
    WrapAdd(used, SumTo(amounts, Cut(amounts, Room(limit, used, top))), top)
  }

  /** A ceiling below the counter's largest value is exact: nothing wraps and nothing passes it. */
  lemma ChargeIsExact(amounts: seq<nat>, limit: Option<nat>, used: nat, top: nat)
    requires limit.Some? && used <= limit.value < top
    ensures Charge(amounts, limit, used, top) == used + SumTo(amounts, Cut(amounts, Room(limit, used, top)))
    ensures Charge(amounts, limit, used, top) <= limit.value
  {
    var c := Cut(amounts, Room(limit, used, top));
    if c > 0 {
      assert !Overruns(amounts, Room(limit, used, top), c - 1);
    }
  }

  /**
   Without a ceiling, or with the largest one, a charge can wrap the counter: charging is exact for
   every use and every amounts precisely when there is a ceiling below the counter's largest value.
   */
  lemma ChargeIsExactIffCeilinged(limit: Option<nat>, top: nat)
    requires top >= 1 && Under(0, limit) && (limit.Some? ==> limit.value <= top)
    ensures (forall amounts: seq<nat>, used: nat | used <= top && Under(used, limit) ::
               Charge(amounts, limit, used, top) == used + SumTo(amounts, Cut(amounts, Room(limit, used, top))))
            <==> limit.Some? && limit.value < top
  {
    if limit.Some? && limit.value < top {
      forall amounts: seq<nat>, used: nat | used <= top && Under(used, limit)
        ensures Charge(amounts, limit, used, top) == used + SumTo(amounts, Cut(amounts, Room(limit, used, top)))
      {
        ChargeIsExact(amounts, limit, used, top);
      }
    } else {
      var one := [1];
      CutIsUnique(one, Room(limit, top, top), 1);
      assert SumTo(one, 1) == SumTo(one, 0) + 1 == 1;
      assert Charge(one, limit, top, top) == 0;
    }
  }

  /** Whatever the ceiling, charging never carries a counter past it. */
  lemma ChargeStaysUnder(amounts: seq<nat>, limit: Option<nat>, used: nat, top: nat)
    requires Under(used, limit) && used <= top
    ensures Under(Charge(amounts, limit, used, top), limit)
  {
    if limit.Some? && limit.value < top {
      ChargeIsExact(amounts, limit, used, top);
    }
  }

  /** A batch of charges: input indices in increasing order, each with its amount. */
  function Amounts(ordered: seq<(nat, nat)>): (a: seq<nat>)
    ensures |a| == |ordered|
  {
    seq(|ordered|, i requires 0 <= i < |ordered| => ordered[i].1)
  }

  /** The index of the first charge that trips. */
  function TripAt(ordered: seq<(nat, nat)>, limit: Option<nat>, used: nat, top: nat): Option<nat>
    requires Under(used, limit)
  {
    var c := Cut(Amounts(ordered), Room(limit, used, top));
    if c < |ordered| then Some(ordered[c].0) else None
  }

  method WrappingSum(ordered: seq<(nat, nat)>, top: nat) returns (sum: nat)
    ensures sum == SumTo(Amounts(ordered), |ordered|) % (top + 1)
  {
    sum := 0;
    for i := 0 to |ordered|
      invariant sum == SumTo(Amounts(ordered), i) % (top + 1)
    {
      WrapsAlike(SumTo(Amounts(ordered), i), Amounts(ordered)[i], top);
      sum := WrapAdd(sum, ordered[i].1, top);
    }
  }

  /** The commit loop shared by bytes and pages; the machine's adds saturate or wrap at `top`. */
  method CommitInOrder(ordered: seq<(nat, nat)>, limit: Option<nat>, counter: nat, top: nat)
    returns (total: nat, tripAt: Option<nat>)
    requires Under(counter, limit) && counter <= top
    requires limit.Some? ==> limit.value <= top
    ensures total == Charge(Amounts(ordered), limit, counter, top)
    ensures tripAt == TripAt(ordered, limit, counter, top)
  {
    var amounts := Amounts(ordered);
    ghost var room := Room(limit, counter, top);
    if limit.None? {
      var sum := WrappingSum(ordered, top);
      CutIsUnique(amounts, room, |amounts|);
      WrapsAlike(SumTo(amounts, |amounts|), counter, top);
      return WrapAdd(counter, sum, top), None;
    }
    var used, committed, i := counter, 0, 0;
    tripAt := None;
    while i < |ordered| && tripAt.None?
      invariant 0 <= i <= |ordered|
      invariant committed == SumTo(amounts, i) % (top + 1)
      invariant used == SaturatingAdd(counter, SumTo(amounts, i), top)
      invariant forall j | 0 <= j < i :: !Overruns(amounts, room, j)
      invariant tripAt.Some? ==> i < |ordered| && tripAt == Some(ordered[i].0) && Overruns(amounts, room, i)
      decreases |ordered| - i, tripAt.None?
    {
      var candidate := SaturatingAdd(used, ordered[i].1, top);
      if candidate > limit.value {
        tripAt := Some(ordered[i].0);
      } else {
        used := candidate;
        WrapsAlike(SumTo(amounts, i), amounts[i], top);
        committed := WrapAdd(committed, ordered[i].1, top);
        i := i + 1;
      }
    }
    CutIsUnique(amounts, room, i);
    WrapsAlike(SumTo(amounts, i), counter, top);
    total := if committed > 0 then WrapAdd(counter, committed, top) else counter;
  }

  lemma {:induction false} MultiplesAreSpaced(k: int, m: nat)
    ensures k >= 1 ==> k * m >= m
    decreases k
  {
    if k > 1 {
      MultiplesAreSpaced(k - 1, m);
      assert k * m == (k - 1) * m + m;
    }
  }

  lemma RemainderIsUnique(a: nat, q: nat, r: nat, m: nat)
    requires r < m && a == q * m + r
    ensures a % m == r
  {
    assert (a / m) * m + a % m == a;
    var k: int := a / m - q;
    assert k * m == (a / m) * m - q * m;
    MultiplesAreSpaced(k, m);
    MultiplesAreSpaced(-k, m);
    assert -k * m == -(k * m);
  }

  /** Wrapping early or late makes no difference. */
  lemma WrapsAlike(a: nat, b: nat, top: nat)
    ensures WrapAdd(a % (top + 1), b, top) == WrapAdd(a, b, top) == WrapAdd(b, a % (top + 1), top)
  {
    var m := top + 1;
    var q, s := a / m, a % m + b;
    assert q * m + a % m == a;
    assert (q + s / m) * m == q * m + (s / m) * m;
    RemainderIsUnique(a + b, q + s / m, s % m, m);
  }

  // ----- Caps shared by the calls of one batch -----

  /** The most any one call of the next batch may receive: never more than is left. */
  function ByteCap(m: Meter, perCall: u64): (cap: u64)
    requires WithinCeilings(m)
    ensures cap <= perCall
    ensures m.maxBytes.Some? ==> m.bytes + cap <= m.maxBytes.value
    ensures cap < perCall ==> m.maxBytes == Some(m.bytes + cap)
  {
    if m.maxBytes.None? then perCall
    else
      var left := SaturatingSub(m.maxBytes.value, m.bytes);
      if left < perCall then left else perCall
  }

  function PageCap(m: Meter): (cap: u32)
    requires WithinCeilings(m)
    ensures m.maxPages.Some? ==> m.pages + cap == m.maxPages.value
    ensures m.maxPages.None? ==> cap == U32_MAX
  {
    if m.maxPages.None? then U32_MAX else SaturatingSub(m.maxPages.value, m.pages)
  }

  // ----- The meter itself -----

  class BudgetMeter {
    const maxCalls: Option<u32>
    const maxBytes: Option<u64>
    const maxPages: Option<u32>
    const deadline: Option<nat>
    var callsUsed: u32
    var bytesUsed: u64
    var pagesUsed: u32

    function Reading(): Meter
      reads this
    {
      Meter(maxCalls, maxBytes, maxPages, deadline, callsUsed, bytesUsed, pagesUsed)
    }

    ghost predicate Valid()
      reads this
    {
      WithinCeilings(Reading())
    }

    constructor (maxCalls: Option<u32>, maxBytes: Option<u64>, maxPages: Option<u32>, deadline: Option<nat>)
      ensures Valid() && Reading() == Meter(maxCalls, maxBytes, maxPages, deadline, 0, 0, 0)
    {
      this.maxCalls, this.maxBytes, this.maxPages, this.deadline := maxCalls, maxBytes, maxPages, deadline;
      callsUsed, bytesUsed, pagesUsed := 0, 0, 0;
    }

    method ReserveCalls(n: u32, now: nat) returns (trip: Option<BudgetAxis>)
      requires Valid()
      modifies this`callsUsed
      ensures Valid() && (trip, Reading()) == Reserve(old(Reading()), n, now)
    {
      if deadline.Some? && now >= deadline.value {
        return Some(WallClock);
      }
      if maxCalls.None? {
        callsUsed := WrapAdd(callsUsed, n, U32_MAX);
        return None;
      }
      var next: nat := callsUsed + n;
      if next > U32_MAX || next > maxCalls.value {
        return Some(Calls);
      }
      callsUsed := next;
      trip := None;
    }

    /** None when the run has no deadline, an error once the deadline has passed. */
    function RemainingTime(now: nat): (r: Result<Option<nat>, BudgetAxis>)
      reads this
      ensures r.Err? <==> Late(Reading(), now)
      ensures r.Ok? && r.value.Some? ==> deadline == Some(now + r.value.value) && r.value.value > 0
      ensures r.Err? ==> r.error == WallClock
    {
      if deadline.None? then Ok(None)
      else if now >= deadline.value then Err(WallClock)
      else Ok(Some(deadline.value - now))
    }

    function BatchByteCap(perCall: u64): u64
      requires Valid()
      reads this
    {
      ByteCap(Reading(), perCall)
    }

    function BatchPageCap(): u32
      requires Valid()
      reads this
    {
      PageCap(Reading())
    }

    method CommitBytesInOrder(ordered: seq<(nat, nat)>) returns (tripAt: Option<nat>)
      requires Valid()
      modifies this`bytesUsed
      ensures Valid()
      ensures bytesUsed == Charge(Amounts(ordered), maxBytes, old(bytesUsed), U64_MAX)
      ensures tripAt == TripAt(ordered, maxBytes, old(bytesUsed), U64_MAX)
    {
      ChargeStaysUnder(Amounts(ordered), maxBytes, bytesUsed, U64_MAX);
      var total;
      total, tripAt := CommitInOrder(ordered, maxBytes, bytesUsed, U64_MAX);
      bytesUsed := total;
    }

    method CommitPagesInOrder(ordered: seq<(nat, nat)>) returns (tripAt: Option<nat>)
      requires Valid()
      modifies this`pagesUsed
      ensures Valid()
      ensures pagesUsed == Charge(Amounts(ordered), maxPages, old(pagesUsed), U32_MAX)
      ensures tripAt == TripAt(ordered, maxPages, old(pagesUsed), U32_MAX)
    {
      ChargeStaysUnder(Amounts(ordered), maxPages, pagesUsed, U32_MAX);
      var total;
      total, tripAt := CommitInOrder(ordered, maxPages, pagesUsed, U32_MAX);
      pagesUsed := total;
    }
  }
}
