/**
 Whole-batch call reservation under a ceiling, as concurrent callers run it: a load, then a
 compare-and-exchange retried until it lands or the ceiling refuses the batch.

 Every caller advances by its own steps, in any interleaving. `log` is the history of the
 moments at which the calls take effect; it is proved to be a legal sequential history of the
 atomic operation "if used + n <= max, then used := used + n".
 */
module Reservation {

  import opened MachineInts

  datatype Caller =
    | Entering(n: u32)                    // about to look at the deadline
    | Loading(n: u32)                     // about to read the counter
    | Checking(n: u32, current: u32)      // holds a value the counter had
    | Swapping(n: u32, current: u32)      // about to exchange current for current + n
    | Admitted(n: u32)
    | Refused(n: u32)                     // tripped on calls
    | Expired(n: u32)                     // tripped on the wall clock

  datatype Event = Event(caller: nat, n: u32, admitted: bool)

  datatype State = State(used: u32, callers: seq<Caller>, log: seq<Event>)

  predicate Finished(c: Caller) {
    c.Admitted? || c.Refused? || c.Expired?
  }

  predicate Init(s: State) {
    s.used == 0 && s.log == [] && forall i | 0 <= i < |s.callers| :: s.callers[i].Entering?
  }

  /** A caller holding a value that leaves no room is refused from the moment it read it. */
  function Observe(max: u32, s: State, i: nat, n: u32): State
    requires i < |s.callers|
  {
    s.(callers := s.callers[i := Checking(n, s.used)],
       log := if s.used + n > max then s.log + [Event(i, n, false)] else s.log)
  }

  /** One step of caller `i`; `late` says whether the deadline has passed when it looks. */
  function Step(max: u32, s: State, i: nat, late: bool): State
    requires i < |s.callers| && !Finished(s.callers[i])
  {
    match s.callers[i]
    case Entering(n) => s.(callers := s.callers[i := if late then Expired(n) else Loading(n)])
    case Loading(n) => Observe(max, s, i, n)
    case Checking(n, current) =>
      // checked_add: an overflowing sum is refused like one above the ceiling
      var refused := current + n > U32_MAX || current + n > max;
      s.(callers := s.callers[i := if refused then Refused(n) else Swapping(n, current)])
    case Swapping(n, current) =>
      if s.used == current && current + n <= U32_MAX then
        State(current + n, s.callers[i := Admitted(n)], s.log + [Event(i, n, true)])
      else Observe(max, s, i, n)
    case _ => s
  }

  // ----- The atomic operation -----

  function AdmittedSum(log: seq<Event>): nat {
    if log == [] then 0 else
    var last := log[|log| - 1];
    AdmittedSum(log[..|log| - 1]) + if last.admitted then last.n else 0
  }

  /** Every event answers what the atomic operation would have answered at its place. */
  ghost predicate Legal(max: u32, log: seq<Event>) {
    log != [] ==>
      var init, last := log[..|log| - 1], log[|log| - 1];
      Legal(max, init) && (last.admitted <==> AdmittedSum(init) + last.n <= max)
  }

  lemma {:induction false} LegalAt(max: u32, log: seq<Event>, k: nat)
    requires Legal(max, log) && k < |log|
    ensures log[k].admitted <==> AdmittedSum(log[..k]) + log[k].n <= max
    ensures AdmittedSum(log[..k]) <= AdmittedSum(log)
  {
    var init := log[..|log| - 1];
    if k < |init| {
      LegalAt(max, init, k);
      assert init[..k] == log[..k];
    }
  }

  /** The events of caller `i`, in order. */
  function EventsOf(log: seq<Event>, i: nat): seq<Event> {
    if log == [] then [] else
    var last := log[|log| - 1];
    EventsOf(log[..|log| - 1], i) + if last.caller == i then [last] else []
  }

  /** The one event a caller in this phase must have, or none. */
  function Expected(max: u32, i: nat, c: Caller): seq<Event> {
    match c
    case Checking(n, current) => if current + n > max then [Event(i, n, false)] else []
    case Admitted(n) => [Event(i, n, true)]
    case Refused(n) => [Event(i, n, false)]
    case _ => []
  }

  function Granted(callers: seq<Caller>): nat {
    if callers == [] then 0 else
    Granted(callers[..|callers| - 1]) + match callers[|callers| - 1] case Admitted(n) => n case _ => 0
  }

  /** A value once read stays a lower bound of the counter. */
  predicate Fresh(max: u32, used: u32, c: Caller) {
    match c
    case Checking(n, current) => current <= used
    case Swapping(n, current) => current <= used && current + n <= max
    case _ => true
  }

  /** The history has, for each caller, exactly the effect its phase calls for. */
  ghost predicate Recorded(max: u32, callers: seq<Caller>, log: seq<Event>) {
    && (forall i | 0 <= i < |callers| :: EventsOf(log, i) == Expected(max, i, callers[i]))
    && (forall k | 0 <= k < |log| :: log[k].caller < |callers|)
  }

  ghost predicate Bounded(max: u32, s: State) {
    s.used <= max && forall i | 0 <= i < |s.callers| :: Fresh(max, s.used, s.callers[i])
  }

  ghost predicate Counted(s: State) {
    s.used == AdmittedSum(s.log) == Granted(s.callers)
  }

  ghost predicate Inv(max: u32, s: State) {
    Bounded(max, s) && Counted(s) && Legal(max, s.log) && Recorded(max, s.callers, s.log)
  }

  lemma {:induction false} NothingGrantedYet(callers: seq<Caller>)
    requires forall i | 0 <= i < |callers| :: callers[i].Entering?
    ensures Granted(callers) == 0
  {
    if callers != [] {
      NothingGrantedYet(callers[..|callers| - 1]);
    }
  }

  lemma InitEstablishesInv(max: u32, s: State)
    requires Init(s)
    ensures Inv(max, s)
  {
    NothingGrantedYet(s.callers);
  }

  lemma {:induction false} GrantedAfterUpdate(callers: seq<Caller>, i: nat, c: Caller)
    requires i < |callers| && !callers[i].Admitted?
    ensures Granted(callers[i := c]) == Granted(callers) + match c case Admitted(n) => n case _ => 0
  {
    var last := |callers| - 1;
    if i == last {
      assert callers[i := c][..last] == callers[..last];
    } else {
      assert callers[i := c][..last] == callers[..last][i := c];
      GrantedAfterUpdate(callers[..last], i, c);
    }
  }

  lemma StepKeepsBounded(max: u32, s: State, i: nat, late: bool)
    requires Bounded(max, s) && i < |s.callers| && !Finished(s.callers[i])
    ensures Bounded(max, Step(max, s, i, late))
    ensures s.used <= Step(max, s, i, late).used
  {
    assert Fresh(max, s.used, s.callers[i]);
  }

  /** A step either has no effect, or is the effect of one call. */
  lemma StepEffect(max: u32, s: State, i: nat, late: bool) returns (c: Caller, effect: seq<Event>)
    requires Bounded(max, s) && i < |s.callers| && !Finished(s.callers[i])
    ensures Step(max, s, i, late).callers == s.callers[i := c] && Step(max, s, i, late).log == s.log + effect
    ensures Expected(max, i, c) == Expected(max, i, s.callers[i]) + effect
    ensures effect == [] ==> !c.Admitted? && Step(max, s, i, late).used == s.used
    ensures effect != [] ==>
      var e := effect[0];
      && effect == [e] && e.caller == i && Expected(max, i, s.callers[i]) == []
      && (e.admitted <==> s.used + e.n <= max)
      && (c.Admitted? <==> e.admitted) && (c.Admitted? ==> c.n == e.n)
      && Step(max, s, i, late).used == if e.admitted then s.used + e.n else s.used
  {
    var t := Step(max, s, i, late);
    assert Fresh(max, s.used, s.callers[i]);
    c := t.callers[i];
    effect := t.log[|s.log|..];
  }

  lemma StepKeepsCounted(max: u32, s: State, i: nat, late: bool)
    requires Bounded(max, s) && Counted(s) && Legal(max, s.log) && i < |s.callers| && !Finished(s.callers[i])
    ensures Counted(Step(max, s, i, late)) && Legal(max, Step(max, s, i, late).log)
  {
    var c, effect := StepEffect(max, s, i, late);
    GrantedAfterUpdate(s.callers, i, c);
    if effect == [] {
      assert s.log + effect == s.log;
    }
  }

  lemma StepKeepsRecorded(max: u32, s: State, i: nat, late: bool)
    requires Bounded(max, s) && Recorded(max, s.callers, s.log) && i < |s.callers| && !Finished(s.callers[i])
    ensures Recorded(max, Step(max, s, i, late).callers, Step(max, s, i, late).log)
  {
    var c, effect := StepEffect(max, s, i, late);
    if effect == [] {
      assert s.log + effect == s.log;
    }
  }

  /** Every step of every caller keeps the history legal and the counter equal to what it granted. */
  lemma StepKeepsInv(max: u32, s: State, i: nat, late: bool)
    requires Inv(max, s) && i < |s.callers| && !Finished(s.callers[i])
    ensures Inv(max, Step(max, s, i, late))
  {
    StepKeepsBounded(max, s, i, late);
    StepKeepsCounted(max, s, i, late);
    StepKeepsRecorded(max, s, i, late);
  }

  // ----- Runs -----

  datatype Move = Move(caller: nat, late: bool)

  ghost predicate Enabled(s: State, m: Move) {
    m.caller < |s.callers| && !Finished(s.callers[m.caller])
  }

  ghost predicate IsRun(max: u32, s: State, moves: seq<Move>)
    decreases |moves|
  {
    moves == [] || (Enabled(s, moves[0]) && IsRun(max, Step(max, s, moves[0].caller, moves[0].late), moves[1..]))
  }

  ghost function After(max: u32, s: State, moves: seq<Move>): State
    requires IsRun(max, s, moves)
    decreases |moves|
  {
    if moves == [] then s else After(max, Step(max, s, moves[0].caller, moves[0].late), moves[1..])
  }

  lemma {:induction false} RunKeepsInv(max: u32, s: State, moves: seq<Move>)
    requires Inv(max, s) && IsRun(max, s, moves)
    ensures Inv(max, After(max, s, moves))
    decreases |moves|
  {
    if moves != [] {
      StepKeepsInv(max, s, moves[0].caller, moves[0].late);
      RunKeepsInv(max, Step(max, s, moves[0].caller, moves[0].late), moves[1..]);
    }
  }

  /** Histories only grow, and an answer once given stays. */
  lemma {:induction false} RunOnlyExtends(max: u32, s: State, moves: seq<Move>)
    requires IsRun(max, s, moves)
    ensures |After(max, s, moves).callers| == |s.callers| && s.log <= After(max, s, moves).log
    ensures forall i | 0 <= i < |s.callers| && Finished(s.callers[i]) :: After(max, s, moves).callers[i] == s.callers[i]
    ensures forall i | 0 <= i < |s.callers| :: After(max, s, moves).callers[i].n == s.callers[i].n
    decreases |moves|
  {
    if moves != [] {
      var next := Step(max, s, moves[0].caller, moves[0].late);
      assert s.log <= next.log && |next.callers| == |s.callers|;
      assert forall i | 0 <= i < |s.callers| && Finished(s.callers[i]) :: next.callers[i] == s.callers[i];
      RunOnlyExtends(max, next, moves[1..]);
    }
  }

  lemma {:induction false} EventsOfMember(log: seq<Event>, k: nat)
    requires k < |log|
    ensures log[k] in EventsOf(log, log[k].caller)
  {
    if k < |log| - 1 {
      EventsOfMember(log[..|log| - 1], k);
    }
  }

  lemma {:induction false} EventsOfAreLogged(log: seq<Event>, i: nat) returns (k: nat)
    requires EventsOf(log, i) != []
    ensures k < |log| && log[k] == EventsOf(log, i)[0] && log[k].caller == i
  {
    var last := |log| - 1;
    if EventsOf(log[..last], i) != [] {
      k := EventsOfAreLogged(log[..last], i);
    } else {
      k := last;
    }
  }

  /** Calls answered by the time of `s` take effect before calls that have not begun by then. */
  ghost predicate RespectsRealTime(s: State, log: seq<Event>) {
    forall a, b | 0 <= a < |log| && 0 <= b < |log| && log[a].caller < |s.callers| && log[b].caller < |s.callers|
        && Finished(s.callers[log[a].caller]) && s.callers[log[b].caller].Entering? ::
      a < b
  }

  /** Every answered call has exactly one effect, the one its answer says; an expired call has none. */
  ghost predicate AnswersMatch(t: State) {
    forall i | 0 <= i < |t.callers| ::
      && (t.callers[i].Admitted? ==> EventsOf(t.log, i) == [Event(i, t.callers[i].n, true)])
      && (t.callers[i].Refused? ==> EventsOf(t.log, i) == [Event(i, t.callers[i].n, false)])
      && (t.callers[i].Expired? ==> EventsOf(t.log, i) == [])
  }

  /** At its place `k` in the history caller `i` found no room, and that place lies within its call. */
  ghost predicate NoRoomAt(max: u32, s: State, t: State, i: nat, k: nat)
    requires i < |s.callers| && i < |t.callers|
  {
    && k < |t.log| && t.log[k].caller == i && AdmittedSum(t.log[..k]) + t.callers[i].n > max
    && (s.callers[i].Entering? ==> |s.log| <= k) && (Finished(s.callers[i]) ==> k < |s.log|)
  }

  /** Every refused call was refused for want of room at some moment between its beginning and its answer. */
  ghost predicate RefusalsAreJustified(max: u32, s: State, t: State)
    requires |s.callers| == |t.callers|
  {
    forall i | 0 <= i < |t.callers| && t.callers[i].Refused? :: exists k :: NoRoomAt(max, s, t, i, k)
  }

  /**
   Linearizability. In every interleaving the history of effects is a legal run of the atomic
   operation, its total is the counter and never passes the ceiling, every answered call answered
   what its own effect says, a refused one at a moment of its own without room, and effects keep the
   order of calls that did not overlap.
   */
  lemma Linearizable(max: u32, s0: State, before: seq<Move>, after: seq<Move>)
    requires Init(s0) && IsRun(max, s0, before) && IsRun(max, After(max, s0, before), after)
    ensures var s := After(max, s0, before); var t := After(max, s, after);
      && t.used <= max
      && t.used == AdmittedSum(t.log) == Granted(t.callers)
      && Legal(max, t.log)
      && AnswersMatch(t)
      && RespectsRealTime(s, t.log)
      && |t.callers| == |s.callers| && RefusalsAreJustified(max, s, t)
      && forall i | 0 <= i < |s.callers| :: t.callers[i].n == s.callers[i].n
  {
    InitEstablishesInv(max, s0);
    RunKeepsInv(max, s0, before);
    var s := After(max, s0, before);
    RunKeepsInv(max, s, after);
    RunOnlyExtends(max, s, after);
    var t := After(max, s, after);
    EffectsRespectRealTime(max, s, t);
    AnswersMatchEffects(max, t);
    forall i | 0 <= i < |t.callers| && t.callers[i].Refused? ensures exists k :: NoRoomAt(max, s, t, i, k) {
      var k := RefusalHasNoRoom(max, s, t, i);
    }
  }

  lemma RefusalHasNoRoom(max: u32, s: State, t: State, i: nat) returns (k: nat)
    requires Legal(max, t.log) && Recorded(max, s.callers, s.log) && Recorded(max, t.callers, t.log)
    requires s.log <= t.log && i < |s.callers| == |t.callers| && t.callers[i].Refused?
    requires Finished(s.callers[i]) ==> t.callers[i] == s.callers[i]
    ensures NoRoomAt(max, s, t, i, k)
  {
    assert EventsOf(t.log, i) == Expected(max, i, t.callers[i]);
    k := EventsOfAreLogged(t.log, i);
    LegalAt(max, t.log, k);
    if s.callers[i].Entering? {
      LaterEvent(max, s, t, k);
    } else if Finished(s.callers[i]) {
      EarlierEvent(max, s, t, k);
    }
  }

  lemma AnswersMatchEffects(max: u32, t: State)
    requires Recorded(max, t.callers, t.log)
    ensures AnswersMatch(t)
  {
    forall i | 0 <= i < |t.callers|
      ensures t.callers[i].Admitted? ==> EventsOf(t.log, i) == [Event(i, t.callers[i].n, true)]
      ensures t.callers[i].Refused? ==> EventsOf(t.log, i) == [Event(i, t.callers[i].n, false)]
      ensures t.callers[i].Expired? ==> EventsOf(t.log, i) == []
    {
      assert EventsOf(t.log, i) == Expected(max, i, t.callers[i]);
    }
  }

  lemma EffectsRespectRealTime(max: u32, s: State, t: State)
    requires Recorded(max, s.callers, s.log) && Recorded(max, t.callers, t.log)
    requires s.log <= t.log && |s.callers| == |t.callers|
    requires forall i | 0 <= i < |s.callers| && Finished(s.callers[i]) :: t.callers[i] == s.callers[i]
    ensures RespectsRealTime(s, t.log)
  {
    forall a, b | 0 <= a < |t.log| && 0 <= b < |t.log| && t.log[a].caller < |s.callers| && t.log[b].caller < |s.callers|
        && Finished(s.callers[t.log[a].caller]) && s.callers[t.log[b].caller].Entering?
      ensures a < b
    {
      EarlierEvent(max, s, t, a);
      LaterEvent(max, s, t, b);
    }
  }

  lemma LaterEvent(max: u32, s: State, t: State, b: nat)
    requires Recorded(max, s.callers, s.log) && s.log <= t.log && b < |t.log| && t.log[b].caller < |s.callers|
    requires s.callers[t.log[b].caller].Entering?
    ensures b >= |s.log|
  {
    if b < |s.log| {
      EventsOfMember(s.log, b);
      assert false;
    }
  }

  lemma EarlierEvent(max: u32, s: State, t: State, a: nat)
    requires Recorded(max, s.callers, s.log) && Recorded(max, t.callers, t.log)
    requires s.log <= t.log && a < |t.log| && |s.callers| == |t.callers|
    requires Finished(s.callers[t.log[a].caller])
    requires t.callers[t.log[a].caller] == s.callers[t.log[a].caller]
    ensures a < |s.log|
  {
    var i := t.log[a].caller;
    EventsOfMember(t.log, a);
    if a >= |s.log| {
      var k := EventsOfAreLogged(s.log, i);
      TwoEvents(t.log, k, a);
    }
  }

  lemma {:induction false} TwoEvents(log: seq<Event>, j: nat, k: nat)
    requires j < k < |log| && log[j].caller == log[k].caller
    ensures |EventsOf(log, log[j].caller)| >= 2
  {
    var last := |log| - 1;
    if k < last {
      TwoEvents(log[..last], j, k);
    } else {
      EventsOfMember(log[..last], j);
    }
  }

  // ----- Termination -----

  /** How many more steps a caller can take, whatever the others do. */
  function Remaining(max: u32, c: Caller): int {
    match c
    case Entering(_) => 2 * max + 5
    case Loading(_) => 2 * max + 4
    case Checking(_, current) => 2 * (max - current) + 2
    case Swapping(_, current) => 2 * (max - current) + 1
    case _ => 0
  }

  /** A lost exchange means the counter has grown past the value held, so retries run out. */
  lemma StepShortensTheCall(max: u32, s: State, i: nat, late: bool)
    requires Bounded(max, s) && i < |s.callers| && !Finished(s.callers[i])
    ensures 0 <= Remaining(max, Step(max, s, i, late).callers[i]) < Remaining(max, s.callers[i])
    ensures forall j | 0 <= j < |s.callers| && j != i :: Step(max, s, i, late).callers[j] == s.callers[j]
    ensures s.callers[i].Swapping? && Step(max, s, i, late).callers[i].Checking? ==>
              Step(max, s, i, late).callers[i].current > s.callers[i].current
  {
  }

  function StepsOf(moves: seq<Move>, i: nat): nat {
    if moves == [] then 0 else (if moves[0].caller == i then 1 else 0) + StepsOf(moves[1..], i)
  }

  /** In every interleaving each call answers within a bound set by the ceiling alone. */
  lemma {:induction false} EveryCallAnswers(max: u32, s: State, moves: seq<Move>, i: nat)
    requires Bounded(max, s) && IsRun(max, s, moves) && i < |s.callers|
    requires Remaining(max, s.callers[i]) >= 0
    ensures StepsOf(moves, i) <= Remaining(max, s.callers[i]) <= 2 * max + 5
    decreases |moves|
  {
    if moves != [] {
      var j, late := moves[0].caller, moves[0].late;
      StepKeepsBounded(max, s, j, late);
      StepShortensTheCall(max, s, j, late);
      EveryCallAnswers(max, Step(max, s, j, late), moves[1..], i);
    }
  }
}
