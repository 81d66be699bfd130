/**
 The plan cache under concurrent readers and writers.

 A reader fetches the definitions generation, looks its key up, and on a miss builds a plan with
 any number of separate store reads and caches it under the generation fetched first. A writer's
 transaction reads the generation, and on commit publishes its definitions together with the value
 it read plus one. Steps of different readers and writers interleave arbitrarily.
 */
module PlanCaches {
  import opened Wrappers
  import opened Slugs
  import D = Definitions
  import P = Plans

  /** Every owner's definitions. */
  type Store = map<string, D.Owner>

  /** An owner and one of its endpoints. */
  type Key = (string, Slug)

  type Plan = P.EndpointPlan

  type BuildError = P.ResolveError

  /** What one store read returns. Rows come without the columns that live in tables of their own. */
  datatype Answer =
    | EndpointRow(endpoint: Option<D.EndpointDef>)
    | Aliases(aliases: map<string, D.Target>)
    | Scope(scope: set<Slug>)
    | CallRows(calls: seq<(Slug, D.ApiCall)>)
    | ScriptRows(scripts: seq<(Slug, D.ScriptDef)>)
    | Params(params: seq<D.Param>)
    | Callable(callable: map<string, Slug>)
    | Tags(tags: set<Slug>)
    | ServiceRow(service: Option<D.Service>)
    | ProviderRow(provider: Option<D.AuthProvider>)

  /** The next thing a builder does: one more store read, or its result. */
  datatype Action = Ask(query: Store -> Answer) | Return(result: Result<Plan, BuildError>)

  /** A plan builder: what it does next depends on its key and the answers it has so far. */
  datatype Builder = Builder(next: (Key, seq<Answer>) -> Action)

  // ----- Builds that end -----

  /** Whatever it is answered, a builder that has got `answers` returns in the end. */
  least predicate Ends(b: Builder, key: Key, answers: seq<Answer>) {
    b.next(key, answers).Return? || forall a :: Ends(b, key, answers + [a])
  }

  /** The number of reads has no bound: it may grow with what the reads return. */
  ghost predicate Terminating(b: Builder) {
    forall key, answers :: Ends(b, key, answers)
  }

  ghost predicate EndsFirstAt(b: Builder, key: Key, answers: seq<Answer>, k: ORDINAL) {
    Ends#[k](b, key, answers) && forall j: ORDINAL | j < k :: !Ends#[j](b, key, answers)
  }

  lemma {:induction false} FirstEnd(b: Builder, key: Key, answers: seq<Answer>, k: ORDINAL) returns (r: ORDINAL)
    requires Ends#[k](b, key, answers)
    ensures EndsFirstAt(b, key, answers, r)
    decreases k
  {
    if j: ORDINAL :| j < k && Ends#[j](b, key, answers) {
      r := FirstEnd(b, key, answers, j);
    } else {
      r := k;
    }
  }

  lemma HasRank(b: Builder, key: Key, answers: seq<Answer>)
    requires Ends(b, key, answers)
    ensures exists r: ORDINAL :: EndsFirstAt(b, key, answers, r)
  {
    var k: ORDINAL :| Ends#[k](b, key, answers);
    var r := FirstEnd(b, key, answers, k);
  }

  /** How far a builder is from returning. */
  ghost function Rank(b: Builder, key: Key, answers: seq<Answer>): (r: ORDINAL)
    requires Ends(b, key, answers)
    ensures EndsFirstAt(b, key, answers, r)
  {
    HasRank(b, key, answers);
    var r: ORDINAL :| EndsFirstAt(b, key, answers, r);
    r
  }

  /** Every answer brings a builder closer to returning. */
  lemma RankFalls(b: Builder, key: Key, answers: seq<Answer>, a: Answer)
    requires Ends(b, key, answers) && b.next(key, answers).Ask?
    ensures Ends(b, key, answers + [a])
    ensures Rank(b, key, answers + [a]) < Rank(b, key, answers)
  {
    var r := Rank(b, key, answers);
    assert r.IsSucc && Ends#[r - 1](b, key, answers + [a]);
    var q := Rank(b, key, answers + [a]);
    assert q <= r - 1;
  }

  /** What the builder returns when it continues from `answers` and the definitions stand still. */
  ghost function BuildFrom(b: Builder, defs: Store, key: Key, answers: seq<Answer>): Result<Plan, BuildError>
    requires Ends(b, key, answers)
    decreases Rank(b, key, answers)
  {
    match b.next(key, answers)
    case Return(result) => result
    case Ask(query) =>
      RankFalls(b, key, answers, query(defs));
      BuildFrom(b, defs, key, answers + [query(defs)])
  }

  ghost function BuildPlan(b: Builder, defs: Store, key: Key): Result<Plan, BuildError>
    requires Terminating(b)
  {
    BuildFrom(b, defs, key, [])
  }

  // ----- Writers -----

  /** The generation counter, and for each open transaction the value it has read. */
  datatype Clock = Clock(gen: nat, held: seq<Option<nat>>)

  datatype WriterMove = Begin(w: nat) | Commit(w: nat)

  ghost predicate CanMove(c: Clock, m: WriterMove) {
    m.w < |c.held| && (m.Commit? <==> c.held[m.w].Some?)
  }

  ghost function Tick(c: Clock, m: WriterMove): Clock
    requires CanMove(c, m)
  {
    if m.Begin? then c.(held := c.held[m.w := Some(c.gen)])
    else Clock(c.held[m.w].value + 1, c.held[m.w := None])
  }

  /** A commit is fresh when no other transaction committed since it read the generation. */
  ghost predicate FreshMove(c: Clock, m: WriterMove)
    requires CanMove(c, m)
  {
    m.Commit? ==> c.held[m.w] == Some(c.gen)
  }

  ghost predicate IsSchedule(c: Clock, moves: seq<WriterMove>)
    decreases |moves|, 0
  {
    moves == [] ||
    (IsSchedule(c, moves[..|moves| - 1]) && CanMove(Ticks(c, moves[..|moves| - 1]), moves[|moves| - 1]))
  }

  ghost function Ticks(c: Clock, moves: seq<WriterMove>): Clock
    requires IsSchedule(c, moves)
    decreases |moves|, 1
  {
    if moves == [] then c else Tick(Ticks(c, moves[..|moves| - 1]), moves[|moves| - 1])
  }

  ghost predicate AllFresh(c: Clock, moves: seq<WriterMove>)
    requires IsSchedule(c, moves)
  {
    moves == [] ||
    (AllFresh(c, moves[..|moves| - 1]) && FreshMove(Ticks(c, moves[..|moves| - 1]), moves[|moves| - 1]))
  }

  // ----- The whole system -----

  datatype Reader =
    | Idle(key: Key)
    | Looking(key: Key, tag: nat)
    | Building(key: Key, tag: nat, answers: seq<Answer>)
    | Inserting(key: Key, tag: nat, plan: Plan)
    | Served(key: Key, tag: nat, plan: Plan)
    | Failed(key: Key, tag: nat, error: BuildError)

  datatype State = State(clock: Clock, defs: Store, entries: map<Key, (nat, Plan)>, readers: seq<Reader>)

  /** A commit publishes `defs`; a begin leaves the definitions alone. */
  datatype Step = Write(move: WriterMove, defs: Store) | Read(reader: nat)

  ghost predicate CanStep(s: State, step: Step) {
    match step
    case Write(m, _) => CanMove(s.clock, m)
    case Read(i) => i < |s.readers| && !s.readers[i].Served? && !s.readers[i].Failed?
  }

  ghost function ReaderNext(b: Builder, s: State, r: Reader): Reader {
    match r
    case Idle(key) => Looking(key, s.clock.gen)
    case Looking(key, tag) =>
      if key in s.entries && s.entries[key].0 == tag then Served(key, tag, s.entries[key].1)
      else Building(key, tag, [])
    case Building(key, tag, answers) =>
      (match b.next(key, answers)
       case Ask(query) => Building(key, tag, answers + [query(s.defs)])
       case Return(Ok(plan)) => Inserting(key, tag, plan)
       case Return(Err(e)) => Failed(key, tag, e))
    case Inserting(key, tag, plan) => Served(key, tag, plan)
    case _ => r
  }

  ghost function Next(b: Builder, s: State, step: Step): State
    requires CanStep(s, step)
  {
    match step
    case Write(m, defs) => State(Tick(s.clock, m), if m.Commit? then defs else s.defs, s.entries, s.readers)
    case Read(i) =>
      var r := s.readers[i];
      State(s.clock, s.defs,
            if r.Inserting? then s.entries[r.key := (r.tag, r.plan)] else s.entries,
            s.readers[i := ReaderNext(b, s, r)])
  }

  ghost predicate IsRun(b: Builder, s: State, run: seq<Step>)
    decreases |run|, 0
  {
    run == [] ||
    (IsRun(b, s, run[..|run| - 1]) && CanStep(After(b, s, run[..|run| - 1]), run[|run| - 1]))
  }

  ghost function After(b: Builder, s: State, run: seq<Step>): State
    requires IsRun(b, s, run)
    decreases |run|, 1
  {
    if run == [] then s else Next(b, After(b, s, run[..|run| - 1]), run[|run| - 1])
  }

  /** The writers' part of a run. */
  ghost function WritesOf(run: seq<Step>): seq<WriterMove> {
    if run == [] then [] else
    WritesOf(run[..|run| - 1]) + if run[|run| - 1].Write? then [run[|run| - 1].move] else []
  }

  ghost predicate Init(s: State) {
    && s.entries == map[]
    && (forall i | 0 <= i < |s.readers| :: s.readers[i].Idle?)
    && (forall w | 0 <= w < |s.clock.held| :: s.clock.held[w].None?)
  }

  // ----- The invariant -----

  /** Every entry tagged with the current generation holds exactly the plan of the current definitions. */
  ghost predicate CurrentEntries(b: Builder, s: State)
    requires Terminating(b)
  {
    forall key | key in s.entries && s.entries[key].0 == s.clock.gen ::
      BuildPlan(b, s.defs, key) == Ok(s.entries[key].1)
  }

  /** A reader tagged with the current generation is on its way to, or has, the current plan. */
  ghost predicate OnTrack(b: Builder, s: State, r: Reader)
    requires Terminating(b)
  {
    match r
    case Idle(_) => true
    case Looking(_, tag) => true
    case Building(key, tag, answers) =>
      tag == s.clock.gen ==> BuildFrom(b, s.defs, key, answers) == BuildPlan(b, s.defs, key)
    case Inserting(key, tag, plan) => tag == s.clock.gen ==> BuildPlan(b, s.defs, key) == Ok(plan)
    case Served(key, tag, plan) => tag == s.clock.gen ==> BuildPlan(b, s.defs, key) == Ok(plan)
    case Failed(key, tag, error) => tag == s.clock.gen ==> BuildPlan(b, s.defs, key) == Err(error)
  }

  ghost predicate AllOnTrack(b: Builder, s: State)
    requires Terminating(b)
  {
    forall i | 0 <= i < |s.readers| :: OnTrack(b, s, s.readers[i])
  }

  /** No tag is from the future. */
  ghost predicate TagsPast(s: State) {
    && (forall key | key in s.entries :: s.entries[key].0 <= s.clock.gen)
    && (forall i | 0 <= i < |s.readers| && !s.readers[i].Idle? :: s.readers[i].tag <= s.clock.gen)
  }

  ghost predicate Inv(b: Builder, s: State)
    requires Terminating(b)
  {
    CurrentEntries(b, s) && AllOnTrack(b, s) && TagsPast(s)
  }

  lemma ReaderStaysOnTrack(b: Builder, s: State, i: nat)
    requires Terminating(b) && Inv(b, s) && CanStep(s, Read(i))
    ensures OnTrack(b, Next(b, s, Read(i)), ReaderNext(b, s, s.readers[i]))
  {
    assert OnTrack(b, s, s.readers[i]);
  }

  lemma ReadKeepsInv(b: Builder, s: State, i: nat)
    requires Terminating(b) && Inv(b, s) && CanStep(s, Read(i))
    ensures Inv(b, Next(b, s, Read(i)))
  {
    ReaderStaysOnTrack(b, s, i);
    var t := Next(b, s, Read(i));
    forall j | 0 <= j < |t.readers| ensures OnTrack(b, t, t.readers[j]) {
      if j != i {
        assert OnTrack(b, s, s.readers[j]);
      }
    }
    assert OnTrack(b, s, s.readers[i]);
  }

  lemma FreshWriteKeepsInv(b: Builder, s: State, m: WriterMove, defs: Store)
    requires Terminating(b) && Inv(b, s) && CanMove(s.clock, m) && FreshMove(s.clock, m)
    ensures Inv(b, Next(b, s, Write(m, defs)))
  {
    var t := Next(b, s, Write(m, defs));
    forall j | 0 <= j < |t.readers| ensures OnTrack(b, t, t.readers[j]) {
      assert OnTrack(b, s, s.readers[j]);
    }
  }

  lemma {:induction false} WritesDriveTheClock(b: Builder, s: State, run: seq<Step>)
    requires IsRun(b, s, run)
    ensures IsSchedule(s.clock, WritesOf(run)) && After(b, s, run).clock == Ticks(s.clock, WritesOf(run))
  {
    if run != [] {
      var init, last := run[..|run| - 1], run[|run| - 1];
      WritesDriveTheClock(b, s, init);
      if last.Write? {
        assert WritesOf(run)[..|WritesOf(run)| - 1] == WritesOf(init);
      } else {
        assert WritesOf(run) == WritesOf(init);
      }
    }
  }

  /** However readers interleave, fresh commits keep current entries current. */
  lemma {:induction false} FreshRunKeepsInv(b: Builder, s: State, run: seq<Step>)
    requires Terminating(b) && Inv(b, s) && IsRun(b, s, run)
    requires IsSchedule(s.clock, WritesOf(run)) && AllFresh(s.clock, WritesOf(run))
    ensures Inv(b, After(b, s, run))
  {
    if run != [] {
      var init, last := run[..|run| - 1], run[|run| - 1];
      WritesDriveTheClock(b, s, init);
      if last.Write? {
        assert WritesOf(run)[..|WritesOf(run)| - 1] == WritesOf(init);
        FreshRunKeepsInv(b, s, init);
        FreshWriteKeepsInv(b, After(b, s, init), last.move, last.defs);
      } else {
        assert WritesOf(run) == WritesOf(init);
        FreshRunKeepsInv(b, s, init);
        ReadKeepsInv(b, After(b, s, init), last.reader);
      }
    }
  }

  // ----- What a call returns -----

  /** A call during which no write commits returns exactly the plan, or the error, of the definitions. */
  lemma {:induction false} QuietCallReturnsCurrentPlan(b: Builder, s: State, run: seq<Step>, i: nat)
    requires Terminating(b) && Inv(b, s) && IsRun(b, s, run)
    requires i < |s.readers| && s.readers[i].Idle?
    requires forall m | m in WritesOf(run) :: m.Begin?
    ensures var t := After(b, s, run);
      && |t.readers| == |s.readers| && t.readers[i].key == s.readers[i].key
      && (t.readers[i].Served? ==> BuildPlan(b, s.defs, s.readers[i].key) == Ok(t.readers[i].plan))
      && (t.readers[i].Failed? ==> BuildPlan(b, s.defs, s.readers[i].key) == Err(t.readers[i].error))
  {
    QuietRunKeepsTheDefinitions(b, s, run, i);
    WritesDriveTheClock(b, s, run);
    BeginsAreFresh(s.clock, WritesOf(run));
    FreshRunKeepsInv(b, s, run);
    assert OnTrack(b, After(b, s, run), After(b, s, run).readers[i]);
  }

  lemma {:induction false} BeginsAreFresh(c: Clock, moves: seq<WriterMove>)
    requires IsSchedule(c, moves) && forall m | m in moves :: m.Begin?
    ensures AllFresh(c, moves)
  {
    if moves != [] {
      BeginsAreFresh(c, moves[..|moves| - 1]);
      assert moves[|moves| - 1] in moves;
    }
  }

  lemma {:induction false} QuietRunKeepsTheDefinitions(b: Builder, s: State, run: seq<Step>, i: nat)
    requires IsRun(b, s, run) && i < |s.readers| && s.readers[i].Idle?
    requires forall m | m in WritesOf(run) :: m.Begin?
    ensures var t := After(b, s, run);
      && t.defs == s.defs && t.clock.gen == s.clock.gen
      && |t.readers| == |s.readers| && t.readers[i].key == s.readers[i].key
      && (!t.readers[i].Idle? ==> t.readers[i].tag == s.clock.gen)
  {
    if run != [] {
      var init, last := run[..|run| - 1], run[|run| - 1];
      assert forall m | m in WritesOf(init) :: m in WritesOf(run);
      QuietRunKeepsTheDefinitions(b, s, init, i);
      if last.Write? {
        assert WritesOf(run)[|WritesOf(init)|] == last.move;
      }
    }
  }

  // ----- Every call ends -----

  predicate Done(r: Reader) {
    r.Served? || r.Failed?
  }

  function Stage(r: Reader): nat {
    match r
    case Idle(_) => 4
    case Looking(_, _) => 3
    case Building(_, _, _) => 2
    case Inserting(_, _, _) => 1
    case _ => 0
  }

  /** How far a reader's build is from returning. */
  ghost function BuildLeft(b: Builder, r: Reader): ORDINAL
    requires Terminating(b)
  {
    if r.Building? then Rank(b, r.key, r.answers) else 0
  }

  /** `r` is nearer to its end than `q`: in a later stage, or in the same one with less of the build to go. */
  ghost predicate Closer(b: Builder, r: Reader, q: Reader)
    requires Terminating(b)
  {
    Stage(r) < Stage(q) || (Stage(r) == Stage(q) && BuildLeft(b, r) < BuildLeft(b, q))
  }

  /** Every step of a call brings it closer to its end, and no step of anyone else touches it. */
  lemma StepsBringCallsCloser(b: Builder, s: State, step: Step, i: nat)
    requires Terminating(b) && CanStep(s, step) && i < |s.readers|
    ensures |Next(b, s, step).readers| == |s.readers|
    ensures if step == Read(i) then Closer(b, Next(b, s, step).readers[i], s.readers[i])
            else Next(b, s, step).readers[i] == s.readers[i]
  {
    var r := s.readers[i];
    if step == Read(i) && r.Building? && b.next(r.key, r.answers).Ask? {
      RankFalls(b, r.key, r.answers, b.next(r.key, r.answers).query(s.defs));
    }
  }

  /** An endless history of the whole system; `None` is a moment at which nothing happens. */
  datatype History = History(state: nat -> State, step: nat -> Option<Step>)

  ghost predicate Follows(b: Builder, s: State, step: Option<Step>, t: State) {
    if step.None? then t == s else CanStep(s, step.value) && t == Next(b, s, step.value)
  }

  ghost predicate IsHistory(b: Builder, h: History) {
    forall n: nat :: Follows(b, h.state(n), h.step(n), h.state(n + 1))
  }

  /** The call of reader `i` is never forgotten for good while it is unfinished. */
  ghost predicate KeepsBeingScheduled(h: History, i: nat) {
    forall n | i < |h.state(n).readers| && !h.state(n).readers[i].Served? && !h.state(n).readers[i].Failed? ::
      exists m ::
      n <= m && h.step(m) == Some(Read(i))
  }

  lemma {:induction false} NextOwnStep(b: Builder, h: History, i: nat, n: nat, m: nat) returns (k: nat)
    requires Terminating(b) && IsHistory(b, h) && i < |h.state(n).readers|
    requires n <= m && h.step(m) == Some(Read(i))
    ensures n <= k && h.step(k) == Some(Read(i))
    ensures i < |h.state(k).readers| && h.state(k).readers[i] == h.state(n).readers[i]
    decreases m - n
  {
    if h.step(n) == Some(Read(i)) {
      k := n;
    } else {
      assert Follows(b, h.state(n), h.step(n), h.state(n + 1));
      if h.step(n).Some? {
        StepsBringCallsCloser(b, h.state(n), h.step(n).value, i);
      }
      k := NextOwnStep(b, h, i, n + 1, m);
    }
  }

  /** Whatever readers and writers do beside it, a call that keeps being scheduled ends. */
  lemma {:induction false} EveryCallEnds(b: Builder, h: History, i: nat, n: nat)
    requires Terminating(b) && IsHistory(b, h) && KeepsBeingScheduled(h, i) && i < |h.state(n).readers|
    ensures exists m :: n <= m && i < |h.state(m).readers|
                        && (h.state(m).readers[i].Served? || h.state(m).readers[i].Failed?)
    decreases Stage(h.state(n).readers[i]), BuildLeft(b, h.state(n).readers[i])
  {
    if !Done(h.state(n).readers[i]) {
      var m :| n <= m && h.step(m) == Some(Read(i));
      var k := NextOwnStep(b, h, i, n, m);
      assert Follows(b, h.state(k), h.step(k), h.state(k + 1));
      StepsBringCallsCloser(b, h.state(k), Read(i), i);
      EveryCallEnds(b, h, i, k + 1);
    }
  }

  // ----- Overlapping writers -----

  /** No run of readers beside these writer moves ever leaves a wrong plan under the current generation. */
  ghost predicate SafeSchedule(b: Builder, c: Clock, moves: seq<WriterMove>)
    requires Terminating(b)
  {
    forall s, run | Init(s) && s.clock == c && IsRun(b, s, run) && WritesOf(run) <= moves ::
      CurrentEntries(b, After(b, s, run))
  }

  ghost predicate NoneOpen(c: Clock) {
    forall w | 0 <= w < |c.held| :: c.held[w].None?
  }

  lemma {:induction false} PrefixOfSchedule(c: Clock, moves: seq<WriterMove>, k: nat)
    requires IsSchedule(c, moves) && k <= |moves|
    ensures IsSchedule(c, moves[..k])
    ensures k < |moves| ==> CanMove(Ticks(c, moves[..k]), moves[k])
    ensures AllFresh(c, moves) ==> AllFresh(c, moves[..k])
  {
    if k == |moves| {
      assert moves[..k] == moves;
    } else {
      var init := moves[..|moves| - 1];
      PrefixOfSchedule(c, init, k);
      assert init[..k] == moves[..k];
    }
  }

  lemma {:induction false} FirstStale(c: Clock, moves: seq<WriterMove>) returns (k: nat)
    requires IsSchedule(c, moves) && !AllFresh(c, moves)
    ensures k < |moves| && IsSchedule(c, moves[..k]) && AllFresh(c, moves[..k])
    ensures CanMove(Ticks(c, moves[..k]), moves[k]) && !FreshMove(Ticks(c, moves[..k]), moves[k])
  {
    var init := moves[..|moves| - 1];
    if AllFresh(c, init) {
      k := |init|;
    } else {
      k := FirstStale(c, init);
      assert init[..k] == moves[..k];
    }
  }

  /** While commits are fresh the generation never falls, and open transactions hold values from its past. */
  lemma {:induction false} FreshClockRises(c: Clock, moves: seq<WriterMove>)
    requires NoneOpen(c) && IsSchedule(c, moves) && AllFresh(c, moves)
    ensures var d := Ticks(c, moves);
      && c.gen <= d.gen
      && forall w | 0 <= w < |d.held| && d.held[w].Some? :: c.gen <= d.held[w].value <= d.gen
  {
    if moves != [] {
      FreshClockRises(c, moves[..|moves| - 1]);
    }
  }

  /** While commits are fresh the generation rises by at most one at a time, so it skips no value. */
  lemma {:induction false} VisitsGeneration(c: Clock, moves: seq<WriterMove>, g: nat) returns (j: nat)
    requires IsSchedule(c, moves) && AllFresh(c, moves) && c.gen <= g <= Ticks(c, moves).gen
    ensures j <= |moves| && IsSchedule(c, moves[..j]) && Ticks(c, moves[..j]).gen == g
  {
    if Ticks(c, moves).gen == g {
      j := |moves|;
      assert moves[..j] == moves;
    } else {
      var init := moves[..|moves| - 1];
      j := VisitsGeneration(c, init, g);
      assert init[..j] == moves[..j];
    }
  }

  lemma ExtendRun(b: Builder, s: State, run: seq<Step>, step: Step)
    requires IsRun(b, s, run) && CanStep(After(b, s, run), step)
    ensures IsRun(b, s, run + [step])
    ensures After(b, s, run + [step]) == Next(b, After(b, s, run), step)
    ensures WritesOf(run + [step]) == WritesOf(run) + if step.Write? then [step.move] else []
  {
    assert (run + [step])[..|run + [step]| - 1] == run;
  }

  lemma ContinueWrite(b: Builder, s: State, run: seq<Step>, moves: seq<WriterMove>, k: nat, defs: Store)
    returns (r: seq<Step>)
    requires IsRun(b, s, run) && After(b, s, run).defs == defs
    requires IsSchedule(s.clock, moves) && k < |moves| && WritesOf(run) == moves[..k]
    ensures IsRun(b, s, r) && WritesOf(r) == moves[..k + 1]
    ensures After(b, s, r).defs == defs && After(b, s, r).readers == After(b, s, run).readers
    ensures After(b, s, r).entries == After(b, s, run).entries
  {
    PrefixOfSchedule(s.clock, moves, k);
    WritesDriveTheClock(b, s, run);
    ExtendRun(b, s, run, Write(moves[k], defs));
    r := run + [Write(moves[k], defs)];
  }

  /** Continues a run with the writer moves up to `upTo`, all publishing `defs`. */
  lemma {:induction false} ContinueWrites(b: Builder, s: State, run: seq<Step>, moves: seq<WriterMove>, start: nat,
                                          upTo: nat, defs: Store) returns (r: seq<Step>)
    requires IsRun(b, s, run) && After(b, s, run).defs == defs
    requires IsSchedule(s.clock, moves) && start <= upTo <= |moves| && WritesOf(run) == moves[..start]
    ensures IsRun(b, s, r) && WritesOf(r) == moves[..upTo]
    ensures After(b, s, r).defs == defs && After(b, s, r).readers == After(b, s, run).readers
    ensures After(b, s, r).entries == After(b, s, run).entries
    decreases upTo
  {
    if start == upTo {
      r := run;
    } else {
      var q := ContinueWrites(b, s, run, moves, start, upTo - 1, defs);
      r := ContinueWrite(b, s, q, moves, upTo - 1, defs);
    }
  }

  /** Continues a run with reader 0 alone, from the middle of its build until it is served. */
  lemma {:induction false} ContinueBuild(b: Builder, s: State, run: seq<Step>, plan: Plan) returns (r: seq<Step>)
    requires Terminating(b) && IsRun(b, s, run)
    requires var t := After(b, s, run);
      && |t.readers| > 0 && t.readers[0].Building?
      && BuildFrom(b, t.defs, t.readers[0].key, t.readers[0].answers) == Ok(plan)
    ensures IsRun(b, s, r) && WritesOf(r) == WritesOf(run)
    ensures var t, u := After(b, s, run), After(b, s, r);
      && u.clock == t.clock && u.defs == t.defs
      && u.entries == t.entries[t.readers[0].key := (t.readers[0].tag, plan)]
    decreases Rank(b, After(b, s, run).readers[0].key, After(b, s, run).readers[0].answers)
  {
    var reader := After(b, s, run).readers[0];
    ExtendRun(b, s, run, Read(0));
    var q := run + [Read(0)];
    if b.next(reader.key, reader.answers).Ask? {
      RankFalls(b, reader.key, reader.answers, b.next(reader.key, reader.answers).query(After(b, s, run).defs));
      r := ContinueBuild(b, s, q, plan);
    } else {
      ExtendRun(b, s, q, Read(0));
      r := q + [Read(0)];
    }
  }

  lemma ContinueToMiss(b: Builder, s: State, run: seq<Step>) returns (r: seq<Step>)
    requires IsRun(b, s, run)
    requires var t := After(b, s, run); |t.readers| > 0 && t.readers[0].Idle? && t.entries == map[]
    ensures IsRun(b, s, r) && WritesOf(r) == WritesOf(run)
    ensures var t, u := After(b, s, run), After(b, s, r);
      && u.clock == t.clock && u.defs == t.defs && u.entries == map[]
      && |u.readers| > 0 && u.readers[0] == Building(t.readers[0].key, t.clock.gen, [])
  {
    ExtendRun(b, s, run, Read(0));
    var q := run + [Read(0)];
    ExtendRun(b, s, q, Read(0));
    r := q + [Read(0)];
  }

  /** Continues a run with one whole call of reader 0 that misses the cache. */
  lemma ContinueCall(b: Builder, s: State, run: seq<Step>, plan: Plan) returns (r: seq<Step>)
    requires Terminating(b) && IsRun(b, s, run)
    requires var t := After(b, s, run);
      && |t.readers| > 0 && t.readers[0].Idle? && t.entries == map[]
      && BuildPlan(b, t.defs, t.readers[0].key) == Ok(plan)
    ensures IsRun(b, s, r) && WritesOf(r) == WritesOf(run)
    ensures var t, u := After(b, s, run), After(b, s, r);
      && u.clock == t.clock && u.defs == t.defs
      && u.entries == map[t.readers[0].key := (t.clock.gen, plan)]
  {
    var q := ContinueToMiss(b, s, run);
    r := ContinueBuild(b, s, q, plan);
  }

  /**
   A stale commit sets the generation back to a value it already had. A plan built in between is then
   current by its tag and wrong by its contents.
   */
  lemma StaleCommitBreaksTheCache(b: Builder, c: Clock, moves: seq<WriterMove>, last: WriterMove,
                                  key: Key, d0: Store, d1: Store) returns (s: State, run: seq<Step>)
    requires Terminating(b) && BuildPlan(b, d0, key).Ok? && BuildPlan(b, d1, key) != BuildPlan(b, d0, key)
    requires NoneOpen(c) && IsSchedule(c, moves) && AllFresh(c, moves)
    requires CanMove(Ticks(c, moves), last) && !FreshMove(Ticks(c, moves), last)
    ensures Init(s) && s.clock == c && IsRun(b, s, run) && WritesOf(run) == moves + [last]
    ensures !CurrentEntries(b, After(b, s, run))
  {
    FreshClockRises(c, moves);
    var g := Ticks(c, moves).held[last.w].value + 1;
    var j := VisitsGeneration(c, moves, g);
    var plan := BuildPlan(b, d0, key).value;
    s := State(c, d0, map[], [Idle(key)]);
    var r1 := ContinueWrites(b, s, [], moves, 0, j, d0);
    WritesDriveTheClock(b, s, r1);
    var r2 := ContinueCall(b, s, r1, plan);
    var r3 := ContinueWrites(b, s, r2, moves, j, |moves|, d0);
    assert moves[..|moves|] == moves;
    WritesDriveTheClock(b, s, r3);
    ExtendRun(b, s, r3, Write(last, d1));
    run := r3 + [Write(last, d1)];
    assert key in After(b, s, run).entries;
  }

  lemma FreshScheduleIsSafe(b: Builder, c: Clock, moves: seq<WriterMove>)
    requires Terminating(b) && IsSchedule(c, moves) && AllFresh(c, moves)
    ensures SafeSchedule(b, c, moves)
  {
    forall s, run | Init(s) && s.clock == c && IsRun(b, s, run) && WritesOf(run) <= moves
      ensures CurrentEntries(b, After(b, s, run))
    {
      PrefixOfSchedule(c, moves, |WritesOf(run)|);
      assert moves[..|WritesOf(run)|] == WritesOf(run);
      FreshRunKeepsInv(b, s, run);
    }
  }

  /**
   The cache is safe for every interleaving of readers and every contents of the writes exactly when
   no two writer transactions overlap a commit.
   */
  lemma SafeExactlyWhenCommitsAreFresh(b: Builder, c: Clock, moves: seq<WriterMove>, key: Key, d0: Store, d1: Store)
    requires Terminating(b) && BuildPlan(b, d0, key).Ok? && BuildPlan(b, d1, key) != BuildPlan(b, d0, key)
    requires NoneOpen(c) && IsSchedule(c, moves)
    ensures SafeSchedule(b, c, moves) <==> AllFresh(c, moves)
  {
    if AllFresh(c, moves) {
      FreshScheduleIsSafe(b, c, moves);
    } else {
      var k := FirstStale(c, moves);
      var s, run := StaleCommitBreaksTheCache(b, c, moves[..k], moves[k], key, d0, d1);
      assert WritesOf(run) == moves[..k + 1];
    }
  }

  // ----- The cache object -----

  class PlanCache {
    var entries: map<Key, (nat, Plan)>

    constructor ()
      ensures entries == map[]
    {
      entries := map[];
    }

    method CachedAt(key: Key, generation: nat) returns (plan: Option<Plan>)
      ensures plan.Some? <==> key in entries && entries[key].0 == generation
      ensures plan.Some? ==> plan.value == entries[key].1
    {
      if key in entries && entries[key].0 == generation {
        plan := Some(entries[key].1);
      } else {
        plan := None;
      }
    }

    /** One call with the store standing still: it serves the entry of this generation, or builds and caches. */
    method GetOrBuild(b: Builder, generation: nat, defs: Store, key: Key) returns (r: Result<Plan, BuildError>)
      requires Terminating(b)
      modifies this
      ensures
        if key in old(entries) && old(entries)[key].0 == generation
        then r == Ok(old(entries)[key].1) && entries == old(entries)
        else
          && r == BuildPlan(b, defs, key)
          && entries == if r.Ok? then old(entries)[key := (generation, r.value)] else old(entries)
    {
      var hit := CachedAt(key, generation);
      if hit.Some? {
        return Ok(hit.value);
      }
      var answers: seq<Answer> := [];
      while b.next(key, answers).Ask?
        invariant entries == old(entries) && BuildFrom(b, defs, key, answers) == BuildPlan(b, defs, key)
        decreases Rank(b, key, answers)
      {
        RankFalls(b, key, answers, b.next(key, answers).query(defs));
        answers := answers + [b.next(key, answers).query(defs)];
      }
      r := b.next(key, answers).result;
      if r.Ok? {
        entries := entries[key := (generation, r.value)];
      }
    }
  }
}
