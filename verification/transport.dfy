/**
 One call on the wire: redirects followed by hand up to a cap, every hop checked and authorised afresh,
 and the pages of a cursor-paginated call fetched one after the other.

 The outside world answers as it likes: its answers may depend on every request sent so far.
 */
module Transport {
  import opened Wrappers
  import opened MachineInts

  datatype Url = Url(place: string, query: seq<(string, string)>)

  type Headers = map<string, string>

  datatype Request = Request(verb: string, url: Url, headers: Headers, body: Option<string>)

  /** A request as it went out, with the credential attached for its URL. */
  datatype Sent = Sent(verb: string, url: Url, headers: Headers, credential: Option<string>, body: Option<string>)

  datatype Location = Absent | Unreadable | Target(text: string)

  /** What came back: a transport failure, or a response whose body may be over its cap. */
  datatype Reply = Broken(timedOut: bool) | Response(status: nat, location: Location, body: Option<string>)

  datatype CallResponse = CallResponse(status: nat, url: Url, body: string)

  datatype CallError =
    | Guard | Auth | BodyTooLarge | TooManyRedirects(max: u8) | MissingLocation | InvalidLocation
    | CallTimeout | InvalidHeader | TransportFailure

  datatype CursorRead = NoCursor | NextCursor(text: string) | NotString | NotJson

  /**
   Everything the calls depend on and do not control. `late` tells from the requests sent so far, and from
   how many of them came before this call, whether the call's deadline has passed.
   */
  datatype World = World(
    urlAllowed: Url -> bool,
    headersValid: Headers -> bool,
    credential: Url -> Result<Option<string>, ()>,
    late: (nat, seq<Sent>) -> bool,
    answer: seq<Sent> -> Reply,
    resolve: (Url, string) -> Option<Url>,
    cursor: string -> CursorRead)

  // ----- One redirect hop -----

  predicate IsRedirect(status: nat) {
    status == 301 || status == 302 || status == 303 || status == 307 || status == 308
  }

  function Downgrade(verb: string, body: Option<string>, status: nat): (string, Option<string>) {
    if 301 <= status <= 303 && verb != "GET" then ("GET", None) else (verb, body)
  }

  /** The redirect loop between two iterations; `hop` is an 8-bit counter, `log` every request so far. */
  datatype Loop =
    | Going(request: Request, hop: u8, log: seq<Sent>)
    | Ended(result: Result<CallResponse, CallError>, log: seq<Sent>)

  function Follow(w: World, max: u8, request: Request, hop: u8, log: seq<Sent>, status: nat, location: Location): Loop {
    var next := WrapAdd(hop, 1, U8_MAX);
    if next > max then Ended(Err(TooManyRedirects(max)), log) else
    match location
    case Absent => Ended(Err(MissingLocation), log)
    case Unreadable => Ended(Err(InvalidLocation), log)
    case Target(text) =>
      match w.resolve(request.url, text)
      case None => Ended(Err(InvalidLocation), log)
      case Some(url) =>
        var (verb, body) := Downgrade(request.verb, request.body, status);
        Going(Request(verb, url, request.headers, body), next, log)
  }

  /** One iteration: guard, clock, headers, credential, send, then answer or follow. */
  function Iterate(w: World, max: u8, start: nat, request: Request, hop: u8, log: seq<Sent>): Loop {
    if !w.urlAllowed(request.url) then Ended(Err(Guard), log)
    else if w.late(start, log) then Ended(Err(CallTimeout), log)
    else if !w.headersValid(request.headers) then Ended(Err(InvalidHeader), log)
    else if w.credential(request.url).Err? then Ended(Err(Auth), log)
    else
      var sent := Sent(request.verb, request.url, request.headers, w.credential(request.url).value, request.body);
      var more := log + [sent];
      match w.answer(more)
      case Broken(timedOut) => Ended(Err(if timedOut then CallTimeout else TransportFailure), more)
      case Response(status, location, body) =>
        if IsRedirect(status) then Follow(w, max, request, hop, more, status, location)
        else if body.None? then Ended(Err(BodyTooLarge), more)
        else Ended(Ok(CallResponse(status, request.url, body.value)), more)
  }

  /** The loop after `n` iterations, or where it ended before. */
  function After(w: World, max: u8, request: Request, log: seq<Sent>, n: nat): Loop {
    if n == 0 then Going(request, 0, log) else
    match After(w, max, request, log, n - 1)
    case Ended(r, l) => Ended(r, l)
    case Going(req, hop, l) => Iterate(w, max, |log|, req, hop, l)
  }

  // ----- What every run keeps -----

  /** Sent to an allowed URL, with the credential for that very URL. */
  ghost predicate Vetted(w: World, sent: Sent) {
    w.urlAllowed(sent.url) && w.credential(sent.url) == Ok(sent.credential)
  }

  /** The original verb and body, or a bare GET. */
  predicate OriginalOrBare(request: Request, verb: string, body: Option<string>) {
    (verb, body) == (request.verb, request.body) || (verb, body) == ("GET", None)
  }

  /** Past `start`, every request is vetted, and once a request is a bare GET all later ones are. */
  ghost predicate GoodLog(w: World, request: Request, log: seq<Sent>, start: nat) {
    && (forall i | start <= i < |log| ::
          Vetted(w, log[i]) && OriginalOrBare(request, log[i].verb, log[i].body) && log[i].headers == request.headers)
    && (forall i, j | start <= i <= j < |log| && log[i].verb == "GET" && log[i].body == None ::
          log[j].verb == "GET" && log[j].body == None)
  }

  ghost predicate GoodLoop(w: World, request: Request, start: nat, l: Loop) {
    && start <= |l.log| && GoodLog(w, request, l.log, start)
    && (l.Going? ==>
          && OriginalOrBare(request, l.request.verb, l.request.body)
          && l.request.headers == request.headers
          && (|l.log| > start && l.log[|l.log| - 1].verb == "GET" && l.log[|l.log| - 1].body == None ==>
                l.request.verb == "GET" && l.request.body == None))
  }

  lemma GoodLogAppend(w: World, request: Request, log: seq<Sent>, start: nat, sent: Sent)
    requires start <= |log| && GoodLog(w, request, log, start)
    requires Vetted(w, sent) && OriginalOrBare(request, sent.verb, sent.body) && sent.headers == request.headers
    requires |log| > start && log[|log| - 1].verb == "GET" && log[|log| - 1].body == None ==>
      sent.verb == "GET" && sent.body == None
    ensures GoodLog(w, request, log + [sent], start)
  {
    forall i | start <= i < |log| && log[i].verb == "GET" && log[i].body == None
      ensures sent.verb == "GET" && sent.body == None
    {
      assert log[|log| - 1].verb == "GET" && log[|log| - 1].body == None;
    }
  }

  lemma IterateKeepsGood(w: World, max: u8, request: Request, start: nat, l: Loop)
    requires l.Going? && GoodLoop(w, request, start, l)
    ensures GoodLoop(w, request, start, Iterate(w, max, start, l.request, l.hop, l.log))
  {
    var r := l.request;
    if w.urlAllowed(r.url) && w.credential(r.url).Ok? {
      GoodLogAppend(w, request, l.log, start, Sent(r.verb, r.url, r.headers, w.credential(r.url).value, r.body));
    }
  }

  /** In every run each request is vetted, and keeps its verb and body or becomes a bare GET for good. */
  lemma {:induction false} EveryRequestIsVetted(w: World, max: u8, request: Request, log: seq<Sent>, n: nat)
    ensures GoodLoop(w, request, |log|, After(w, max, request, log, n))
    ensures log <= After(w, max, request, log, n).log
  {
    if n > 0 {
      EveryRequestIsVetted(w, max, request, log, n - 1);
      var before := After(w, max, request, log, n - 1);
      if before.Going? {
        IterateKeepsGood(w, max, request, |log|, before);
      }
    }
  }

  // ----- From one request to the next -----

  /**
   The answer to the last request of `log` sends the call on to a request like this: to the URL its Location
   text names. After 307 and 308 verb and body are repeated; after 301, 302 and 303 only those of a GET are,
   and anything else becomes a GET without a body.
   */
  ghost predicate SendsOn(w: World, log: seq<Sent>, verb: string, url: Url, body: Option<string>)
    requires log != []
  {
    var last, reply := log[|log| - 1], w.answer(log);
    && reply.Response? && reply.status in {301, 302, 303, 307, 308} && reply.location.Target?
    && w.resolve(last.url, reply.location.text) == Some(url)
    && (verb, body) == if reply.status in {307, 308} ||
      last.verb == "GET" then (last.verb, last.body) else ("GET", None)
  }

  /**
   The first request is the call's own, and each later one is what the answer to the one before it asks for;
   none is sent past the deadline or with headers that are none.
   */
  ghost predicate ReadsOff(w: World, request: Request, start: nat, log: seq<Sent>) {
    && (start < |log| ==>
      (log[start].verb, log[start].url, log[start].body) == (request.verb, request.url, request.body))
    && (forall i | start <= i < |log| :: !w.late(start, log[..i]) && w.headersValid(log[i].headers))
    && forall i | start < i < |log| :: SendsOn(w, log[..i], log[i].verb, log[i].url, log[i].body)
  }

  /** What the loop is about to send, when it goes on. */
  ghost predicate Pending(w: World, request: Request, start: nat, l: Loop) {
    l.Going? ==>
      if |l.log| <= start then l.request == request
      else SendsOn(w, l.log, l.request.verb, l.request.url, l.request.body)
  }

  /** Why the loop ended: with a response exactly when the last answer is no redirect and its body fits. */
  ghost predicate EndsOn(w: World, start: nat, l: Loop) {
    l.Ended? ==>
      if |l.log| <= start then l.result.Err? else
      match w.answer(l.log)
      case Broken(timedOut) => l.result == Err(if timedOut then CallTimeout else TransportFailure)
      case Response(status, _, body) =>
        if status in {301, 302, 303, 307, 308} then l.result.Err? && l.result != Err(BodyTooLarge)
        else if body.None? then l.result == Err(BodyTooLarge)
        else l.result == Ok(CallResponse(status, l.log[|l.log| - 1].url, body.value))
  }

  lemma ReadsOffAppend(w: World, request: Request, start: nat, log: seq<Sent>, sent: Sent)
    requires ReadsOff(w, request, start, log) && start <= |log|
    requires !w.late(start, log) && w.headersValid(sent.headers)
    requires if |log| == start then (sent.verb, sent.url, sent.body) == (request.verb, request.url, request.body)
             else SendsOn(w, log, sent.verb, sent.url, sent.body)
    ensures ReadsOff(w, request, start, log + [sent])
  {
    var more := log + [sent];
    forall i | start <= i < |more| ensures !w.late(start, more[..i]) && w.headersValid(more[i].headers) {
      assert more[..i] == log[..i];
      assert log[..|log|] == log;
    }
    forall i | start < i < |more| ensures SendsOn(w, more[..i], more[i].verb, more[i].url, more[i].body) {
      assert more[..i] == log[..i];
      assert log[..|log|] == log;
    }
  }

  ghost predicate Sendable(w: World, start: nat, r: Request, log: seq<Sent>) {
    w.urlAllowed(r.url) && !w.late(start, log) && w.headersValid(r.headers) && w.credential(r.url).Ok?
  }

  lemma IterateSends(w: World, max: u8, start: nat, r: Request, hop: u8, log: seq<Sent>)
    ensures var next := Iterate(w, max, start, r, hop, log);
      if Sendable(w, start, r, log)
      then next.log == log + [Sent(r.verb, r.url, r.headers, w.credential(r.url).value, r.body)]
      else next.Ended? && next.log == log && next.result.Err? && next.result != Err(BodyTooLarge)
  {
  }

  lemma LogReadsOff(w: World, max: u8, first: Request, start: nat, l: Loop)
    requires l.Going? && start <= |l.log| && ReadsOff(w, first, start, l.log) && Pending(w, first, start, l)
    ensures ReadsOff(w, first, start, Iterate(w, max, start, l.request, l.hop, l.log).log)
  {
    var r := l.request;
    IterateSends(w, max, start, r, l.hop, l.log);
    if Sendable(w, start, r, l.log) {
      ReadsOffAppend(w, first, start, l.log, Sent(r.verb, r.url, r.headers, w.credential(r.url).value, r.body));
    }
  }

  lemma AnswerSteers(w: World, max: u8, first: Request, start: nat, l: Loop)
    requires l.Going? && start <= |l.log|
    requires |l.log| > start ==> w.answer(l.log).Response? && w.answer(l.log).status in {301, 302, 303, 307, 308}
    ensures var next := Iterate(w, max, start, l.request, l.hop, l.log);
      Pending(w, first, start, next) && EndsOn(w, start, next)
  {
    IterateSends(w, max, start, l.request, l.hop, l.log);
  }

  /** In every run, each request is what the answer before it asks for, and the last answer decides the result. */
  lemma {:induction false} AnswersSteerTheCall(w: World, max: u8, request: Request, log: seq<Sent>, n: nat)
    ensures var l := After(w, max, request, log, n);
      && |log| <= |l.log| && ReadsOff(w, request, |log|, l.log)
      && Pending(w, request, |log|, l) && EndsOn(w, |log|, l)
  {
    if n > 0 {
      AnswersSteerTheCall(w, max, request, log, n - 1);
      var before := After(w, max, request, log, n - 1);
      if before.Going? {
        LogReadsOff(w, max, request, |log|, before);
        AnswerSteers(w, max, request, |log|, before);
      }
    }
  }

  // ----- How many requests -----

  /** Every iteration of a loop still going has sent one request; the last one may have sent one more. */
  lemma {:induction false} OneRequestPerIteration(w: World, max: u8, request: Request, log: seq<Sent>, n: nat)
    ensures var l := After(w, max, request, log, n);
      if l.Going? then |l.log| == |log| + n else |log| <= |l.log| <= |log| + n
  {
    if n > 0 {
      OneRequestPerIteration(w, max, request, log, n - 1);
    }
  }

  /** With a cap below 255 a loop still going has followed as many redirects as it has made iterations. */
  lemma {:induction false} HopsCountRequests(w: World, max: u8, request: Request, log: seq<Sent>, n: nat)
    requires max < U8_MAX
    ensures var l := After(w, max, request, log, n);
      && (l.Going? ==> l.hop == n <= max && |l.log| == |log| + n)
      && (l.Ended? ==> |log| <= |l.log| <= |log| + max + 1)
      && (forall m | l == Ended(Err(TooManyRedirects(m)), l.log) :: m == max && |l.log| == |log| + max + 1)
  {
    if n > 0 {
      HopsCountRequests(w, max, request, log, n - 1);
    }
  }

  /** Time passes: a call that has sent enough requests is past its deadline. */
  ghost predicate ClockRuns(w: World) {
    forall start: nat :: RunsOut(w, start)
  }

  ghost predicate RunsOut(w: World, start: nat) {
    exists enough: nat :: LateAfter(w, start, enough)
  }

  ghost predicate LateAfter(w: World, start: nat, enough: nat) {
    forall log | |log| >= start + enough :: w.late(start, log)
  }

  ghost predicate Ends(w: World, max: u8, request: Request, log: seq<Sent>) {
    exists n :: After(w, max, request, log, n).Ended?
  }

  /** What makes every call end: a cap the hop counter can pass, or a clock that runs. */
  ghost predicate Stops(w: World, max: u8) {
    max < U8_MAX || ClockRuns(w)
  }

  lemma EveryCallEnds(w: World, max: u8, request: Request, log: seq<Sent>)
    requires Stops(w, max)
    ensures Ends(w, max, request, log)
  {
    if max < U8_MAX {
      HopsCountRequests(w, max, request, log, max + 1);
      assert After(w, max, request, log, max + 1).Ended?;
    } else {
      assert RunsOut(w, |log|);
      var enough: nat :| LateAfter(w, |log|, enough);
      OneRequestPerIteration(w, max, request, log, enough);
      assert After(w, max, request, log, enough).Going? ==> w.late(|log|, After(w, max, request, log, enough).log);
      assert After(w, max, request, log, enough + 1).Ended?;
    }
  }

  /** A server that redirects for ever, to the URL it was asked for, and a deadline that allows `patience` requests. */
  function Maze(patience: nat): World {
    World(_ => true, _ => true, _ => Ok(None), (start: nat, log) => |log| >= start + patience,
          _ => Response(302, Target(""), None), (url, _) => Some(url), _ => NoCursor)
  }

  lemma MazeHasAClock(patience: nat)
    ensures ClockRuns(Maze(patience))
  {
    forall start: nat ensures RunsOut(Maze(patience), start) {
      assert LateAfter(Maze(patience), start, patience);
    }
  }

  lemma {:induction false} MazeGoesOn(patience: nat, request: Request, n: nat)
    requires n <= patience
    ensures var l := After(Maze(patience), U8_MAX, request, [], n); l.Going? && |l.log| == n
  {
    if n > 0 {
      MazeGoesOn(patience, request, n - 1);
    }
  }

  /** In no world with a running clock does a call send more than `bound` requests. */
  ghost predicate AtMostRequests(max: u8, request: Request, bound: nat) {
    forall w, n: nat | ClockRuns(w) :: |After(w, max, request, [], n).log| <= bound
  }

  /**
   max_redirects bounds the requests of a call exactly when it is below 255. At 255 the 8-bit hop counter
   wraps before it passes its cap, and only the deadline ends the call.
   */
  lemma CapBoundsRequestsIffBelow255(max: u8, request: Request)
    ensures (exists bound :: AtMostRequests(max, request, bound)) <==> max < 255
  {
    if max < U8_MAX {
      forall w, n: nat | ClockRuns(w) ensures |After(w, max, request, [], n).log| <= max + 1 {
        HopsCountRequests(w, max, request, [], n);
      }
      assert AtMostRequests(max, request, max + 1);
    } else {
      forall bound: nat ensures !AtMostRequests(max, request, bound) {
        MazeHasAClock(bound + 1);
        MazeGoesOn(bound + 1, request, bound + 1);
        assert |After(Maze(bound + 1), max, request, [], bound + 1).log| > bound;
      }
    }
  }

  // ----- The loop as the code runs it -----

  lemma {:induction false} EndedStays(w: World, max: u8, request: Request, log: seq<Sent>, m: nat, n: nat)
    requires m <= n
    ensures After(w, max, request, log, m).Ended? ==> After(w, max, request, log, n) == After(w, max, request, log, m)
  {
    if m < n {
      EndedStays(w, max, request, log, m, n - 1);
    }
  }

  /** The outcome of a whole call: its result, and the log with its requests appended. */
  ghost function SendAll(w: World, max: u8, request: Request, log: seq<Sent>): (l: Loop)
    requires Stops(w, max)
    ensures l.Ended?
  {
    EveryCallEnds(w, max, request, log);
    var n :| After(w, max, request, log, n).Ended?;
    After(w, max, request, log, n)
  }

  /** Wherever the loop is found ended, it has the outcome of the whole call. */
  lemma EndIsTheOutcome(w: World, max: u8, request: Request, log: seq<Sent>, n: nat)
    requires Stops(w, max) && After(w, max, request, log, n).Ended?
    ensures SendAll(w, max, request, log) == After(w, max, request, log, n)
  {
    EveryCallEnds(w, max, request, log);
    var m: nat :| After(w, max, request, log, m).Ended? &&
      SendAll(w, max, request, log) == After(w, max, request, log, m);
    EndedStays(w, max, request, log, m, if m <= n then n else m);
    EndedStays(w, max, request, log, n, if m <= n then n else m);
  }

  lemma OutcomeIsAnEnd(w: World, max: u8, request: Request, log: seq<Sent>) returns (n: nat)
    requires Stops(w, max)
    ensures SendAll(w, max, request, log) == After(w, max, request, log, n)
  {
    EveryCallEnds(w, max, request, log);
    n :| After(w, max, request, log, n).Ended?;
    EndIsTheOutcome(w, max, request, log, n);
  }

  method Send(w: World, max: u8, first: Request, log: seq<Sent>)
    returns (r: Result<CallResponse, CallError>, sent: seq<Sent>)
    requires Stops(w, max)
    ensures SendAll(w, max, first, log) == Ended(r, sent)
  {
    var request, hop: u8 := first, 0;
    ghost var n := 0;
    EveryCallEnds(w, max, first, log);
    ghost var last: nat :| After(w, max, first, log, last).Ended?;
    sent := log;
    while true
      invariant n <= last && After(w, max, first, log, n) == Going(request, hop, sent)
      decreases last - n
    {
      OneMoreIteration(w, max, first, log, n, last);
      n := n + 1;
      if !w.urlAllowed(request.url) { return Err(Guard), sent; }
      if w.late(|log|, sent) { return Err(CallTimeout), sent; }
      if !w.headersValid(request.headers) { return Err(InvalidHeader), sent; }
      var credential := w.credential(request.url);
      if credential.Err? { return Err(Auth), sent; }
      sent := sent + [Sent(request.verb, request.url, request.headers, credential.value, request.body)];
      var reply := w.answer(sent);
      if reply.Broken? { return Err(if reply.timedOut then CallTimeout else TransportFailure), sent; }
      if !IsRedirect(reply.status) {
        if reply.body.None? { return Err(BodyTooLarge), sent; }
        return Ok(CallResponse(reply.status, request.url, reply.body.value)), sent;
      }
      hop := WrapAdd(hop, 1, U8_MAX);
      if hop > max { return Err(TooManyRedirects(max)), sent; }
      if reply.location.Absent? { return Err(MissingLocation), sent; }
      if reply.location.Unreadable? { return Err(InvalidLocation), sent; }
      var url := w.resolve(request.url, reply.location.text);
      if url.None? { return Err(InvalidLocation), sent; }
      var (verb, body) := Downgrade(request.verb, request.body, reply.status);
      request := Request(verb, url.value, request.headers, body);
    }
  }

  /** An iteration that ends gives the outcome of the whole call; one that goes on is not the last. */
  lemma OneMoreIteration(w: World, max: u8, first: Request, log: seq<Sent>, n: nat, last: nat)
    requires Stops(w, max) && n <= last && After(w, max, first, log, last).Ended? && After(w, max, first, log, n).Going?
    ensures var l := After(w, max, first, log, n);
      var next := Iterate(w, max, |log|, l.request, l.hop, l.log);
      && After(w, max, first, log, n + 1) == next
      && (next.Ended? ==> SendAll(w, max, first, log) == next)
      && n < last
  {
    if After(w, max, first, log, n + 1).Ended? {
      EndIsTheOutcome(w, max, first, log, n + 1);
    }
  }
}
