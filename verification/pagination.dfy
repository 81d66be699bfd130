/** Fetching the pages of one call: each next page is the last response's URL with the new cursor set. */
module Paging {
  import opened Wrappers
  import opened MachineInts
  import opened Transport

  datatype Pagination = Single | Cursor(param: string)

  datatype PageError = Call(error: CallError) | PageCapExceeded(max: nat) | ResponseNotJson | CursorNotString

  // ----- Query parameters -----

  function Without(query: seq<(string, string)>, key: string): seq<(string, string)> {
    if query == [] then [] else
    var last := query[|query| - 1];
    Without(query[..|query| - 1], key) + if last.0 == key then [] else [last]
  }

  /** Replaces, or adds at the end, one key; the other pairs keep their order. */
  function SetQueryParam(url: Url, key: string, value: string): Url {
    url.(query := Without(url.query, key) + [(key, value)])
  }

  /** Filtering looks at each pair alone, so what is kept keeps its order. */
  lemma {:induction false} WithoutConcat(a: seq<(string, string)>, b: seq<(string, string)>, key: string)
    ensures Without(a + b, key) == Without(a, key) + Without(b, key)
  {
    if b == [] {
      assert a + b == a;
    } else {
      var init := b[..|b| - 1];
      assert (a + b)[..|a + b| - 1] == a + init;
      WithoutConcat(a, init, key);
    }
  }

  lemma {:induction false} WithoutTwice(query: seq<(string, string)>, key: string)
    ensures Without(Without(query, key), key) == Without(query, key)
  {
    if query != [] {
      var last := query[|query| - 1];
      WithoutTwice(query[..|query| - 1], key);
      WithoutConcat(Without(query[..|query| - 1], key), if last.0 == key then [] else [last], key);
    }
  }

  /** Setting a key again forgets the value set before, and only that. */
  lemma SettingAgain(url: Url, key: string, a: string, b: string)
    ensures SetQueryParam(SetQueryParam(url, key, a), key, b) == SetQueryParam(url, key, b)
  {
    WithoutConcat(Without(url.query, key), [(key, a)], key);
    WithoutTwice(url.query, key);
    assert Without([(key, a)], key) == [];
  }

  /** `kept` is what stands in `query` at the positions `at`. */
  ghost predicate StandsAt(kept: seq<(string, string)>, query: seq<(string, string)>, at: seq<nat>) {
    |kept| == |at| && forall j | 0 <= j < |at| :: at[j] < |query| && kept[j] == query[at[j]]
  }

  ghost predicate Rising(at: seq<nat>) {
    forall i, j | 0 <= i < j < |at| :: at[i] < at[j]
  }

  /** `at` lists, in order, the positions of the pairs with other keys. */
  ghost predicate AreOthers(at: seq<nat>, query: seq<(string, string)>, key: string) {
    Rising(at) && forall i: nat :: i in at <==> i < |query| && query[i].0 != key
  }

  lemma {:induction false} OthersAreKept(query: seq<(string, string)>, key: string) returns (at: seq<nat>)
    ensures AreOthers(at, query, key) && StandsAt(Without(query, key), query, at)
  {
    at := [];
    if query != [] {
      var init, n := query[..|query| - 1], |query| - 1;
      var before := OthersAreKept(init, key);
      forall j | 0 <= j < |before| ensures before[j] < n {
        assert before[j] in before;
      }
      at := before + if query[n].0 == key then [] else [n];
      forall i: nat ensures i in at <==> i < |query| && query[i].0 != key {
        assert i in before <==> i < n && init[i].0 != key;
      }
    }
  }

  /**
   Setting a key leaves the place alone and, of the query, every pair of another key, in order; the new pair is
   last.
   */
  lemma SettingKeepsTheRest(url: Url, key: string, value: string) returns (at: seq<nat>)
    ensures var r := SetQueryParam(url, key, value);
      && r.place == url.place && r.query != [] && r.query[|r.query| - 1] == (key, value)
      && AreOthers(at, url.query, key) && StandsAt(r.query[..|r.query| - 1], url.query, at)
  {
    at := OthersAreKept(url.query, key);
    assert SetQueryParam(url, key, value).query[..|Without(url.query, key)|] == Without(url.query, key);
  }

  // ----- The next page -----

  function NextRequest(w: World, p: Pagination, response: CallResponse): Result<Option<Request>, PageError> {
    if p.Single? then Ok(None) else
    match w.cursor(response.body)
    case NotJson => Err(ResponseNotJson)
    case NoCursor => Ok(None)
    case NotString => Err(CursorNotString)
    case NextCursor(text) => Ok(Some(Request("GET", SetQueryParam(response.url, p.param, text), map[], None)))
  }

  datatype PageRun = PageRun(result: Result<seq<CallResponse>, PageError>, log: seq<Sent>)

  /** The run that still has `request` to send after `pages`. */
  ghost function PagesFrom(w: World, max: u8, p: Pagination, maxPages: nat, request: Request,
                     pages: seq<CallResponse>, log: seq<Sent>): PageRun
    requires Stops(w, max)
    decreases if |pages| < maxPages then maxPages - |pages| else 0
  {
    if |pages| >= maxPages then PageRun(Err(PageCapExceeded(maxPages)), log) else
    var call := SendAll(w, max, request, log);
    if call.result.Err? then PageRun(Err(Call(call.result.error)), call.log) else
    match NextRequest(w, p, call.result.value)
    case Err(e) => PageRun(Err(e), call.log)
    case Ok(None) => PageRun(Ok(pages + [call.result.value]), call.log)
    case Ok(Some(next)) => PagesFrom(w, max, p, maxPages, next, pages + [call.result.value], call.log)
  }

  method Paginate(w: World, max: u8, first: Request, p: Pagination, maxPages: nat, log: seq<Sent>)
    returns (r: Result<seq<CallResponse>, PageError>, sent: seq<Sent>)
    requires Stops(w, max)
    ensures PageRun(r, sent) == PagesFrom(w, max, p, maxPages, first, [], log)
  {
    var pages: seq<CallResponse> := [];
    var request := Some(first);
    sent := log;
    while request.Some?
      invariant request.Some? ==>
        PagesFrom(w, max, p, maxPages, request.value, pages, sent) == PagesFrom(w, max, p, maxPages, first, [], log)
      invariant request.None? ==> PageRun(Ok(pages), sent) == PagesFrom(w, max, p, maxPages, first, [], log)
      invariant |pages| <= maxPages
      decreases maxPages - |pages|, request.Some?
    {
      if |pages| >= maxPages {
        return Err(PageCapExceeded(maxPages)), sent;
      }
      var response;
      response, sent := Send(w, max, request.value, sent);
      if response.Err? {
        return Err(Call(response.error)), sent;
      }
      var next := NextRequest(w, p, response.value);
      if next.Err? {
        return Err(next.error), sent;
      }
      request := next.value;
      pages := pages + [response.value];
    }
    r := Ok(pages);
  }

  // ----- What a run of pages guarantees -----

  lemma OneLess(left: nat, m: nat)
    requires left > 0
    ensures left * m == (left - 1) * m + m && (left - 1) * m >= 0
  {
  }

  /** At most `maxPages` sends, so at most `maxPages * (max + 1)` requests below the cap of 255. */
  lemma {:induction false} RequestsAreBounded(w: World, max: u8, p: Pagination, maxPages: nat, request: Request,
                                              pages: seq<CallResponse>, log: seq<Sent>)
    requires Stops(w, max) && |pages| <= maxPages
    ensures var run := PagesFrom(w, max, p, maxPages, request, pages, log);
      && |log| <= |run.log| && (max < U8_MAX ==> |run.log| <= |log| + (maxPages - |pages|) * (max + 1))
      && (run.result.Ok? ==> |pages| < |run.result.value| <= maxPages)
    decreases maxPages - |pages|
  {
    if |pages| < maxPages {
      var call := SendAll(w, max, request, log);
      var n := OutcomeIsAnEnd(w, max, request, log);
      OneRequestPerIteration(w, max, request, log, n);
      if max < U8_MAX {
        HopsCountRequests(w, max, request, log, n);
      }
      OneLess(maxPages - |pages|, max + 1);
      if call.result.Ok? {
        var next := NextRequest(w, p, call.result.value);
        if next.Ok? && next.value.Some? {
          RequestsAreBounded(w, max, p, maxPages, next.value.value, pages + [call.result.value], call.log);
        }
      }
    }
  }

  /** Every page but the last holds a cursor, and the last holds none; without pagination there is one page. */
  ghost predicate Chained(w: World, p: Pagination, pages: seq<CallResponse>) {
    && pages != []
    && (p.Single? ==> |pages| == 1)
    && (p.Cursor? ==> forall i | 0 <= i < |pages| - 1 :: w.cursor(pages[i].body).NextCursor?)
    && (p.Cursor? ==> w.cursor(pages[|pages| - 1].body).NoCursor?)
  }

  /** Success means the pagination completed: no run that returns pages stops short or runs on. */
  lemma {:induction false} SuccessMeansComplete(w: World, max: u8, p: Pagination, maxPages: nat, request: Request,
                                                pages: seq<CallResponse>, log: seq<Sent>)
    requires Stops(w, max)
    requires p.Single? ==> pages == []
    requires p.Cursor? ==> forall i | 0 <= i < |pages| :: w.cursor(pages[i].body).NextCursor?
    ensures var run := PagesFrom(w, max, p, maxPages, request, pages, log);
      run.result.Ok? ==> Chained(w, p, run.result.value) && pages <= run.result.value
    decreases if |pages| < maxPages then maxPages - |pages| else 0
  {
    if |pages| < maxPages {
      var call := SendAll(w, max, request, log);
      if call.result.Ok? {
        var next := NextRequest(w, p, call.result.value);
        if next.Ok? && next.value.Some? {
          SuccessMeansComplete(w, max, p, maxPages, next.value.value, pages + [call.result.value], call.log);
        }
      }
    }
  }

  /** The last answer, since `start`, decides how a run of pages ends. */
  ghost predicate EndsAsRead(w: World, p: Pagination, maxPages: nat, start: nat, run: PageRun) {
    match run.result
    case Ok(_) => true
    case Err(PageCapExceeded(n)) => n == maxPages && (maxPages > 0 ==> LeadsOn(w, p, run.log))
    case Err(ResponseNotJson) =>
      p.Cursor? && LastBody(w, run.log).Some? && w.cursor(LastBody(w, run.log).value).NotJson?
    case Err(CursorNotString) =>
      p.Cursor? && LastBody(w, run.log).Some? && w.cursor(LastBody(w, run.log).value).NotString?
    case Err(Call(_)) => |run.log| > start && IsPage(w, run.log) ==> LeadsOn(w, p, run.log)
  }

  /** The last answer is a page, and not a redirect or a failure. */
  ghost predicate IsPage(w: World, log: seq<Sent>) {
    var reply := w.answer(log);
    reply.Response? && reply.status !in {301, 302, 303, 307, 308} && reply.body.Some?
  }

  ghost predicate LeadsOn(w: World, p: Pagination, log: seq<Sent>) {
    p.Cursor? && LastBody(w, log).Some? && w.cursor(LastBody(w, log).value).NextCursor?
  }

  /** The body of the last answer, if that was a response that counts. */
  ghost function LastBody(w: World, log: seq<Sent>): Option<string> {
    match w.answer(log)
    case Broken(_) => None
    case Response(_, _, body) => body
  }

  lemma ResponsesAreLastBodies(w: World, max: u8, request: Request, log: seq<Sent>)
    requires Stops(w, max)
    ensures var call := SendAll(w, max, request, log);
      && (call.result.Ok? ==> LastBody(w, call.log) == Some(call.result.value.body))
      && (call.result.Err? ==> call.log == log || !IsPage(w, call.log))
  {
    var n := OutcomeIsAnEnd(w, max, request, log);
    AnswersSteerTheCall(w, max, request, log, n);
    EveryRequestIsVetted(w, max, request, log, n);
  }

  /** A run stops at the cap only while a cursor leads on, and otherwise for what the last page's body is. */
  lemma {:induction false} PagesEndAsRead(w: World, max: u8, p: Pagination, maxPages: nat, start: nat, request: Request,
                                          pages: seq<CallResponse>, log: seq<Sent>)
    requires Stops(w, max)
    requires |log| > start || |pages| >= maxPages > 0 ==> LeadsOn(w, p, log)
    ensures EndsAsRead(w, p, maxPages, start, PagesFrom(w, max, p, maxPages, request, pages, log))
    decreases if |pages| < maxPages then maxPages - |pages| else 0
  {
    if |pages| < maxPages {
      var call := SendAll(w, max, request, log);
      ResponsesAreLastBodies(w, max, request, log);
      if call.result.Ok? {
        var next := NextRequest(w, p, call.result.value);
        if next.Ok? && next.value.Some? {
          PagesEndAsRead(w, max, p, maxPages, start, next.value.value, pages + [call.result.value], call.log);
        }
      }
    }
  }

  /** Every request of every page is vetted, redirects included. */
  lemma {:induction false} EveryPageIsVetted(w: World, max: u8, p: Pagination, maxPages: nat, request: Request,
                                             pages: seq<CallResponse>, log: seq<Sent>)
    requires Stops(w, max)
    ensures var run := PagesFrom(w, max, p, maxPages, request, pages, log);
      log <= run.log && forall i | |log| <= i < |run.log| :: Vetted(w, run.log[i])
    decreases if |pages| < maxPages then maxPages - |pages| else 0
  {
    if |pages| < maxPages {
      var n := OutcomeIsAnEnd(w, max, request, log);
      EveryRequestIsVetted(w, max, request, log, n);
      var call := SendAll(w, max, request, log);
      if call.result.Ok? {
        var next := NextRequest(w, p, call.result.value);
        if next.Ok? && next.value.Some? {
          EveryPageIsVetted(w, max, p, maxPages, next.value.value, pages + [call.result.value], call.log);
        }
      }
    }
  }

  // ----- Without redirects -----

  /** The last request of `log` was answered with a redirect. */
  ghost predicate Redirected(w: World, log: seq<Sent>) {
    w.answer(log).Response? && IsRedirect(w.answer(log).status)
  }

  /** No request from position `start` on was answered with a redirect. */
  ghost predicate NoRedirects(w: World, log: seq<Sent>, start: nat) {
    forall n | start < n <= |log| :: !Redirected(w, log[..n])
  }

  /** The page that answered the last request of `log` leads to `url`: the first URL with that page's cursor. */
  ghost predicate LeadsTo(w: World, param: string, first: Url, log: seq<Sent>, url: Url) {
    var reply := w.answer(log);
    && reply.Response? && reply.body.Some? && w.cursor(reply.body.value).NextCursor?
    && url == SetQueryParam(first, param, w.cursor(reply.body.value).text)
  }

  /** What the request after `log` asks for, if the run began at `start`. */
  ghost predicate AsksFor(w: World, param: string, first: Url, start: nat, log: seq<Sent>, url: Url) {
    if |log| <= start then url == first else LeadsTo(w, param, first, log, url)
  }

  lemma IterationOnlyAdds(w: World, max: u8, start: nat, request: Request, hop: u8, log: seq<Sent>)
    ensures log <= Iterate(w, max, start, request, hop, log).log
  {
  }

  lemma {:induction false} LogsOnlyGrow(w: World, max: u8, request: Request, log: seq<Sent>, m: nat, n: nat)
    requires m <= n
    ensures After(w, max, request, log, m).log <= After(w, max, request, log, n).log
  {
    if m < n {
      LogsOnlyGrow(w, max, request, log, m, n - 1);
      var before := After(w, max, request, log, n - 1);
      if before.Going? {
        IterationOnlyAdds(w, max, |log|, before.request, before.hop, before.log);
      }
    }
  }

  lemma FirstIteration(w: World, max: u8, request: Request, log: seq<Sent>)
    ensures After(w, max, request, log, 1) == Iterate(w, max, |log|, request, 0, log)
  {
    assert After(w, max, request, log, 0) == Going(request, 0, log);
  }

  /** A first iteration goes on only after a redirect; otherwise it has sent one request at most. */
  lemma OneIteration(w: World, max: u8, request: Request, log: seq<Sent>)
    ensures var l := Iterate(w, max, |log|, request, 0, log);
      && log <= l.log && |l.log| <= |log| + 1
      && (|l.log| == |log| + 1 ==> l.log[|log|].url == request.url)
      && (l.Going? ==> |l.log| == |log| + 1 && Redirected(w, l.log))
      && (l.Ended? && l.result.Ok? ==> |l.log| == |log| + 1 && l.result.value.url == request.url
                                       && w.answer(l.log).Response?
                                       && w.answer(l.log).body == Some(l.result.value.body))
  {
  }

  /** A call that goes on after its first iteration has met a redirect there. */
  lemma GoingOnMeansRedirected(w: World, max: u8, request: Request, log: seq<Sent>)
    requires Stops(w, max) && After(w, max, request, log, 1).Going?
    ensures var l := SendAll(w, max, request, log); |log| < |l.log| && Redirected(w, l.log[..|log| + 1])
  {
    var l, one := SendAll(w, max, request, log), After(w, max, request, log, 1);
    FirstIteration(w, max, request, log);
    OneIteration(w, max, request, log);
    var n := OutcomeIsAnEnd(w, max, request, log);
    LogsOnlyGrow(w, max, request, log, 1, n);
    assert one.log == l.log[..|log| + 1];
  }

  /** A call that meets no redirect ends with its first iteration. */
  lemma DirectCall(w: World, max: u8, request: Request, log: seq<Sent>)
    requires Stops(w, max) && NoRedirects(w, SendAll(w, max, request, log).log, |log|)
    ensures SendAll(w, max, request, log) == Iterate(w, max, |log|, request, 0, log)
  {
    FirstIteration(w, max, request, log);
    if After(w, max, request, log, 1).Going? {
      GoingOnMeansRedirected(w, max, request, log);
    } else {
      EndIsTheOutcome(w, max, request, log, 1);
    }
  }

  lemma RedirectsAreSeenAgain(w: World, a: seq<Sent>, b: seq<Sent>, start: nat, from: nat)
    requires a <= b && start <= from && NoRedirects(w, b, start)
    ensures NoRedirects(w, a, start) && NoRedirects(w, b, from)
  {
    forall n | start < n <= |a| ensures !Redirected(w, a[..n]) {
      assert a[..n] == b[..n];
    }
  }

  /** The next page's URL sets the cursor on the first URL, whatever cursor was set before. */
  lemma NextPageLeadsOn(w: World, param: string, first: Url, start: nat, log: seq<Sent>, url: Url, more: seq<Sent>,
                        body: string)
    requires AsksFor(w, param, first, start, log, url) && |more| == |log| + 1 && |log| >= start
    requires w.answer(more).Response? && w.answer(more).body == Some(body) && w.cursor(body).NextCursor?
    ensures AsksFor(w, param, first, start, more, SetQueryParam(url, param, w.cursor(body).text))
  {
    if |log| > start {
      SettingAgain(first, param, w.cursor(w.answer(log).body.value).text, w.cursor(body).text);
    }
  }

  /** The request at position `i` asks for the first URL, or for it with the cursor of the page before. */
  ghost predicate AskedInOrder(w: World, param: string, first: Url, start: nat, log: seq<Sent>) {
    forall i | start <= i < |log| :: AsksFor(w, param, first, start, log[..i], log[i].url)
  }

  lemma OneMoreAsked(w: World, param: string, first: Url, start: nat, log: seq<Sent>, more: seq<Sent>)
    requires AskedInOrder(w, param, first, start, log) && start <= |log| && log <= more && |more| <= |log| + 1
    requires |more| == |log| + 1 ==> AsksFor(w, param, first, start, log, more[|log|].url)
    ensures AskedInOrder(w, param, first, start, more)
  {
    forall i | start <= i < |more| ensures AsksFor(w, param, first, start, more[..i], more[i].url) {
      assert i <= |log| && more[..i] == log[..i];
      if i == |log| {
        assert log[..i] == log;
      }
    }
  }

  /**
   Without redirects, whatever the result: the first request asks for the first URL, and every later one
   for the first URL's query pairs minus the cursor key, in order, followed by exactly one pair with the
   cursor of the page before it.
   */
  lemma {:induction false} CursorIsTheOnlyChange(w: World, max: u8, param: string, maxPages: nat, first: Url,
                                                 request: Request, pages: seq<CallResponse>, start: nat, log: seq<Sent>)
    requires Stops(w, max) && start <= |log| && AskedInOrder(w, param, first, start, log)
    requires AsksFor(w, param, first, start, log, request.url)
    requires NoRedirects(w, PagesFrom(w, max, Cursor(param), maxPages, request, pages, log).log, |log|)
    ensures AskedInOrder(w, param, first, start, PagesFrom(w, max, Cursor(param), maxPages, request, pages, log).log)
    decreases if |pages| < maxPages then maxPages - |pages| else 0
  {
    if |pages| < maxPages {
      var run, call := PagesFrom(w, max, Cursor(param), maxPages, request, pages, log), SendAll(w, max, request, log);
      RunsOnlyAdd(w, max, Cursor(param), maxPages, request, pages, log);
      RedirectsAreSeenAgain(w, call.log, run.log, |log|, |log|);
      DirectCall(w, max, request, log);
      OneIteration(w, max, request, log);
      OneMoreAsked(w, param, first, start, log, call.log);
      if call.result.Ok? {
        var response := call.result.value;
        var next := NextRequest(w, Cursor(param), response);
        if next.Ok? && next.value.Some? {
          NextPageLeadsOn(w, param, first, start, log, request.url, call.log, response.body);
          RedirectsAreSeenAgain(w, call.log, run.log, |log|, |call.log|);
          CursorIsTheOnlyChange(w, max, param, maxPages, first, next.value.value, pages + [response], start, call.log);
        }
      }
    }
  }

  lemma RunsOnlyAdd(w: World, max: u8, p: Pagination, maxPages: nat, request: Request, pages: seq<CallResponse>,
                    log: seq<Sent>)
    requires Stops(w, max) && |pages| < maxPages
    ensures log <= SendAll(w, max, request, log).log <= PagesFrom(w, max, p, maxPages, request, pages, log).log
  {
    var n := OutcomeIsAnEnd(w, max, request, log);
    EveryRequestIsVetted(w, max, request, log, n);
    var call := SendAll(w, max, request, log);
    if call.result.Ok? {
      var next := NextRequest(w, p, call.result.value);
      if next.Ok? && next.value.Some? {
        EveryPageIsVetted(w, max, p, maxPages, next.value.value, pages + [call.result.value], call.log);
      }
    }
  }

  function PageUrls(pages: seq<CallResponse>): seq<Url> {
    seq(|pages|, i requires 0 <= i < |pages| => pages[i].url)
  }

  function SentUrls(log: seq<Sent>): seq<Url> {
    seq(|log|, i requires 0 <= i < |log| => log[i].url)
  }

  /** The pages a redirect-free run returns come from the URLs it asked for, one each, in order. */
  lemma {:induction false} PagesComeFromTheirRequests(w: World, max: u8, p: Pagination, maxPages: nat, request: Request,
                                                      pages: seq<CallResponse>, log: seq<Sent>)
    requires Stops(w, max) && NoRedirects(w, PagesFrom(w, max, p, maxPages, request, pages, log).log, |log|)
    ensures var run := PagesFrom(w, max, p, maxPages, request, pages, log);
      && log <= run.log
      && (run.result.Ok? ==> pages <= run.result.value &&
                             PageUrls(run.result.value[|pages|..]) == SentUrls(run.log[|log|..]))
    decreases if |pages| < maxPages then maxPages - |pages| else 0
  {
    if |pages| < maxPages {
      var run, call := PagesFrom(w, max, p, maxPages, request, pages, log), SendAll(w, max, request, log);
      RunsOnlyAdd(w, max, p, maxPages, request, pages, log);
      RedirectsAreSeenAgain(w, call.log, run.log, |log|, |log|);
      DirectCall(w, max, request, log);
      OneIteration(w, max, request, log);
      if call.result.Ok? && run.result.Ok? {
        var next := NextRequest(w, p, call.result.value);
        if next.value.Some? {
          RedirectsAreSeenAgain(w, call.log, run.log, |log|, |call.log|);
          PagesComeFromTheirRequests(w, max, p, maxPages, next.value.value, pages + [call.result.value], call.log);
        }
        FirstPageThenTheRest(pages, call.result.value, run.result.value, log, call.log, run.log);
      }
    }
  }

  lemma FirstPageThenTheRest(pages: seq<CallResponse>, response: CallResponse, all: seq<CallResponse>,
                             log: seq<Sent>, more: seq<Sent>, sent: seq<Sent>)
    requires log <= more <= sent && |more| == |log| + 1 && more[|log|].url == response.url
    requires pages + [response] <= all && PageUrls(all[|pages| + 1..]) == SentUrls(sent[|more|..])
    ensures pages <= all && PageUrls(all[|pages|..]) == SentUrls(sent[|log|..])
  {
    assert all[|pages|..] == [response] + all[|pages| + 1..];
    assert sent[|log|..] == [more[|log|]] + sent[|more|..];
    assert PageUrls(all[|pages|..]) == [response.url] + PageUrls(all[|pages| + 1..]);
    assert SentUrls(sent[|log|..]) == [response.url] + SentUrls(sent[|more|..]);
  }

  // ----- What later pages carry -----

  ghost predicate Bare(sent: Sent) {
    sent.verb == "GET" && sent.headers == map[] && sent.body == None
  }

  lemma {:induction false} BareRunsStayBare(w: World, max: u8, p: Pagination, maxPages: nat, request: Request,
                                            pages: seq<CallResponse>, log: seq<Sent>)
    requires Stops(w, max) && request.verb == "GET" && request.headers == map[] && request.body == None
    ensures var run := PagesFrom(w, max, p, maxPages, request, pages, log);
      log <= run.log && forall i | |log| <= i < |run.log| :: Bare(run.log[i])
    decreases if |pages| < maxPages then maxPages - |pages| else 0
  {
    if |pages| < maxPages {
      var call := SendAll(w, max, request, log);
      var n := OutcomeIsAnEnd(w, max, request, log);
      EveryRequestIsVetted(w, max, request, log, n);
      if call.result.Ok? {
        var next := NextRequest(w, p, call.result.value);
        if next.Ok? && next.value.Some? {
          BareRunsStayBare(w, max, p, maxPages, next.value.value, pages + [call.result.value], call.log);
        }
      }
    }
  }

  /**
   The call's own headers go out with every request of the first page and with none of a later page: those
   are bare GETs, redirects included.
   */
  lemma HeadersStayOnTheFirstPage(w: World, max: u8, p: Pagination, maxPages: nat, request: Request, log: seq<Sent>)
    requires Stops(w, max) && maxPages > 0
    ensures var run, first := PagesFrom(w, max, p, maxPages, request, [], log), SendAll(w, max, request, log);
      && log <= first.log <= run.log
      && (forall i | |log| <= i < |first.log| :: run.log[i].headers == request.headers)
      && (forall i | |first.log| <= i < |run.log| :: Bare(run.log[i]))
  {
    var first := SendAll(w, max, request, log);
    var n := OutcomeIsAnEnd(w, max, request, log);
    EveryRequestIsVetted(w, max, request, log, n);
    if first.result.Ok? {
      var next := NextRequest(w, p, first.result.value);
      if next.Ok? && next.value.Some? {
        assert [] + [first.result.value] == [first.result.value];
        BareRunsStayBare(w, max, p, maxPages, next.value.value, [first.result.value], first.log);
      }
    }
  }
}
