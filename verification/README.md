# Verified model of the gateway's plan compiler and run-time

The gateway turns rows (services, api_calls, scripts, endpoints) into one immutable plan per endpoint and
runs that plan's tools against upstream APIs under budgets. This project models the parts whose correctness
is an argument rather than a lookup, and proves what they promise: for every input, every interleaving and
every run.

`dafny verify dfyconfig.toml` checks everything. One file is one module:

| file | module | what it models |
|---|---|---|
| `wrappers.dfy`, `machine_ints.dfy`, `unicode.dfy`, `json_values.dfy` | `Wrappers`, `MachineInts`, `Unicode`, `JsonValues` | options and results, unsigned widths with wrapping and saturating addition, UTF-8, JSON |
| `slugs.dfy`, `tag_expr.dfy` | `Slugs`, `TagExpressions` | slugs; the tag-expression tokenizer, parser, printer and evaluator |
| `reservation.dfy` | `Reservation` | the compare-exchange reservation loop under arbitrary interleaving |
| `fanout.dfy` | `FanOuts` | semaphore-bounded fan-out into index slots |
| `meter.dfy`, `batch.dfy`, `bridge.dfy` | `Meters`, `Batches`, `Bridges` | the budget meter, one batch, and the script bridge that strings batches into a run |
| `plan_cache.dfy`, `plan_builder.dfy` | `PlanCaches`, `PlanBuilding` | the generation-guarded plan cache with concurrent readers and writers; `build_plan` as the store reads a cache miss makes |
| `url_template.dfy`, `url_render.dfy`, `template_laws.dfy` | `UrlTemplates`, `UrlRendering`, `TemplateLaws` | path templates: parsing, printing, percent-encoded rendering; what they come to byte by byte |
| `orders.dfy` | `Orders` | the order of strings, and iteration in it |
| `definitions.dfy`, `tools.dfy`, `plans.dfy`, `plan_laws.dfy` | `Definitions`, `Tools`, `Plans`, `PlanLaws` | the definition records, tool naming, `build_plan`; what a plan comes to call by call and tool by tool |
| `digest.dfy` | `Digests` | input schemas, what a plan's digest is taken of and what it leaves out |
| `rows.dfy`, `pack_import.dfy`, `import_laws.dfy`, `reimport.dfy`, `pack_export.dfy` | `Rows`, `Imports`, `ImportLaws`, `Reimports`, `Exports` | what a store write reads back as, pack import, import twice, export and its inverse |
| `transport.dfy`, `pagination.dfy` | `Transport`, `Paging` | the redirect loop and the pagination loop |
| `marshal.dfy`, `digit_strings.dfy`, `bind_args.dfy` | `Marshal`, `DigitStrings`, `BindArgs` | JSON to script values and back, integers in strings, argument binding |

Loops of the program are methods with invariants. Each is proved against a function or relation on values,
and the theorems are lemmas about those. Objects that change in place (`BudgetMeter`, `Bridge`, `PlanCache`,
the definition store `Stores`) are classes; concurrent code (`reserve_calls`, `fan_out`, `get_or_build`) is a
step system whose runs are arbitrary schedules. Iteration over a `BTreeMap` is a loop that picks the least key
left; where the order cannot be seen in the result it picks any key, so what is proved holds for the sorted order
too. The order in which the store lists api_calls is a parameter.

## Where the code differs from what is said about it

Each of these is stated by a lemma and the exact condition is proved.

- **Overlapping writers can defeat the plan cache.** `bump_generation_in` reads the generation and later
  writes the value it read plus one (`src/store/meta.rs:59-85`), so two overlapping transactions can commit
  the same generation, or an older one. Any plan built in between then stays current by its tag.
  `PlanCaches.SafeExactlyWhenCommitsAreFresh`: the cache is safe for all readers exactly when no commit is stale.
  `PlanBuilding.PlansAreCurrentExactlyWhenCommitsAreFresh`: the same said of `build_plan` and real plans.
- **A hop cap of 255 bounds nothing.** `hop` is a `u8` that wraps before it passes such a cap
  (`src/http/send.rs:90,117`), so only the deadline ends the call. `Transport.CapBoundsRequestsIffBelow255`. No
  caller passes more than 5 (`src/runtime/mod.rs:135`, `src/cli/call.rs:44`, `src/server/api/test_run.rs:228`).
- **The largest byte or page ceiling, and no ceiling, let the counter wrap** (`src/runtime/budget.rs:203-260`).
  `Meters.ChargeIsExactIffCeilinged`; for calls `Meters.ReservationIsExactIffCeilinged`.
- **The four keywords are legal slugs but not printable tags** (`src/resolve/tag_expr.rs:103-106`).
  `TagExpressions.PrintThenParse` holds exactly without them.
- **Per-call timeouts can end a run.** The bridge's comment says a slow call stays a per-item failure
  (`src/script/bridge.rs:124-129`); when every call of a batch times out on its own, the script is terminated.
  `Bridges.TerminatedExactlyWhenAllTimeOut` gives the exact condition on the meter, the clock and the calls.
- **An empty `api_many` is answered with an empty list**, although the reply type says it never is
  (`src/script/bridge.rs:40-42`). `Bridges.RepliesAnswerEveryItem`.
- **Some rows do not survive a write and a read**: unsorted params, empty descriptions, a zero or oversized rate
  limit, a fixed script param, a script limit above 2^31 - 1 (which reads back as zero). A re-import reports
  "unchanged" exactly without them. `Rows.RowsSurviveExactlyWhenCanonical`,
  `Reimports.SecondReportIsNoOpIffCanonical`.
- **`reverse_aliases` says nothing prevents two aliases of one target** (`src/resolve/tools.rs:78-80`); the
  unique index `ux_endpoint_aliases_endpoint_target` does (`src/migration/m0005_endpoints.rs:188-193`), which
  is why `Imports.WriteEndpoint` refuses such an endpoint.
- **The double 2^63 is accepted as an integer and comes out one less** (`src/schema/coerce.rs:49-51`).
  `BindArgs.CoercedIntegers`: an accepted number keeps its value exactly when it is no double of 2^63 or more.
- **Defaults are bound unchecked** (`src/schema/validate.rs:87-89`), so binding a result again can fail.
  `BindArgs.RebindReturnsTheSameIffDefaultsAreStable`.
- **A literal `%2e%2e` segment is accepted** (`src/http/url_template.rs:163-168`). Values never make one.
  `UrlRendering.DecodedDotsComeFromLiterals`, `UrlRendering.EncodedDotsAreAccepted`.
- **One digest does not mean one behaviour**, although a plan's digest is said to guarantee it
  (`src/resolve/plan.rs:108-111`). Service rows, the calls' descriptions, the instructions, and of fixed params the
  description and a null default do not enter it (`src/resolve/digest.rs:24-52,83-94,121-137`).
  `Digests.DigestDecidesUpToUndigested`: plans of one digest are the same plan exactly when those agree too.
  `Digests.ServiceRowsAreNotDigested`: every plan has one of the same digest whose calls go to another origin.
- **Pages after the first carry none of the call's own headers** (`src/http/paginate.rs:91-96`).
  `Paging.HeadersStayOnTheFirstPage`: exactly the first page's requests, redirects included, carry them.

## Model

| member | source | states |
|---|---|---|
| Slugs.ParseSlug | src/model/slug.rs:36-56 | a string is accepted exactly when it is 1 to 64 characters of the slug alphabet, and unchanged |
| Slugs.ParseSlugReads | src/model/slug.rs:36-56 | accepted are exactly 1 to 64 of the 38 listed characters; otherwise empty, too long in bytes, or the first foreign character is reported |
| Unicode.Utf8Reads | src/model/slug.rs:43-48 | the bytes counted for a character are its UTF-8 form, which carries its code point |
| TagExpressions.Tokenize | src/resolve/tag_expr.rs:72-114 | the tokenizer loop computes the token sequence specified from each position |
| TagExpressions.TokenizesExactlyWhenLegible | src/resolve/tag_expr.rs:72-114 | by code points: a text is cut into tokens exactly when it holds nothing but word characters, parentheses and Latin-1 blanks; otherwise the first other character is reported |
| TagExpressions.ParseText | src/resolve/tag_expr.rs:48-59 | tokenizing and parsing a whole text; anything left over is an error |
| TagExpressions.ParseOr | src/resolve/tag_expr.rs:116-124 | the `or` loop advances and builds exactly what the specification function gives |
| TagExpressions.ParseAtom | src/resolve/tag_expr.rs:144-192 | parentheses, `has(...)` and expected tokens, with the same position and error |
| TagExpressions.ParserMeetsGrammar | src/resolve/tag_expr.rs:11-17 | a token list parses to a tree exactly when the documented grammar derives that tree from it |
| TagExpressions.GrammarIsUnambiguous | src/resolve/tag_expr.rs:11-17 | no token list has two trees: precedence and associativity are fixed |
| TagExpressions.ParsedTreeIsKeywordFree | src/resolve/tag_expr.rs:99-110 | the parser never yields a tag spelled like a keyword |
| TagExpressions.PrintThenParse | src/resolve/tag_expr.rs:39-46 | through characters and tokens, `parse(to_string(e)) == Ok(e)` exactly when no tag is a keyword |
| TagExpressions.ParseThenPrint | src/resolve/tag_expr.rs:19-25 | for every text that parses, the printed form parses back to the same tree |
| Reservation.StepKeepsInv | src/runtime/budget.rs:164-180 | every load and exchange of every caller keeps the history legal and the counter equal to what was granted |
| Reservation.Linearizable | src/runtime/budget.rs:145-150 | in every interleaving the calls take effect one at a time like "if used + n <= max then used += n"; the counter never passes the ceiling, each answer matches its effect, effects respect real-time order, every refusal has a moment within its call at which the calls admitted left no room, and no call changes the size it asks for |
| Reservation.StepShortensTheCall | src/runtime/budget.rs:172-179 | a lost exchange strictly narrows the gap to the ceiling |
| Reservation.EveryCallAnswers | src/runtime/budget.rs:165-180 | whatever the others do, a call answers within a bound set by the ceiling alone |
| Meters.ReserveIsTheAloneRun | src/runtime/budget.rs:151-181 | the sequential reservation is what a caller running alone computes with loads and exchanges |
| Meters.ReservationIsExactIffCeilinged | src/runtime/budget.rs:160-163 | admitted calls are all counted, for every use and batch, exactly when there is a ceiling |
| Meters.CommitInOrder | src/runtime/budget.rs:203-225 | the commit loop charges everything before the first index whose inclusive prefix sum passes what is left, and reports that index |
| Meters.CutIsUnique | src/runtime/budget.rs:196-202 | the trip position is determined by the amounts and the room alone |
| Meters.ChargeIsExact | src/runtime/budget.rs:209-223 | below the counter's maximum a charge neither wraps nor passes the ceiling |
| Meters.ChargeIsExactIffCeilinged | src/runtime/budget.rs:203-225 | charging is exact for all amounts and uses exactly when there is a ceiling below the counter's maximum |
| Meters.ChargeStaysUnder | src/runtime/budget.rs:211-223 | no charge carries a counter past its ceiling, the largest ceiling included |
| Meters.ByteCap | src/runtime/budget.rs:187-195 | the shared per-call cap never exceeds the call's own cap nor what is left, and is one of the two |
| Meters.PageCap | src/runtime/budget.rs:229-234 | the page cap is exactly what is left, and the counter's maximum without a ceiling |
| Meters.BudgetMeter.ReserveCalls | src/runtime/budget.rs:151-181 | all or nothing: the new state and answer are the atomic operation's; only the call counter may change |
| Meters.BudgetMeter.RemainingTime | src/runtime/budget.rs:130-144 | an error exactly once the deadline has passed, otherwise the exact time to it |
| Meters.BudgetMeter.CommitBytesInOrder | src/runtime/budget.rs:203-225 | the byte counter after an in-order commit and the tripping index; ceilings stay kept |
| Meters.BudgetMeter.CommitPagesInOrder | src/runtime/budget.rs:238-260 | the same for pages at their own width |
| FanOuts.Ceiling | src/runtime/fanout.rs:39-47 | a service's limit is at least one and otherwise the smaller of the service's and the budget's ceiling, no wider and no narrower |
| FanOuts.BuildLimits | src/runtime/fanout.rs:37-51 | one semaphore per service of the planned calls |
| FanOuts.FirstCallDecides | src/runtime/fanout.rs:37-51 | the first planned call on a service sizes its semaphore |
| FanOuts.OnlyPlannedServicesAreLimited | src/runtime/fanout.rs:37-51 | a service has a semaphore exactly when a planned call names it |
| FanOuts.RunningStaysWithinLimit | src/runtime/fanout.rs:72-90 | in every reachable state of every schedule, the items running on a service fit its limit |
| FanOuts.SomeItemCanAdvance | src/runtime/fanout.rs:72-95 | while an item is unfinished some item can step: no batch gets stuck |
| FanOuts.EveryScheduleFinishesAlike | src/runtime/fanout.rs:65-95 | every schedule ends after exactly two steps per item with item i's value in slot i, whatever the order |
| FanOuts.EachSlotFilledOnce | src/runtime/fanout.rs:84-95 | in every schedule an item starts once and fills its slot once |
| FanOuts.FanOut | src/runtime/fanout.rs:65-95 | the driver loop, choosing any ready item each time, returns the values in input order |
| Batches.RunBatch | src/runtime/partial.rs:155-260 | meter and outcome after a batch are a function of the prior meter, the clock and the per-index results: completion order cannot be seen |
| Batches.FanItems | src/runtime/partial.rs:191-204 | each call is dispatched with the shared budget and waits for its own service, an undeclared one for none of the plan's |
| Batches.CallsAreSentWithWhatIsLeft | src/runtime/partial.rs:175-189 | batches agree as soon as their calls answer alike to the one budget of bytes, pages and time left: every call is sent with that and no other |
| Batches.NothingIsAttemptedExactlyWhen | src/runtime/partial.rs:170-184 | from meter and clock: which batches are not attempted, on which axis, and what they cost |
| Batches.SettleBatch | src/runtime/partial.rs:207-260 | filtering, two commits, the cut at the smaller trip index (bytes on a tie), entries and status, against the index-wise specification |
| Batches.CollectTotals | src/runtime/partial.rs:207-217 | the charges are the completed calls in index order |
| Batches.FilteringIsHarmless | src/runtime/partial.rs:207-218 | leaving failed calls out of the charges moves neither the tripping index nor the amount charged |
| Batches.CutsAgree | src/runtime/partial.rs:220-248 | the single cut chosen by the match is the pointwise rule on both trip indices |
| Batches.StatusReading | src/runtime/partial.rs:278-296 | each status is equivalent to a plain statement about the entries, and together they cover all cases; a timeout counts as wall clock and a page cap as pages |
| Batches.StatusFollowsEntries | src/runtime/partial.rs:171-188 | also an unattempted or empty batch reports the status its entries call for |
| Batches.EveryItemIsAnswered | src/runtime/partial.rs:6-10 | always one entry per input, with index equal to position and the input's name |
| Batches.BatchIsCutOnce | src/runtime/partial.rs:219-248 | no completed entry follows a cut one, and all cut entries name one axis |
| Batches.KeptExactlyWithinBothBudgets | src/runtime/partial.rs:207-241 | a completed call keeps its value exactly when the bytes and the pages of the calls completed up to it fit what both ceilings left |
| Batches.NothingKeptWithoutPages | src/runtime/partial.rs:185 | with no pages left the floored page cap lets calls go out, but nothing is kept or charged |
| Batches.AxesAreChargedIndependently | src/runtime/partial.rs:207-218 | a page trip does not stop the charging of bytes, nor the reverse |
| Batches.BatchKeepsCeilings | src/runtime/partial.rs:155-260 | a batch keeps every counter within its ceiling and the ceilings unchanged |
| Batches.AttemptsAreReserved | src/runtime/partial.rs:170-173 | every attempted call of a batch that fits the counter was reserved |
| Batches.AttemptsAreReservedIffCountable | src/runtime/partial.rs:170-173 | batches of n items reserve what they attempt, under every meter, exactly when n fits the counter's 32 bits |
| Batches.KeptIsPaidFor | src/runtime/partial.rs:207-241 | the bytes and pages a caller gets to see are covered by what the counters moved |
| Bridges.Bridge.ServiceOne | src/script/bridge.rs:76-132 | refusals, the batch, re-indexed audit and reply as a function of the state before |
| Bridges.Bridge.Service | src/script/bridge.rs:59-74 | the state and all replies after any sequence of calls |
| Bridges.RefusedExactlyWhen | src/script/bridge.rs:85-98 | more than 500 argument lists, or else an undeclared name, is refused, and a refusal changes nothing |
| Bridges.AuditGrowsByTheBatch | src/script/bridge.rs:107-118 | a batch is appended to the audit entry by entry, with name and outcome, and a reply shows the same entries |
| Bridges.AttemptsStayWithinBudget | src/script/bridge.rs:68-74 | in every run the attempted entries number at most the calls charged, which stay under the ceiling |
| Bridges.KeptBytesStayWithinBudget | src/script/bridge.rs:68-74 | in every run the bytes of all kept results sum to at most the bytes charged, which stay under the ceiling |
| Bridges.KeptPagesStayWithinBudget | src/script/bridge.rs:68-74 | the same for pages, although the per-batch page cap never drops below one |
| Bridges.AuditIsNumberedAndDeclared | src/script/bridge.rs:107-118 | in every run the audit is numbered from zero without gaps and names only declared calls |
| Bridges.TerminatedExactlyWhenAllTimeOut | src/script/bridge.rs:120-129 | from meter, clock and calls before the batch: a script is terminated exactly when a non-empty, declared batch meets the deadline at its first look, or is admitted and meets it at the second or has every call time out by itself |
| Bridges.PastTheDeadlineNothingRuns | src/runtime/budget.rs:122-126 | past the deadline a declared batch ends the script, attempts nothing and costs nothing |
| Bridges.RepliesAnswerEveryItem | src/script/bridge.rs:39-43 | a reply has one numbered entry per argument list, and an empty batch an empty list |
| PlanCaches.ReadKeepsInv | src/resolve/cache.rs:38-58 | any reader step, also a slow builder overwriting a newer entry, keeps every currently tagged entry correct |
| PlanCaches.FreshRunKeepsInv | src/resolve/cache.rs:1-9 | over any run of readers and non-overlapping writers, entries tagged current hold exactly the current plan |
| PlanCaches.QuietCallReturnsCurrentPlan | src/resolve/cache.rs:36-58 | a call during which no write commits returns exactly the plan, or the error, of the definitions |
| PlanCaches.StepsBringCallsCloser | src/resolve/cache.rs:38-58 | every step of a call brings it strictly closer to its end in a well-founded order, and no one else's step touches it |
| PlanCaches.EveryCallEnds | src/resolve/cache.rs:38-58 | in every endless history, whatever readers and writers do beside it, a call that keeps being scheduled ends; the number of its reads has no bound |
| PlanCaches.FreshClockRises | src/store/meta.rs:57-85 | without overlapping commits the generation never falls |
| PlanCaches.StaleCommitBreaksTheCache | src/store/meta.rs:59-85 | for every stale commit there is a reader schedule after which a wrong plan carries the current generation |
| PlanCaches.SafeExactlyWhenCommitsAreFresh | src/store/meta.rs:4-7 | a writer schedule is safe for all readers and all contents exactly when every commit is fresh |
| PlanCaches.PlanCache.CachedAt | src/resolve/cache.rs:60-64 | a hit exactly for the key's entry of this generation |
| PlanCaches.PlanCache.GetOrBuild | src/resolve/cache.rs:38-58 | with the store standing still: serve the entry, or build and cache under the generation read; errors are not cached |
| PlanBuilding.TheBuilderTerminates | src/resolve/mod.rs:120-208 | however the definitions change between its reads, a build ends, although the reads grow with the rows listed |
| PlanBuilding.AdvanceIsFaithful | src/resolve/mod.rs:125-181 | while the definitions stand still, each read keeps what has been read and checked true of them |
| PlanBuilding.TheBuilderBuildsThePlan | src/resolve/mod.rs:120-208 | reading row by row from definitions that stand still returns a plan exactly when it is the endpoint's plan, and otherwise the error that explains why there is none |
| PlanBuilding.CurrentEntriesArePlans | src/resolve/cache.rs:1-9 | the cache's entries are current exactly when each one tagged current is its endpoint's plan |
| PlanBuilding.QuietCallServesThePlan | src/resolve/cache.rs:36-58 | a call during which no write commits serves the endpoint's plan, or fails because it has none |
| PlanBuilding.PlansAreCurrentExactlyWhenCommitsAreFresh | src/store/meta.rs:4-7 | nothing but current plans is ever cached as current, for every interleaving and all contents of the writes, exactly when every commit is fresh |
| UrlTemplates.Parse | src/http/url_template.rs:85-119 | the parse loop reports the first problem in order, or the segments |
| UrlTemplates.ValidatePercentEncoding | src/http/url_template.rs:171-188 | the scan accepts exactly texts in which every '%' starts a hex triplet |
| UrlTemplates.JoinOfSplit | src/http/url_template.rs:107 | splitting on '/' loses nothing |
| UrlTemplates.SplitOfJoin | src/http/url_template.rs:107 | joining slash-free parts and splitting gives them back |
| UrlTemplates.ParseThenPrint | src/http/url_template.rs:85-119 | the segments of a template print back to it and are well formed, names distinct |
| UrlTemplates.PrintThenParse | src/http/url_template.rs:85-119 | every well-formed segment list prints to a template that parses to it |
| UrlTemplates.TemplatesAreThePrintedForms | src/http/url_template.rs:1-7 | a text is a template exactly when it is the printed form of well-formed segments |
| TemplateLaws.SegmentsRead | src/http/url_template.rs:152-188 | byte by byte, what literals and placeholder names are made of and how they are written |
| TemplateLaws.SegmentRefusalsRead | src/http/url_template.rs:152-169 | why a segment is refused: half a placeholder, a dot segment, a lone '%', in this order |
| TemplateLaws.TemplateRefusalsRead | src/http/url_template.rs:85-106 | why a whole template is refused before its segments are looked at, in order |
| UrlRendering.Render | src/http/url_template.rs:130-149 | the render loop reports the first problem in segment order, or the path |
| UrlRendering.RenderSucceedsExactlyWhen | src/http/url_template.rs:190-211 | rendering succeeds exactly when every placeholder has a non-empty value that is no dot segment and has no control |
| TemplateLaws.RendersExactlyWhenFilled | src/http/url_template.rs:190-211 | the same byte by byte; otherwise the first placeholder at fault decides the error, missing before empty before dots before controls |
| UrlRendering.DecodeOfEncode | src/http/url_template.rs:71-79 | a percent-encoded value decodes to its exact bytes (section 2.1 of RFC 3986) |
| TemplateLaws.EncodedByteReads | src/http/url_template.rs:71-79 | exactly letters, digits and "-._~" stand for themselves (section 2.3 of RFC 3986); any other byte becomes '%' and two upper-case hex digits |
| TemplateLaws.EncodingConcatenates | src/http/url_template.rs:130-149 | each byte is encoded by itself, wherever it stands |
| UrlRendering.ControlBytesAreControlCharacters | src/http/url_template.rs:213-216 | on UTF-8 the byte-level control check finds exactly the C0 and C1 control characters |
| UrlRendering.RenderKeepsSegments | src/http/url_template.rs:1-14 | a rendered path splits into exactly the template's segments: literals unchanged, each value decoding in its own place, no '?', '#' or dot segment |
| UrlRendering.RenderIsInjective | src/http/url_template.rs:1-14 | equal paths mean equal placeholder values |
| UrlRendering.RenderSurvivesDotRemoval | src/http/url_template.rs:197-199 | dot-segment removal (section 5.2.4 of RFC 3986) leaves a rendered path unchanged |
| UrlRendering.DotSegmentsAreRemoved | src/http/url_template.rs:197-199 | what dot-segment removal does elsewhere: "." goes away, and ".." takes the segment before it along |
| UrlRendering.DecodedDotsComeFromLiterals | src/http/url_template.rs:197-199 | a parser that reads %2e as a dot sees a dot segment exactly when a literal of the template has one |
| UrlRendering.EncodedDotsAreAccepted | src/http/url_template.rs:163-168 | such a template parses, and renders to a path whose one segment decodes to dots |
| Definitions.FoldIsTheMeet | src/model/budget.rs:16-40 | folding is the greatest lower bound of the narrowing order |
| Orders.LessReads | src/resolve/tools.rs:55-58 | the order of names and keys is the dictionary's: a prefix first, otherwise the first difference decides |
| Tools.ReverseAliases | src/resolve/tools.rs:81-98 | succeeds exactly when no two aliases name one target, with the inverse map; otherwise names the first alias that repeats a target, and the one before it |
| Tools.TargetKeyReads | src/resolve/tools.rs:70-76 | kind and slug can be read off a target's key |
| Tools.TargetKeyIsInjective | src/resolve/tools.rs:70-76 | the string keys of two targets differ unless the targets are equal |
| Tools.SortByNameSorts | src/resolve/tools.rs:55-58 | sorting keeps the tools and puts them in strictly increasing name order |
| Tools.BuildTools | src/resolve/tools.rs:17-59 | succeeds exactly when aliases are unambiguous and naming is injective; one tool per item in strict name order; otherwise the first conflict in order |
| Tools.ConflictIsUnique | src/resolve/tools.rs:60-98 | items and aliases determine which conflict is reported |
| Tools.LookupFindsTheOwner | src/resolve/plan.rs:117-121 | looking up a name finds the one item that goes by it, or nothing when none does |
| Tools.ToolListIsUnique | src/resolve/tools.rs:55-59 | items and aliases determine the tool list |
| Tools.ToolBudgetsOnlyNarrow | src/resolve/tools.rs:44-53 | no tool's budget is wider than the endpoint's or its script's on any axis |
| Plans.CompileSelected | src/resolve/mod.rs:145-152 | exactly the selected calls are compiled; otherwise the error of the first selected call, in the order of the rows, that does not compile |
| Plans.SelectScripts | src/resolve/mod.rs:154-173 | the selected scripts and, for each, its declared calls intersected with the selection |
| Plans.ReachableOrigins | src/resolve/origins.rs:30-45 | the origins of the selected calls, or the first call whose origin its service does not allow |
| Plans.AssertBound | src/resolve/auth_bind.rs:33-79 | checking the first call per service decides the binding of every selected call; an error names the first refused one |
| Plans.AssertWriteCeiling | src/resolve/budgets.rs:19-31 | passes exactly when no selected call exceeds the ceiling, otherwise names the first that does |
| Plans.BuildPlan | src/resolve/mod.rs:120-208 | a result is the endpoint's plan; an error is the first one met, in validation order and within a check in the order of its loop |
| Plans.PlanIsUnique | src/resolve/mod.rs:120-208 | definitions determine the plan, whatever order rows are read in |
| Plans.ErrorsExcludePlans | src/resolve/mod.rs:8-10 | an explained error and a plan exclude each other: a half-valid endpoint never has a plan |
| Plans.ErrorIsUnique | src/resolve/mod.rs:120-208 | definitions and the order of their rows determine the error |
| Plans.ScriptsReachAdmittedCallsOnly | src/resolve/mod.rs:160-170 | a script reaches an alias exactly when it declared it and the endpoint selects its target, and what it reaches is within the plan's origins and write ceiling |
| PlanLaws.SelectionFollowsTheExpression | src/model/tag.rs:28-35 | `has` selects by tag; `not`, `and` and `or` are complement, intersection and union of the rows selected, api_calls and scripts alike |
| PlanLaws.CompilesExactlyWhen | src/resolve/compile.rs:18-133 | a call compiles exactly when its service exists, its template parses, placeholders and path params correspond, the origin is no opaque one and the projection parses; each failure has its own condition, in this order |
| PlanLaws.PlansAreAdmitted | src/resolve/auth_bind.rs:33-79 | every call of a plan is its row, on its service's row, with that service's origin, allowed by it, and any provider is bound to that origin and in scope |
| PlanLaws.ReadPlansOnlyRead | src/resolve/budgets.rs:19-31 | a plan under a read ceiling holds no writing call |
| PlanLaws.WriteCeilingsRefuseNothing | src/resolve/budgets.rs:19-31 | under a write ceiling no failure is a ceiling violation |
| PlanLaws.ReadCeilingsRefuseWrites | src/resolve/budgets.rs:19-31 | under a read ceiling, with origins and bindings in order, a selected writing call is always and only reported as a ceiling violation of the first such call |
| PlanLaws.ToolsOfAPlan | src/resolve/tools.rs:17-59 | one tool per selected call, with its params and the endpoint's budgets, one per selected script, with its params and both budgets folded, each under its alias or slug, and no other |
| Digests.InputSchema | src/schema/mod.rs:24-43 | the loop over the visible params, in position order, builds the schema specified |
| Digests.SchemaShowsTheUnfixed | src/schema/mod.rs:15-23 | of distinctly named params the schema shows exactly those that are not fixed, each with its own property |
| Digests.SchemaRequires | src/schema/mod.rs:24-43 | the schema requires exactly the required params that are not fixed, in position order |
| Digests.DigestDecidesUpToUndigested | src/resolve/digest.rs:24-52 | two plans of one digest, with param names unique per call and script as in the tables, are the same plan exactly when services, call descriptions, instructions and the unshown parts of fixed params agree |
| Digests.ServiceRowsAreNotDigested | src/resolve/plan.rs:108-111 | for every plan and every allowed new origin of a service there is a plan of the same digest whose calls on that service go there |
| Rows.SortParamsElements | src/store/api_call_params.rs:42-53 | reading params back permutes them and nothing more |
| Rows.ReplaceParams | src/store/api_call_params.rs:21-40 | inserting params row by row succeeds exactly when they pass the checks and both unique indexes, for api_calls and for scripts |
| Rows.ParamsGoThroughTheirTable | src/store/script.rs:243-309 | params come back in position order, each as written but for an empty description and, in scripts, a fixed value |
| Rows.LimitsGoThroughTheirColumns | src/store/script.rs:196-240 | what reading does to a limit is what two's complement and a floor at zero do to it |
| Rows.BudgetsGoThroughTheirColumns | src/store/script.rs:196-240 | each budget comes back through its own column; the wall clock is capped instead |
| Rows.ServicesGoThroughTheirColumns | src/store/service.rs:136-167 | a service comes back as it was but for a rate limit its signed column holds at or below zero, which is none |
| Rows.OtherColumnsStay | src/store/api_call.rs:223-275 | api_calls and scripts come back as they were but for params, an empty description and budgets |
| Rows.ParamsSurviveExactlyWhenCanonical | src/store/api_call_params.rs:117-121 | params come back as written exactly when in position order, without empty descriptions, and unfixed in scripts |
| Rows.RowsSurviveExactlyWhenCanonical | src/store/service.rs:136-167 | a service, api_call or script comes back as written exactly when it is canonical |
| Rows.ReadingSettles | src/store/script.rs:196-240 | writing what was read changes nothing any more |
| Rows.EndpointSurvives | src/store/endpoint.rs:243-275 | an endpoint's expression survives its text form when no tag is a keyword |
| Imports.WriteEndpoint | src/store/endpoint.rs:69-107 | an endpoint is written exactly when its aliases have distinct targets and its providers exist, and reads back unchanged |
| Imports.WriteCall | src/store/api_call.rs:94-143 | an api_call is written exactly when its service exists, its params fit the table and its slug is not taken under another service |
| Imports.WriteScript | src/store/script.rs:76-114 | a script is written exactly when its params are local and distinct and every declared call exists |
| Imports.ImportServices | src/pack/import.rs:102-117 | the service loop: every row classified against the stored one, and written unless dry |
| Imports.ImportCalls | src/pack/import.rs:119-141 | the api_call loop: succeeds exactly when every row fits, with the changes in slug order; otherwise the error of the first row at fault, and exactly the rows before it are written |
| Imports.ImportScripts | src/pack/import.rs:143-160 | the script loop likewise: the first script at fault, and exactly the scripts before it written |
| Imports.ImportEndpoints | src/pack/import.rs:162-179 | the endpoint loop likewise; conversion errors come in the same order, in a dry run too |
| Imports.Stores.Import | src/pack/import.rs:84-182 | a dry run writes nothing and reports what a successful real import reports; a real import succeeds exactly when the pack is importable, with the exact store after it, and otherwise stops at the first row at fault, everything before it written and nothing else |
| ImportLaws.ReportReads | src/pack/import.rs:102-182 | each list of the report names every row of the pack once, in slug order: created, unchanged or updated exactly as no row, an equal row or another row was there, for api_calls under the pack's service |
| ImportLaws.ImportableExactlyWhen | src/pack/import.rs:84-182 | written out over rows: which packs can be imported |
| Imports.FailureIsUnique | src/pack/import.rs:84-182 | store and pack determine which error a failing import gives and what it leaves |
| Reimports.ImportKeepsStored | src/pack/import.rs:1-19 | an import, whether it succeeds or stops midway, leaves a store in good order: every row canonical with all its references present |
| Reimports.ImportsFromNothingAreStored | src/pack/import.rs:1-19 | so does any sequence of imports, failed ones included, into an owner that began empty |
| Reimports.ReimportChangesNothing | src/pack/import.rs:72-76 | after a successful import the same import succeeds and leaves the store as it is |
| Reimports.SecondReportIsNoOpIffCanonical | src/pack/import.rs:74-84 | that second report is all "unchanged" exactly when every row of the pack is canonical |
| Exports.ExportEndpoint | src/pack/export.rs:43-173 | the loops compute exactly the transitive closure as a pack, and fail exactly on a dangling declaration, naming the first one |
| Exports.PackHolds | src/pack/export.rs:62-173 | a pack holds exactly the rows that travel and their services and tags, each as it is, and the endpoint with its expression as text and no provider |
| Exports.DanglingIsUnique | src/pack/export.rs:102-117 | the definitions determine which script and call are named |
| Exports.StoredNeverDangles | src/pack/export.rs:180-190 | on a store in good order no export fails on a missing call |
| Exports.ExportIsClosed | src/pack/export.rs:1-6 | a call that travels takes its service along, and a script every call it declares |
| Exports.ExportedPackIsImportable | src/pack/export.rs:1-6 | every exported pack can be imported by any owner it does not clash with, and its rows arrive as they were |
| Exports.TransplantSelectsTheSame | src/pack/export.rs:85-100 | the imported endpoint selects exactly what the original did, although renamed and declared calls came along |
| Exports.ExportThenImportKeepsThePlan | src/pack/mod.rs:12-15 | whoever imports the pack gets the very same plan (calls, scripts, reachable calls, origins, tools, budgets) exactly when none of the importer's own rows satisfies the endpoint's expression |
| Exports.ReexportGivesTheSamePack | src/pack/mod.rs:12-15 | exporting the imported endpoint gives the same pack again exactly when none of the importer's own rows satisfies the endpoint's expression or stands where an alias of the endpoint points to nothing |
| Transport.Send | src/http/send.rs:84-157 | the redirect loop, for every cap: result and every request sent are those of the iterated step |
| Transport.EveryRequestIsVetted | src/http/send.rs:1-13 | in every run, for every cap, each request went to a URL that passed the guard with the credential for that URL, and keeps its verb and body or is a bare GET from then on |
| Transport.AnswersSteerTheCall | src/http/send.rs:84-175 | in every run each request is what the answer before it asks for: the URL its Location names, verb and body repeated after 307 and 308 and for a GET, otherwise a bare GET; a response is returned exactly when the last status is none of 301, 302, 303, 307, 308 and its body fits |
| Transport.HopsCountRequests | src/http/send.rs:116-122 | with a cap below 255 a call ends after at most cap + 1 requests |
| Transport.EveryCallEnds | src/http/send.rs:90-122 | every call ends when its cap is below 255 or its clock runs |
| Transport.CapBoundsRequestsIffBelow255 | src/http/send.rs:90-122 | among worlds whose clock runs, the cap bounds the requests of a call exactly when it is below 255 |
| Paging.Paginate | src/http/paginate.rs:39-58 | the page loop: pages, error and every request sent |
| Paging.SettingAgain | src/http/paginate.rs:100-114 | setting the cursor again forgets the previous cursor and only that; other pairs keep their order |
| Paging.SettingKeepsTheRest | src/http/paginate.rs:100-115 | setting a key keeps exactly the pairs of other keys, in order, and puts the new pair last |
| Paging.RequestsAreBounded | src/http/paginate.rs:46-57 | at most max_pages pages and, below the cap of 255, max_pages * (max_redirects + 1) requests |
| Paging.SuccessMeansComplete | src/http/paginate.rs:7-8 | success means every page but the last had a string cursor and the last had none |
| Paging.PagesEndAsRead | src/http/paginate.rs:39-98 | the cap ends a run only while a cursor leads on; a body that is no JSON, or a cursor that is no string, ends it with that error |
| Paging.EveryPageIsVetted | src/http/paginate.rs:1-4 | every request of every page is vetted, redirects included |
| Paging.CursorIsTheOnlyChange | src/http/paginate.rs:85-115 | without redirects, whatever the result: the first request asks for the call's URL, and every later one for its query pairs minus the cursor key, in order, plus one pair with the cursor of the page before |
| Paging.PagesComeFromTheirRequests | src/http/paginate.rs:46-57 | the pages of a redirect-free run come from the URLs it asked for, one each, in order |
| Paging.HeadersStayOnTheFirstPage | src/http/paginate.rs:90-96 | every request of the first page carries the call's headers, and every later request is a GET without headers or body |
| Marshal.ToDynamicDepth | src/script/marshal.rs:45-69 | the recursive conversion with its depth check and first error |
| Marshal.ToJsonDepth | src/script/marshal.rs:90-144 | the conversion back likewise |
| Marshal.InsertEntrySets | src/script/marshal.rs:60-66 | inserting into an ordered script map sets the one key and keeps the others and the order |
| Marshal.InsertFieldSets | src/script/marshal.rs:118-125 | the same for JSON objects |
| Marshal.ConvertsExactlyWhenRepresentable | src/script/marshal.rs:41-82 | JSON converts exactly when at most 64 levels deep and free of integers above i64::MAX |
| Marshal.ConvertsExactlyWhenExpressible | src/script/marshal.rs:84-144 | a script value converts exactly when at most 64 levels deep with finite floats and JSON's types |
| Marshal.RefusedForTheFirstFault | src/script/marshal.rs:41-82 | JSON that does not convert is refused for its first fault in reading order: too deep, or an integer too large |
| Marshal.RefusedForTheFirstFlaw | src/script/marshal.rs:84-144 | a script value likewise: too deep, a float that is not finite, or a type JSON has not |
| Marshal.JsonSurvives | src/script/marshal.rs:8-15 | whatever JSON converts comes back exactly |
| Marshal.TimestampsComeBackAsText | src/script/marshal.rs:133-143 | what comes back of a script value is the value with every timestamp as its RFC 3339 text |
| Marshal.DynamicSurvivesIffNoTimestamps | src/script/marshal.rs:133-143 | the reverse round trip holds exactly for values without timestamps |
| BindArgs.CoerceSettles | src/schema/coerce.rs:24-94 | coercing a coerced value changes nothing |
| BindArgs.CoercedIntegers | src/schema/coerce.rs:41-62 | an integer param is bound to an integer, and an accepted number keeps its value exactly when it is no double of 2^63 or more |
| BindArgs.CoercesExactlyWhen | src/schema/coerce.rs:24-94 | each type accepts its own kind as it is; an integer also a whole double within 64 bits or a string that spells one |
| DigitStrings.ParsesExactlyWhenSpelled | src/schema/coerce.rs:64-70 | a string is read as an integer exactly when it is an optional '-', zeros and that number's decimal digits, within 64 bits |
| DigitStrings.DecimalTextIsRead | src/schema/coerce.rs:57-60 | every 64-bit integer comes back from its decimal text, leading zeros or not |
| BindArgs.Bind | src/schema/validate.rs:46-101 | the first failing param's error, then the least undeclared key, otherwise the bound values |
| BindArgs.UnknownIsUnique | src/schema/validate.rs:94-98 | params and arguments determine which undeclared key is named |
| BindArgs.BindsExactlyWhenSatisfied | src/schema/validate.rs:56-93 | every param binds exactly when fixed, or given a value that coerces within its enum, or defaulted or optional |
| BindArgs.BoundValues | src/schema/validate.rs:43-45 | the result holds exactly the params that got a value, each with its own |
| BindArgs.EveryParamIsBoundAs | src/schema/validate.rs:56-93 | every param holds its fixed value, else what was sent, coerced, else its default, else nothing |
| BindArgs.FirstUnsatisfiedDecides | src/schema/validate.rs:56-93 | the first param that is not satisfied decides the error: missing, of the wrong type, or outside its enum |
| BindArgs.FixedParamsAreNotRead | src/schema/validate.rs:59-64 | the result never depends on what the caller sent for a fixed param |
| BindArgs.RebindReturnsTheSameIffDefaultsAreStable | src/schema/validate.rs:46-101 | binding a result again returns it unchanged exactly when every default it applied is one binding accepts as it is |

## Left out

- Networking, DNS, TLS, SQL, migrations, routing, login, the command line and the user interface: input and output.
- The script interpreter, regular expressions, the JSONPath and JSON pointer engines, YAML and JSON text parsing, URL parsing and joining: their verdicts are parameters.
- Digests.DigestDecidesUpToUndigested: what sha256 is taken of is compared, not the hash; the JSON text of it is taken to be injective but for a missing and a null value.
- Transport.EveryRequestIsVetted: the guard and the credential lookup are arbitrary functions of the URL; address checks and header contents behind them are not modelled.
- Batches.RunBatch: what `dispatch` does with one call is an arbitrary function of the shared call budget; request binding and projection are not modelled.
- Rendering of batch entries and errors as JSON for scripts, and redaction: table lookups.
- Wall-clock time beyond the moments a batch looks at it; the audit lock's poisoning.
- Plans.BuildPlan: the order in which the store lists api_calls is a parameter, since the database's collation decides it; the fields of an api_call that no check reads are one opaque text.
- PlanBuilding.TheBuilderBuildsThePlan: every query of a row, its params, callables, aliases, provider scope and tags is a read of its own; turning the ids in one query's result into slugs is part of that read, and database errors are not modelled.
- Rows.RowsSurviveExactlyWhenCanonical: JSON columns (defaults, fixed values, enums, pagination, bodies) are taken to come back from the database as they were written.
- Imports.Stores.Import: conversions other than the tag expression's are identities, and the column check on HTTP methods is not modelled.
- Exports.ExportThenImportKeepsThePlan: an importer that already uses one of the pack's slugs, or has a provider on one of its services, is left out: its rows are overwritten, or its provider takes part in the checks.
- PlanCaches.PlanCache.GetOrBuild: one call with the store standing still; interleavings are covered by the step system beside it.
- The database's isolation below a committed transaction: a commit publishes its rows and its generation at once.
- Marshal.JsonSurvives: floats are kept by value, so negative zero and zero are one.
- Request binding (`http::bind`), the pool of clients, response size capping and the recorder: no property beyond their own bodies.
