/**
 From selected api_calls and scripts to tools: one tool per item, named by its alias or its slug,
 every name owned once, in name order.
 */
module Tools {
  import opened Wrappers
  import opened Slugs
  import opened Orders
  import opened Definitions

  // ----- Tools -----

  /** The input schema is a function of the params, which stand for it. */
  datatype PlannedTool = PlannedTool(name: string, inputs: seq<Param>, target: Target, budgets: Budgets)

  datatype NameError =
    | AmbiguousAlias(target: string, first: string, second: string)
    | DuplicateToolName(name: string)

  ghost predicate Increasing(tools: seq<PlannedTool>) {
    forall i, j | 0 <= i < j < |tools| :: Less(tools[i].name, tools[j].name)
  }

  ghost predicate DistinctToolNames(tools: seq<PlannedTool>) {
    forall i, j | 0 <= i < j < |tools| :: tools[i].name != tools[j].name
  }

  function Insert(sorted: seq<PlannedTool>, t: PlannedTool): seq<PlannedTool> {
    if sorted == [] || !Less(t.name, sorted[|sorted| - 1].name) then sorted + [t]
    else Insert(sorted[..|sorted| - 1], t) + [sorted[|sorted| - 1]]
  }

  function SortByName(tools: seq<PlannedTool>): seq<PlannedTool> {
    if tools == [] then [] else Insert(SortByName(tools[..|tools| - 1]), tools[|tools| - 1])
  }

  lemma {:induction false} InsertElements(sorted: seq<PlannedTool>, t: PlannedTool)
    ensures |Insert(sorted, t)| == |sorted| + 1
    ensures forall x :: x in Insert(sorted, t) <==> x in sorted || x == t
  {
    if sorted != [] && Less(t.name, sorted[|sorted| - 1].name) {
      InsertElements(sorted[..|sorted| - 1], t);
      assert sorted == sorted[..|sorted| - 1] + [sorted[|sorted| - 1]];
    }
  }

  lemma {:induction false} InsertKeepsOrder(sorted: seq<PlannedTool>, t: PlannedTool)
    requires Increasing(sorted) && forall x | x in sorted :: x.name != t.name
    ensures Increasing(Insert(sorted, t))
  {
    if sorted != [] {
      var init, last := sorted[..|sorted| - 1], sorted[|sorted| - 1];
      if Less(t.name, last.name) {
        InsertKeepsOrder(init, t);
        InsertElements(init, t);
        forall x | x in Insert(init, t) ensures Less(x.name, last.name) {
          if x in init {
            var i :| 0 <= i < |init| && init[i] == x;
            assert sorted[i] == x;
          }
        }
      } else {
        LessIsTotal(t.name, last.name);
        forall i | 0 <= i < |sorted| ensures Less(sorted[i].name, t.name) {
          if i < |init| {
            LessIsTransitive(sorted[i].name, last.name, t.name);
          }
        }
      }
    }
  }

  /** Sorting keeps the tools, and puts distinct names in increasing order. */
  lemma {:induction false} SortByNameSorts(tools: seq<PlannedTool>)
    requires DistinctToolNames(tools)
    ensures Increasing(SortByName(tools)) && |SortByName(tools)| == |tools|
    ensures forall x :: x in SortByName(tools) <==> x in tools
  {
    if tools != [] {
      var init, last := tools[..|tools| - 1], tools[|tools| - 1];
      SortByNameSorts(init);
      InsertElements(SortByName(init), last);
      InsertKeepsOrder(SortByName(init), last);
      assert tools == init + [last];
    }
  }

  ghost function Elements(tools: seq<PlannedTool>): set<PlannedTool> {
    set t | t in tools
  }

  lemma NoElements(a: seq<PlannedTool>)
    ensures Elements(a) == {} <==> a == []
  {
    if a != [] {
      assert a[0] in Elements(a);
    }
  }

  lemma LastIsGreatest(a: seq<PlannedTool>, b: seq<PlannedTool>)
    requires a != [] && b != [] && Increasing(a) && Increasing(b) && Elements(a) == Elements(b)
    ensures a[|a| - 1] == b[|b| - 1]
  {
    var x, y := a[|a| - 1], b[|b| - 1];
    assert x in Elements(b) && y in Elements(a);
    var i :| 0 <= i < |b| && b[i] == x;
    var j :| 0 <= j < |a| && a[j] == y;
    if i < |b| - 1 && j < |a| - 1 {
      LessIsTransitive(x.name, y.name, x.name);
      LessIsStrict(x.name);
    }
  }

  lemma InitElements(a: seq<PlannedTool>)
    requires a != [] && Increasing(a)
    ensures Elements(a[..|a| - 1]) == Elements(a) - {a[|a| - 1]}
  {
    var last := a[|a| - 1];
    LessIsStrict(last.name);
    assert a == a[..|a| - 1] + [last];
  }

  /** A list in strictly increasing name order is determined by its elements. */
  lemma {:induction false} IncreasingListsAreEqual(a: seq<PlannedTool>, b: seq<PlannedTool>)
    requires Increasing(a) && Increasing(b) && Elements(a) == Elements(b)
    ensures a == b
  {
    NoElements(a);
    NoElements(b);
    if a != [] {
      var x := a[|a| - 1];
      LastIsGreatest(a, b);
      InitElements(a);
      InitElements(b);
      IncreasingListsAreEqual(a[..|a| - 1], b[..|b| - 1]);
      assert a == a[..|a| - 1] + [x] && b == b[..|b| - 1] + [x];
    }
  }

  // ----- Aliases -----

  function TargetKey(t: Target): string {
    match t
    case CallTarget(slug) => "api_call:" + slug
    case ScriptTarget(slug) => "script:" + slug
  }

  /** Kind and slug can be read off a key. */
  lemma TargetKeyReads(t: Target)
    ensures t.CallTarget? ==> TargetKey(t)[..9] == "api_call:" && TargetKey(t)[9..] == t.slug
    ensures t.ScriptTarget? ==> TargetKey(t)[..7] == "script:" && TargetKey(t)[7..] == t.slug
  {
  }

  lemma TargetKeyIsInjective(t: Target, u: Target)
    requires TargetKey(t) == TargetKey(u)
    ensures t == u
  {
    assert TargetKey(t)[0] == TargetKey(u)[0];
    var n := if t.CallTarget? then |"api_call:"| else |"script:"|;
    assert t.slug == TargetKey(t)[n..];
    assert TargetKey(u)[n..] == u.slug;
  }

  ghost predicate Unambiguous(aliases: map<string, Target>) {
    forall a, b | a in aliases && b in aliases && aliases[a] == aliases[b] :: a == b
  }

  ghost predicate Names(aliases: map<string, Target>, alias: string, t: Target) {
    alias in aliases && aliases[alias] == t
  }

  /** The name an item goes by: its alias if it has one, its slug otherwise. */
  ghost function NameOf(aliases: map<string, Target>, t: Target): string {
    if exists a :: Names(aliases, a, t) then var a :| Names(aliases, a, t); a else t.slug
  }

  /** The first alias, in order, of a target that an earlier alias names. */
  ghost predicate FirstRepeat(aliases: map<string, Target>, a: string, b: string) {
    && a in aliases && b in aliases && Less(a, b) && aliases[a] == aliases[b]
    && forall x, y | x in aliases && y in aliases && Less(x, y) && Less(y, b) :: aliases[x] != aliases[y]
  }

  /** The error names the first alias that repeats a target, and the alias before it. */
  ghost predicate ExplainsAmbiguity(aliases: map<string, Target>, e: NameError) {
    e.AmbiguousAlias? && FirstRepeat(aliases, e.first, e.second) && e.target == TargetKey(aliases[e.first])
  }

  lemma OneFirstRepeat(aliases: map<string, Target>, a: string, b: string, c: string, d: string)
    requires FirstRepeat(aliases, a, b) && FirstRepeat(aliases, c, d)
    ensures a == c && b == d
  {
    LessIsTotal(b, d);
    LessIsTotal(a, c);
  }

  lemma RepeatsAreAmbiguous(aliases: map<string, Target>, a: string, b: string)
    requires FirstRepeat(aliases, a, b)
    ensures !Unambiguous(aliases)
  {
    LessIsStrict(a);
  }

  lemma AmbiguousHasFirstRepeat(aliases: map<string, Target>) returns (a: string, b: string)
    requires !Unambiguous(aliases)
    ensures FirstRepeat(aliases, a, b)
  {
    var repeats := set x, y | x in aliases && y in aliases && Less(x, y) && aliases[x] == aliases[y] :: y;
    var x, y :| x in aliases && y in aliases && aliases[x] == aliases[y] && x != y;
    LessIsTotal(x, y);
    assert (if Less(x, y) then y else x) in repeats;
    HasLeast(repeats);
    b :| IsLeast(repeats, b);
    NoneBefore(repeats, b);
    a :| a in aliases && Less(a, b) && aliases[a] == aliases[b];
    forall x, y | x in aliases && y in aliases && Less(x, y) && Less(y, b) ensures aliases[x] != aliases[y] {
      assert y !in repeats;
    }
  }

  lemma NextIsFirstRepeat(aliases: map<string, Target>, left: set<string>, a: string, b: string)
    requires IsLeast(left, b) && b in aliases && a in aliases && a !in left && aliases[a] == aliases[b]
    requires forall x, y | x in aliases && x !in left && y in left :: Less(x, y)
    requires forall x, y | x in aliases && x !in left && y in aliases && y !in left && aliases[x] == aliases[y] ::
      x == y
    ensures FirstRepeat(aliases, a, b)
  {
    NoneBefore(left, b);
    forall x, y | x in aliases && y in aliases && Less(x, y) && Less(y, b) ensures aliases[x] != aliases[y] {
      LessIsTransitive(x, y, b);
      LessIsStrict(x);
    }
  }

  method ReverseAliases(aliases: map<string, Target>) returns (r: Result<map<string, string>, NameError>)
    ensures r.Ok? <==> Unambiguous(aliases)
    ensures r.Ok? ==> forall key, a ::
      key in r.value && r.value[key] == a <==> a in aliases && TargetKey(aliases[a]) == key
    ensures r.Err? ==> ExplainsAmbiguity(aliases, r.error)
  {
    var byTarget: map<string, string> := map[];
    var left := aliases.Keys;
    while left != {}
      invariant left <= aliases.Keys
      invariant forall key | key in byTarget ::
        byTarget[key] in aliases && byTarget[key] !in left && TargetKey(aliases[byTarget[key]]) == key
      invariant forall a | a in aliases && a !in left ::
        TargetKey(aliases[a]) in byTarget && byTarget[TargetKey(aliases[a])] == a
      invariant forall a, b | a in aliases && a !in left && b in left :: Less(a, b)
    {
      var alias := FirstOf(left);
      var key := TargetKey(aliases[alias]);
      if key in byTarget {
        TargetKeyIsInjective(aliases[byTarget[key]], aliases[alias]);
        NextIsFirstRepeat(aliases, left, byTarget[key], alias);
        return Err(AmbiguousAlias(key, byTarget[key], alias));
      }
      byTarget := byTarget[key := alias];
      left := left - {alias};
    }
    r := Ok(byTarget);
  }

  // ----- Building the list -----

  /** What can become a tool: params and the script's own budgets, if it is a script. */
  datatype Item = Item(inputs: seq<Param>, budgets: Option<Budgets>)

  ghost function ToolFor(aliases: map<string, Target>, budgets: Budgets, items: map<Target, Item>,
                         t: Target): PlannedTool
    requires t in items
  {
    PlannedTool(NameOf(aliases, t), items[t].inputs, t,
                if items[t].budgets.Some? then Fold(budgets, items[t].budgets.value) else budgets)
  }

  ghost predicate NamesAreUnique(aliases: map<string, Target>, items: map<Target, Item>) {
    forall t, u | t in items && u in items && NameOf(aliases, t) == NameOf(aliases, u) :: t == u
  }

  /** One tool per item, nothing else, in strictly increasing name order. */
  ghost predicate IsToolList(aliases: map<string, Target>, budgets: Budgets, items: map<Target, Item>,
                             tools: seq<PlannedTool>) {
    && Increasing(tools)
    && (forall t | t in items :: ToolFor(aliases, budgets, items, t) in tools)
    && (forall tool | tool in tools :: tool.target in items && tool == ToolFor(aliases, budgets, items, tool.target))
  }

  method NameFor(aliases: map<string, Target>, byTarget: map<string, string>, t: Target) returns (name: string)
    requires Unambiguous(aliases)
    requires forall key, a :: key in byTarget && byTarget[key] == a <==> a in aliases && TargetKey(aliases[a]) == key
    ensures name == NameOf(aliases, t)
  {
    var key := TargetKey(t);
    if key in byTarget {
      name := byTarget[key];
      TargetKeyIsInjective(aliases[name], t);
      assert Names(aliases, name, t);
    } else {
      name := t.slug;
      forall a | a in aliases ensures aliases[a] != t {
        assert TargetKey(aliases[a]) in byTarget;
      }
    }
  }

  /** The tools of a set of items, in the order the items are met. */
  ghost predicate Covers(aliases: map<string, Target>, budgets: Budgets, items: map<Target, Item>, done: set<Target>,
                         tools: seq<PlannedTool>) {
    && done <= items.Keys
    && (forall t | t in done :: ToolFor(aliases, budgets, items, t) in tools)
    && (forall tool | tool in tools :: tool.target in done && tool == ToolFor(aliases, budgets, items, tool.target))
  }

  /** Items are named api_calls first, then scripts, each by slug: the order of their target keys. */
  predicate Before(t: Target, u: Target) {
    Less(TargetKey(t), TargetKey(u))
  }

  lemma HasFirstItem(left: set<Target>)
    requires left != {}
    ensures exists t :: t in left && forall u | u in left :: u == t || Before(t, u)
  {
    var keys := set t | t in left :: TargetKey(t);
    var any :| any in left;
    assert TargetKey(any) in keys;
    HasLeast(keys);
    var least :| IsLeast(keys, least);
    var t :| t in left && TargetKey(t) == least;
    forall u | u in left ensures u == t || Before(t, u) {
      assert TargetKey(u) in keys;
      if TargetKey(u) == least {
        TargetKeyIsInjective(t, u);
      }
    }
  }

  method FirstItem(left: set<Target>) returns (t: Target)
    requires left != {}
    ensures t in left && forall u | u in left :: u == t || Before(t, u)
  {
    HasFirstItem(left);
    t :| t in left && forall u | u in left :: u == t || Before(t, u);
  }

  /** The first item, in order, that goes by the name of an earlier one. */
  ghost predicate FirstClash(aliases: map<string, Target>, items: map<Target, Item>, u: Target) {
    && u in items
    && (exists t :: t in items && Before(t, u) && NameOf(aliases, t) == NameOf(aliases, u))
    && forall t, v | t in items && v in items && Before(t, v) && Before(v, u) ::
      NameOf(aliases, t) != NameOf(aliases, v)
  }

  /** The error names the name of the first item whose name is taken. */
  ghost predicate ExplainsDuplicate(aliases: map<string, Target>, items: map<Target, Item>, e: NameError) {
    e.DuplicateToolName? && exists u :: FirstClash(aliases, items, u) && NameOf(aliases, u) == e.name
  }

  lemma OneFirstClash(aliases: map<string, Target>, items: map<Target, Item>, u: Target, v: Target)
    requires FirstClash(aliases, items, u) && FirstClash(aliases, items, v)
    ensures u == v
  {
    LessIsTotal(TargetKey(u), TargetKey(v));
    if TargetKey(u) == TargetKey(v) {
      TargetKeyIsInjective(u, v);
    }
  }

  /** Definitions determine which naming conflict is reported: a repeated alias before a repeated name. */
  ghost predicate ExplainsConflict(aliases: map<string, Target>, items: map<Target, Item>, e: NameError) {
    ExplainsAmbiguity(aliases, e) || (Unambiguous(aliases) && ExplainsDuplicate(aliases, items, e))
  }

  lemma ConflictIsUnique(aliases: map<string, Target>, items: map<Target, Item>, a: NameError, b: NameError)
    requires ExplainsConflict(aliases, items, a) && ExplainsConflict(aliases, items, b)
    ensures a == b
  {
    if ExplainsAmbiguity(aliases, a) {
      RepeatsAreAmbiguous(aliases, a.first, a.second);
      OneFirstRepeat(aliases, a.first, a.second, b.first, b.second);
    } else if ExplainsAmbiguity(aliases, b) {
      RepeatsAreAmbiguous(aliases, b.first, b.second);
    } else {
      var u :| FirstClash(aliases, items, u) && NameOf(aliases, u) == a.name;
      var v :| FirstClash(aliases, items, v) && NameOf(aliases, v) == b.name;
      OneFirstClash(aliases, items, u, v);
    }
  }

  /** The items that go by the name of an earlier one. */
  ghost function Clashes(aliases: map<string, Target>, items: map<Target, Item>): set<Target> {
    set v | v in items && exists t :: t in items && Before(t, v) && NameOf(aliases, t) == NameOf(aliases, v)
  }

  lemma SomeClash(aliases: map<string, Target>, items: map<Target, Item>)
    requires !NamesAreUnique(aliases, items)
    ensures Clashes(aliases, items) != {}
  {
    var t, v :| t in items && v in items && NameOf(aliases, t) == NameOf(aliases, v) && t != v;
    LessIsTotal(TargetKey(t), TargetKey(v));
    if TargetKey(t) == TargetKey(v) {
      TargetKeyIsInjective(t, v);
    }
    assert (if Before(t, v) then v else t) in Clashes(aliases, items);
  }

  /** Unique names leave no conflict to report. */
  lemma NamedMeansUnexplained(aliases: map<string, Target>, items: map<Target, Item>, e: NameError)
    requires Unambiguous(aliases) && NamesAreUnique(aliases, items)
    ensures !ExplainsConflict(aliases, items, e)
  {
    if ExplainsAmbiguity(aliases, e) {
      RepeatsAreAmbiguous(aliases, e.first, e.second);
    }
    forall u | FirstClash(aliases, items, u) ensures false {
      LessIsStrict(TargetKey(u));
    }
  }

  lemma ClashHasFirst(aliases: map<string, Target>, items: map<Target, Item>) returns (u: Target)
    requires !NamesAreUnique(aliases, items)
    ensures FirstClash(aliases, items, u)
  {
    var clashes := Clashes(aliases, items);
    SomeClash(aliases, items);
    HasFirstItem(clashes);
    u :| u in clashes && forall w | w in clashes :: w == u || Before(u, w);
    forall x, y | x in items && y in items && Before(x, y) && Before(y, u)
      ensures NameOf(aliases, x) != NameOf(aliases, y)
    {
      if y in clashes {
        LessIsStrict(TargetKey(u));
        LessIsTransitive(TargetKey(u), TargetKey(y), TargetKey(u));
      }
    }
  }

  /** The items of `done` come before those of `left` and go by different names. */
  ghost predicate NamedSoFar(aliases: map<string, Target>, items: map<Target, Item>, done: set<Target>,
                             left: set<Target>) {
    && left !! done && left + done == items.Keys
    && (forall t, u | t in done && u in left :: Before(t, u))
    && (forall t, u | t in done && u in done && NameOf(aliases, t) == NameOf(aliases, u) :: t == u)
  }

  lemma NextIsFirstClash(aliases: map<string, Target>, items: map<Target, Item>, done: set<Target>,
                         left: set<Target>, t: Target, u: Target)
    requires NamedSoFar(aliases, items, done, left)
    requires u in left && forall v | v in left :: v == u || Before(u, v)
    requires t in done && NameOf(aliases, t) == NameOf(aliases, u)
    ensures FirstClash(aliases, items, u) && !NamesAreUnique(aliases, items)
  {
    forall x | x in items && Before(x, u) ensures x in done {
      if x in left {
        LessIsStrict(TargetKey(u));
        LessIsTransitive(TargetKey(u), TargetKey(x), TargetKey(u));
      }
    }
    forall x, y | x in items && y in items && Before(x, y) && Before(y, u)
      ensures NameOf(aliases, x) != NameOf(aliases, y)
    {
      LessIsTransitive(TargetKey(x), TargetKey(y), TargetKey(u));
      LessIsStrict(TargetKey(x));
    }
  }

  /** The tools of the items in `done`, each with a name of its own, and those names. */
  ghost predicate Claimed(aliases: map<string, Target>, budgets: Budgets, items: map<Target, Item>, done: set<Target>,
                          seen: set<string>, tools: seq<PlannedTool>) {
    && Covers(aliases, budgets, items, done, tools) && DistinctToolNames(tools)
    && forall name :: name in seen <==> exists t :: t in done && NameOf(aliases, t) == name
  }

  lemma ClaimOneMore(aliases: map<string, Target>, budgets: Budgets, items: map<Target, Item>, done: set<Target>,
                     seen: set<string>, tools: seq<PlannedTool>, t: Target)
    requires Claimed(aliases, budgets, items, done, seen, tools) && t in items && NameOf(aliases, t) !in seen
    ensures Claimed(aliases, budgets, items, done + {t}, seen + {NameOf(aliases, t)},
                    tools + [ToolFor(aliases, budgets, items, t)])
  {
    forall tool | tool in tools ensures tool.name in seen {
      assert tool.target in done && tool.name == NameOf(aliases, tool.target);
    }
  }

  lemma NameOneMore(aliases: map<string, Target>, items: map<Target, Item>, done: set<Target>, left: set<Target>,
                    t: Target)
    requires NamedSoFar(aliases, items, done, left)
    requires t in left && forall u | u in left :: u == t || Before(t, u)
    requires forall u | u in done :: NameOf(aliases, u) != NameOf(aliases, t)
    ensures NamedSoFar(aliases, items, done + {t}, left - {t})
  {
  }

  method BuildTools(aliases: map<string, Target>, budgets: Budgets, items: map<Target, Item>)
    returns (r: Result<seq<PlannedTool>, NameError>)
    ensures r.Ok? <==> Unambiguous(aliases) && NamesAreUnique(aliases, items)
    ensures r.Ok? ==> IsToolList(aliases, budgets, items, r.value)
    ensures r.Err? ==> ExplainsConflict(aliases, items, r.error)
  {
    var reversed := ReverseAliases(aliases);
    if reversed.Err? {
      return Err(reversed.error);
    }
    var tools: seq<PlannedTool> := [];
    var seen: set<string> := {};
    var left := items.Keys;
    ghost var done: set<Target> := {};
    while left != {}
      invariant NamedSoFar(aliases, items, done, left)
      invariant Claimed(aliases, budgets, items, done, seen, tools)
    {
      var t := FirstItem(left);
      var name := NameFor(aliases, reversed.value, t);
      if name in seen {
        ghost var earlier :| earlier in done && NameOf(aliases, earlier) == name;
        NextIsFirstClash(aliases, items, done, left, earlier, t);
        return Err(DuplicateToolName(name));
      }
      ClaimOneMore(aliases, budgets, items, done, seen, tools, t);
      NameOneMore(aliases, items, done, left, t);
      var own := if items[t].budgets.Some? then Fold(budgets, items[t].budgets.value) else budgets;
      seen, done := seen + {name}, done + {t};
      tools := tools + [PlannedTool(name, items[t].inputs, t, own)];
      left := left - {t};
    }
    AllClaimed(aliases, budgets, items, done, seen, tools);
    r := Ok(SortByName(tools));
  }

  lemma AllClaimed(aliases: map<string, Target>, budgets: Budgets, items: map<Target, Item>, done: set<Target>,
                   seen: set<string>, tools: seq<PlannedTool>)
    requires NamedSoFar(aliases, items, done, {}) && Claimed(aliases, budgets, items, done, seen, tools)
    ensures IsToolList(aliases, budgets, items, SortByName(tools)) && NamesAreUnique(aliases, items)
  {
    SortByNameSorts(tools);
    assert done == items.Keys;
  }

  /** A tool list exists as soon as every item has a name of its own. */
  lemma ToolListExists(aliases: map<string, Target>, budgets: Budgets, items: map<Target, Item>)
    returns (tools: seq<PlannedTool>)
    requires NamesAreUnique(aliases, items)
    ensures IsToolList(aliases, budgets, items, tools)
  {
    var unsorted: seq<PlannedTool> := [];
    var left, done := items.Keys, {};
    while left != {}
      invariant left !! done && left + done == items.Keys
      invariant Covers(aliases, budgets, items, done, unsorted) && DistinctToolNames(unsorted)
    {
      var t :| t in left;
      var tool := ToolFor(aliases, budgets, items, t);
      assert forall other | other in unsorted :: other.target != t && other.name == NameOf(aliases, other.target);
      unsorted := unsorted + [tool];
      left, done := left - {t}, done + {t};
    }
    SortByNameSorts(unsorted);
    tools := SortByName(unsorted);
  }

  /** Naming either yields a tool list or has a conflict to report. */
  lemma ToolsOrConflict(aliases: map<string, Target>, budgets: Budgets, items: map<Target, Item>)
    ensures (Unambiguous(aliases) && exists tools :: IsToolList(aliases, budgets, items, tools)) ||
            (exists e :: ExplainsConflict(aliases, items, e))
  {
    if !Unambiguous(aliases) {
      var a, b := AmbiguousHasFirstRepeat(aliases);
      assert ExplainsConflict(aliases, items, AmbiguousAlias(TargetKey(aliases[a]), a, b));
    } else if NamesAreUnique(aliases, items) {
      var tools := ToolListExists(aliases, budgets, items);
    } else {
      var u := ClashHasFirst(aliases, items);
      assert ExplainsConflict(aliases, items, DuplicateToolName(NameOf(aliases, u)));
    }
  }

  // ----- What a tool list gives -----

  function FindTool(tools: seq<PlannedTool>, name: string): Option<PlannedTool> {
    if tools == [] then None
    else if tools[0].name == name then Some(tools[0])
    else FindTool(tools[1..], name)
  }

  lemma {:induction false} FindToolFinds(tools: seq<PlannedTool>, name: string)
    ensures FindTool(tools, name).Some? <==> exists t :: t in tools && t.name == name
    ensures FindTool(tools, name).Some? ==>
            FindTool(tools, name).value in tools && FindTool(tools, name).value.name == name
  {
    if tools != [] {
      FindToolFinds(tools[1..], name);
      assert tools == [tools[0]] + tools[1..];
    }
  }

  /** Looking a name up finds the one item that goes by it, or nothing when no item does. */
  lemma LookupFindsTheOwner(aliases: map<string, Target>, budgets: Budgets, items: map<Target, Item>,
                            tools: seq<PlannedTool>, name: string)
    requires IsToolList(aliases, budgets, items, tools)
    ensures FindTool(tools, name).None? <==> forall t | t in items :: NameOf(aliases, t) != name
    ensures forall t | t in items && NameOf(aliases, t) == name ::
      FindTool(tools, name) == Some(ToolFor(aliases, budgets, items, t))
  {
    FindToolFinds(tools, name);
    forall t | t in items && NameOf(aliases, t) == name
      ensures FindTool(tools, name) == Some(ToolFor(aliases, budgets, items, t))
    {
      var tool := ToolFor(aliases, budgets, items, t);
      assert tool in tools;
      NameDeterminesTool(tools, tool, FindTool(tools, name).value);
    }
  }

  lemma NameDeterminesTool(tools: seq<PlannedTool>, a: PlannedTool, b: PlannedTool)
    requires Increasing(tools) && a in tools && b in tools && a.name == b.name
    ensures a == b
  {
    var i :| 0 <= i < |tools| && tools[i] == a;
    var j :| 0 <= j < |tools| && tools[j] == b;
    LessIsStrict(a.name);
  }

  /** A tool list exists only if naming is unique, and then there is only one. */
  lemma ToolListIsUnique(aliases: map<string, Target>, budgets: Budgets, items: map<Target, Item>,
                         a: seq<PlannedTool>, b: seq<PlannedTool>)
    requires IsToolList(aliases, budgets, items, a) && IsToolList(aliases, budgets, items, b)
    ensures a == b && NamesAreUnique(aliases, items)
  {
    IncreasingListsAreEqual(a, b);
    forall t, u | t in items && u in items && NameOf(aliases, t) == NameOf(aliases, u) ensures t == u {
      NameDeterminesTool(a, ToolFor(aliases, budgets, items, t), ToolFor(aliases, budgets, items, u));
    }
  }

  /** No tool's budget is wider than its endpoint's, nor than its script's own. */
  lemma ToolBudgetsOnlyNarrow(aliases: map<string, Target>, budgets: Budgets, items: map<Target, Item>,
                              tools: seq<PlannedTool>, tool: PlannedTool)
    requires IsToolList(aliases, budgets, items, tools) && tool in tools
    ensures NoWider(tool.budgets, budgets)
    ensures tool.target in items &&
            (items[tool.target].budgets.Some? ==> NoWider(tool.budgets, items[tool.target].budgets.value))
  {
    var item := items[tool.target];
    if item.budgets.Some? {
      FoldIsTheMeet(budgets, item.budgets.value, tool.budgets);
    }
  }
}
