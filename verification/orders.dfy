/** The order of strings, and the iteration of maps and sets in that order. */
module Orders {
  import opened Slugs

  predicate Less(a: string, b: string) {
    b != "" && (a == "" || a[0] < b[0] || (a[0] == b[0] && Less(a[1..], b[1..])))
  }

  lemma {:induction false} LessIsTotal(a: string, b: string)
    ensures a == b || Less(a, b) || Less(b, a)
  {
    if a != "" && b != "" && a[0] == b[0] {
      LessIsTotal(a[1..], b[1..]);
      assert a == [a[0]] + a[1..] && b == [b[0]] + b[1..];
    }
  }

  lemma {:induction false} LessIsStrict(a: string)
    ensures !Less(a, a)
  {
    if a != "" {
      LessIsStrict(a[1..]);
    }
  }

  lemma {:induction false} LessIsTransitive(a: string, b: string, c: string)
    requires Less(a, b) && Less(b, c)
    ensures Less(a, c)
  {
    if a != "" && a[0] == b[0] == c[0] {
      LessIsTransitive(a[1..], b[1..], c[1..]);
    }
  }

  predicate IsLeast(names: set<string>, name: string) {
    name in names && forall other | other in names :: other == name || Less(name, other)
  }

  lemma {:induction false} HasLeast(names: set<string>)
    requires names != {}
    ensures exists name :: IsLeast(names, name)
  {
    var any :| any in names;
    if names == {any} {
      assert IsLeast(names, any);
    } else {
      var rest := names - {any};
      HasLeast(rest);
      var least :| IsLeast(rest, least);
      LessIsTotal(any, least);
      if Less(any, least) {
        forall other | other in rest && other != least ensures Less(any, other) {
          LessIsTransitive(any, least, other);
        }
        assert IsLeast(names, any);
      } else {
        assert IsLeast(names, least);
      }
    }
  }

  lemma NoneBefore(names: set<string>, name: string)
    requires IsLeast(names, name)
    ensures forall other | other in names :: !Less(other, name)
  {
    forall other | other in names ensures !Less(other, name) {
      LessIsStrict(name);
      if Less(other, name) && other != name {
        LessIsTransitive(name, other, name);
      }
    }
  }

  /** The next key of a map or set that is iterated in order. */
  method FirstOf(names: set<string>) returns (name: string)
    requires names != {}
    ensures IsLeast(names, name)
  {
    HasLeast(names);
    name :| name in names && forall other | other in names :: other == name || Less(name, other);
  }

  lemma LeastIsUnique(names: set<string>)
    ensures forall a, b | IsLeast(names, a) && IsLeast(names, b) :: a == b
  {
    forall a, b | IsLeast(names, a) && IsLeast(names, b) ensures a == b {
      NoneBefore(names, a);
    }
  }

  predicate Ascending(order: seq<Slug>) {
    forall i, j | 0 <= i < j < |order| :: Less(order[i], order[j])
  }

  lemma AscendingIsDistinct(order: seq<Slug>, i: nat, j: nat)
    requires Ascending(order) && i < |order| && j < |order| && order[i] == order[j]
    ensures i == j
  {
    LessIsStrict(order[i]);
  }

  /** `order` lists `slugs` as iteration meets them. */
  ghost predicate IsOrderOf(order: seq<Slug>, slugs: set<Slug>) {
    Ascending(order) && forall s :: s in order <==> s in slugs
  }

  /** The keys of a map, or the elements of a set, in order. */
  method InOrder(slugs: set<Slug>) returns (order: seq<Slug>)
    ensures IsOrderOf(order, slugs)
  {
    order := [];
    var left := slugs;
    while left != {}
      invariant left <= slugs && Ascending(order)
      invariant forall s :: s in slugs <==> s in order || s in left
      invariant forall s, t | s in order && t in left :: Less(s, t)
    {
      var first: Slug := FirstOf(left);
      NoneBefore(left, first);
      AppendGreatest(order, first);
      order := order + [first];
      left := left - {first};
    }
  }

  lemma AppendGreatest(order: seq<Slug>, s: Slug)
    requires Ascending(order) && forall t | t in order :: Less(t, s)
    ensures Ascending(order + [s])
  {
    forall i | 0 <= i < |order| ensures Less(order[i], s) {
      assert order[i] in order;
    }
  }

  lemma {:induction false} HasOrder(slugs: set<Slug>)
    ensures exists order :: IsOrderOf(order, slugs)
  {
    if slugs == {} {
      assert IsOrderOf([], slugs);
    } else {
      HasLeast(slugs);
      var first: Slug :| IsLeast(slugs, first);
      HasOrder(slugs - {first});
      var rest :| IsOrderOf(rest, slugs - {first});
      assert IsOrderOf([first] + rest, slugs);
    }
  }

  ghost function OrderOf(slugs: set<Slug>): (order: seq<Slug>)
    ensures IsOrderOf(order, slugs)
  {
    HasOrder(slugs);
    var order :| IsOrderOf(order, slugs);
    order
  }

  lemma {:induction false} OrderIsUnique(a: seq<Slug>, b: seq<Slug>, slugs: set<Slug>)
    requires IsOrderOf(a, slugs) && IsOrderOf(b, slugs)
    ensures a == b
  {
    assert (a != [] ==> a[0] in slugs) && (b != [] ==> b[0] in slugs);
    if a != [] {
      FirstIsLeast(a, slugs);
      FirstIsLeast(b, slugs);
      LeastIsUnique(slugs);
      RestInOrder(a, slugs);
      RestInOrder(b, slugs);
      OrderIsUnique(a[1..], b[1..], slugs - {a[0]});
      assert a == [a[0]] + a[1..] && b == [b[0]] + b[1..];
    }
  }

  lemma FirstIsLeast(order: seq<Slug>, slugs: set<Slug>)
    requires IsOrderOf(order, slugs) && order != []
    ensures IsLeast(slugs, order[0])
  {
    assert order[0] in slugs;
    forall s | s in slugs ensures s == order[0] || Less(order[0], s) {
      var i :| 0 <= i < |order| && order[i] == s;
    }
  }

  lemma RestInOrder(order: seq<Slug>, slugs: set<Slug>)
    requires IsOrderOf(order, slugs) && order != []
    ensures IsOrderOf(order[1..], slugs - {order[0]})
  {
    LessIsStrict(order[0]);
    forall s | s in order[1..] ensures s in slugs && s != order[0] {
      var i :| 0 <= i < |order[1..]| && order[1..][i] == s;
      assert order[i + 1] == s;
    }
    forall s | s in slugs && s != order[0] ensures s in order[1..] {
      var i :| 0 <= i < |order| && order[i] == s;
      assert order[1..][i - 1] == s;
    }
  }

  /** What comes before the element at position `k`, and only that, has a position before `k`. */
  lemma EarlierIsTaken(slugs: set<Slug>, order: seq<Slug>, k: nat, s: Slug) returns (i: nat)
    requires IsOrderOf(order, slugs) && k < |order| && s in slugs && Less(s, order[k])
    ensures i < k && order[i] == s
  {
    assert s in order;
    i :| 0 <= i < |order| && order[i] == s;
    LessIsStrict(s);
    if i > k {
      LessIsTransitive(s, order[k], s);
    }
  }

  ghost function LeastOf(names: set<string>): (name: string)
    requires names != {}
    ensures IsLeast(names, name)
  {
    HasLeast(names);
    var name :| IsLeast(names, name);
    name
  }

  /** Where `a` and `b` part: `a` ends there, or has the smaller character there. */
  ghost predicate PartAt(a: string, b: string, i: nat) {
    && i <= |a| && i < |b| && (forall j | 0 <= j < i :: a[j] == b[j])
    && (i == |a| || a[i] < b[i])
  }

  /** The order is that of the dictionary: a prefix comes first, otherwise the first difference decides. */
  lemma {:induction false} LessReads(a: string, b: string)
    ensures Less(a, b) <==> exists i: nat :: PartAt(a, b, i)
  {
    if b != "" && a != "" && a[0] == b[0] {
      LessReads(a[1..], b[1..]);
      if i: nat :| PartAt(a[1..], b[1..], i) {
        assert PartAt(a, b, i + 1);
      }
      if i: nat :| PartAt(a, b, i) {
        assert PartAt(a[1..], b[1..], i - 1);
      }
    } else if Less(a, b) {
      assert PartAt(a, b, 0);
    }
  }
}
