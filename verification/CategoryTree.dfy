/**
 The category tree the command line prints: a depth-first walk of a category
 graph that may be cyclic, with one `seen` set for the whole walk and a filter
 applied on the way (GenICam Standard v2.1.1, section 2.8.2).
 */
module CategoryTree {
  import opened Bytes

  /** A node of the feature description; a feature comes with its state as text. */
  datatype Node =
    | Category(invisible: bool, children: seq<string>)
    | Feature(invisible: bool, kind: string, access: string, value: Option<string>)

  type NodeMap = map<string, Node>

  datatype Tree =
    | Branch(name: string, children: seq<Tree>)
    | Leaf(name: string, kind: string, access: string, value: Option<string>)

  /** No filter, or the feature names it keeps. */
  datatype Filter = Everything | Keeping(keeps: string -> bool)

  predicate Shown(g: NodeMap, all: bool, name: string) {
    name in g && (all || !g[name].invisible)
  }

  /** A category the walk enters when it meets it first. */
  predicate Enters(g: NodeMap, all: bool, name: string) {
    Shown(g, all, name) && g[name].Category?
  }

  // ---------------------------------------------------------------- the walk

  function Names(g: NodeMap): set<string> { g.Keys }

  function Unseen(g: NodeMap, seen: set<string>): (n: nat) {
    |Names(g) - seen|
  }

  lemma {:induction false} SeenShrinks(g: NodeMap, seen: set<string>, more: set<string>)
    requires seen <= more
    ensures Unseen(g, more) <= Unseen(g, seen)
    ensures (exists x :: x in Names(g) && x in more && x !in seen) ==> Unseen(g, more) < Unseen(g, seen)
  {
    var a, b := Names(g) - more, Names(g) - seen;
    SubsetSize(a, b);
  }

  lemma {:induction false} SubsetSize(a: set<string>, b: set<string>)
    requires a <= b
    ensures |a| <= |b| && (a != b ==> |a| < |b|)
  {
    assert b == a + (b - a);
    assert |b| == |a| + |b - a|;
  }

  /** The tree under one name, if it shows, and the categories seen by then. */
  function Walk(g: NodeMap, name: string, f: Filter, all: bool, seen: set<string>)
    : (r: (Option<Tree>, set<string>))
    ensures seen <= r.1
    decreases Unseen(g, seen), 0
  {
    if !Shown(g, all, name) then (None, seen)
    else
      match g[name]
      case Category(_, children) =>
        if name in seen then (None, seen)
        else
          SeenShrinks(g, seen, seen + {name});
          var (trees, after) := WalkAll(g, children, f, all, seen + {name});
          (if f.Keeping? && trees == [] then None else Some(Branch(name, trees)), after)
      case Feature(_, kind, access, value) =>
        (if f.Keeping? && !f.keeps(name) then None else Some(Leaf(name, kind, access, value)), seen)
  }

  /** The trees under several names, one after the other. */
  function WalkAll(g: NodeMap, names: seq<string>, f: Filter, all: bool, seen: set<string>)
    : (r: (seq<Tree>, set<string>))
    ensures seen <= r.1
    decreases Unseen(g, seen), |names| + 1
  {
    if names == [] then ([], seen)
    else
      var (first, mid) := Walk(g, names[0], f, all, seen);
      SeenShrinks(g, seen, mid);
      var (rest, after) := WalkAll(g, names[1..], f, all, mid);
      (if first.Some? then [first.value] + rest else rest, after)
  }

  /** Where the walk starts: `Root`, or without one the categories no category lists. */
  function Roots(g: NodeMap, categories: seq<string>): seq<string> {
    if "Root" in g then ["Root"] else Unlisted(g, categories, categories)
  }

  predicate Listed(g: NodeMap, categories: seq<string>, name: string) {
    exists i :: 0 <= i < |categories| && categories[i] in g && g[categories[i]].Category?
                && name in g[categories[i]].children
  }

  function Unlisted(g: NodeMap, categories: seq<string>, names: seq<string>): (r: seq<string>)
    ensures forall x :: x in r <==> x in names && !Listed(g, categories, x)
  {
    if names == [] then []
    else if Listed(g, categories, names[0]) then Unlisted(g, categories, names[1..])
    else [names[0]] + Unlisted(g, categories, names[1..])
  }

  function FeatureTree(g: NodeMap, categories: seq<string>, f: Filter, all: bool): seq<Tree> {
    WalkAll(g, Roots(g, categories), f, all, {}).0
  }

  // ---------------------------------------------------------------- the walk as it runs

  class Walker {
    const g: NodeMap
    const f: Filter
    const all: bool
    var seen: set<string>

    constructor (g: NodeMap, f: Filter, all: bool)
      ensures this.g == g && this.f == f && this.all == all && seen == {}
    {
      this.g, this.f, this.all := g, f, all;
      seen := {};
    }

    method TreeNode(name: string) returns (tree: Option<Tree>)
      modifies this
      ensures (tree, seen) == Walk(g, name, f, all, old(seen))
      decreases Unseen(g, seen), 0
    {
      if name !in g || (!all && g[name].invisible) {
        return None;
      }
      match g[name]
      case Category(_, children) =>
        if name in seen {
          return None;
        }
        SeenShrinks(g, seen, seen + {name});
        seen := seen + {name};
        var trees := TreeNodes(children);
        if f.Keeping? && trees == [] {
          return None;
        }
        return Some(Branch(name, trees));
      case Feature(_, kind, access, value) =>
        if f.Keeping? && !f.keeps(name) {
          return None;
        }
        return Some(Leaf(name, kind, access, value));
    }

    method TreeNodes(names: seq<string>) returns (trees: seq<Tree>)
      modifies this
      ensures (trees, seen) == WalkAll(g, names, f, all, old(seen))
      decreases Unseen(g, seen), |names| + 1
    {
      hide Walk;
      trees := [];
      ghost var start := seen;
      ghost var whole := WalkAll(g, names, f, all, seen);
      assert names[0..] == names && [] + whole.0 == whole.0;
      for i := 0 to |names|
        invariant start <= seen
        invariant var rest := WalkAll(g, names[i..], f, all, seen);
                  whole == (trees + rest.0, rest.1)
      {
        SeenShrinks(g, start, seen);
        assert names[i..][0] == names[i] && names[i..][1..] == names[i + 1..];
        var tree := TreeNode(names[i]);
        ghost var rest := WalkAll(g, names[i + 1..], f, all, seen);
        if tree.Some? {
          Associate(trees, [tree.value], rest.0);
          trees := trees + [tree.value];
        }
      }
      assert names[|names|..] == [] && trees + [] == trees;
    }
  }

  // ---------------------------------------------------------------- filtering afterwards

  /** A tree without the features not kept, and then without the categories left empty. */
  function Pruned(t: Tree, keeps: string -> bool): Option<Tree> {
    match t
    case Leaf(name, _, _, _) => if keeps(name) then Some(t) else None
    case Branch(name, children) =>
      var left := PrunedAll(children, keeps);
      if left == [] then None else Some(Branch(name, left))
  }

  function PrunedAll(ts: seq<Tree>, keeps: string -> bool): seq<Tree> {
    if ts == [] then []
    else
      match Pruned(ts[0], keeps)
      case Some(t) => [t] + PrunedAll(ts[1..], keeps)
      case None => PrunedAll(ts[1..], keeps)
  }

  /** Filtering on the way is filtering afterwards, and what is seen does not depend on the filter. */
  lemma {:induction false} WalkFiltersLater(
    g: NodeMap, name: string, keeps: string -> bool, all: bool, seen: set<string>)
    ensures var (full, after) := Walk(g, name, Everything, all, seen);
            Walk(g, name, Keeping(keeps), all, seen)
            == (if full.Some? then Pruned(full.value, keeps) else None, after)
    decreases Unseen(g, seen), 0
  {
    if Enters(g, all, name) && name !in seen {
      SeenShrinks(g, seen, seen + {name});
      WalkAllFiltersLater(g, g[name].children, keeps, all, seen + {name});
    }
  }

  lemma {:induction false} WalkAllFiltersLater(
    g: NodeMap, names: seq<string>, keeps: string -> bool, all: bool, seen: set<string>)
    ensures var (full, after) := WalkAll(g, names, Everything, all, seen);
            WalkAll(g, names, Keeping(keeps), all, seen) == (PrunedAll(full, keeps), after)
    decreases Unseen(g, seen), |names| + 1
  {
    if names != [] {
      WalkFiltersLater(g, names[0], keeps, all, seen);
      var (first, mid) := Walk(g, names[0], Everything, all, seen);
      SeenShrinks(g, seen, mid);
      WalkAllFiltersLater(g, names[1..], keeps, all, mid);
      var rest := WalkAll(g, names[1..], Everything, all, mid).0;
      if first.Some? {
        assert ([first.value] + rest)[1..] == rest;
      }
    }
  }

  /** The filtered tree is the unfiltered one, pruned. */
  lemma {:induction false} FilterIsPruning(g: NodeMap, categories: seq<string>, keeps: string -> bool, all: bool)
    ensures FeatureTree(g, categories, Keeping(keeps), all)
            == PrunedAll(FeatureTree(g, categories, Everything, all), keeps)
  {
    WalkAllFiltersLater(g, Roots(g, categories), keeps, all, {});
  }

  // ---------------------------------------------------------------- once each

  /** The categories of a tree, in the order they are printed. */
  function Categories(t: Tree): seq<string> {
    match t
    case Leaf(_, _, _, _) => []
    case Branch(name, children) => [name] + CategoriesAll(children)
  }

  function CategoriesAll(ts: seq<Tree>): seq<string> {
    if ts == [] then [] else Categories(ts[0]) + CategoriesAll(ts[1..])
  }

  predicate NoRepeats(s: seq<string>) {
    forall i, j :: 0 <= i < j < |s| ==> s[i] != s[j]
  }

  /** `s` holds exactly these elements, each once. */
  ghost predicate Lists(s: seq<string>, elements: set<string>) {
    NoRepeats(s) && forall x :: x in s <==> x in elements
  }

  lemma {:induction false} ListsAppend(a: seq<string>, b: seq<string>, x: set<string>, y: set<string>)
    requires Lists(a, x) && Lists(b, y) && x !! y
    ensures Lists(a + b, x + y)
  {
    var s := a + b;
    forall i, j | 0 <= i < j < |s| ensures s[i] != s[j] {
      if i < |a| <= j {
        assert a[i] in a && b[j - |a|] in b;
      }
    }
  }

  lemma {:induction false} ListsShort(name: string)
    ensures Lists([], {}) && Lists([name], {name})
  {
  }

  function CategoriesOf(t: Option<Tree>): seq<string> {
    if t.Some? then Categories(t.value) else []
  }

  /** Without a filter the categories shown are exactly the newly seen ones, each once. */
  lemma {:induction false} WalkShowsNew(g: NodeMap, name: string, all: bool, seen: set<string>)
    ensures var (t, after) := Walk(g, name, Everything, all, seen);
            Lists(CategoriesOf(t), after - seen)
    decreases Unseen(g, seen), 0
  {
    hide Lists, WalkAll, CategoriesAll, Unseen;
    ListsShort(name);
    if Enters(g, all, name) && name !in seen {
      SeenShrinks(g, seen, seen + {name});
      var children := g[name].children;
      WalkAllShowsNew(g, children, all, seen + {name});
      var (trees, after) := WalkAll(g, children, Everything, all, seen + {name});
      ListsAppend([name], CategoriesAll(trees), {name}, after - (seen + {name}));
      assert {name} + (after - (seen + {name})) == after - seen;
    } else {
      assert seen - seen == {};
    }
  }

  lemma {:induction false} WalkAllShowsNew(g: NodeMap, names: seq<string>, all: bool, seen: set<string>)
    ensures var (ts, after) := WalkAll(g, names, Everything, all, seen);
            Lists(CategoriesAll(ts), after - seen)
    decreases Unseen(g, seen), |names| + 1
  {
    hide Lists, Walk;
    if names == [] {
      ListsShort("");
      assert seen - seen == {};
    } else {
      WalkShowsNew(g, names[0], all, seen);
      var (first, mid) := Walk(g, names[0], Everything, all, seen);
      SeenShrinks(g, seen, mid);
      WalkAllShowsNew(g, names[1..], all, mid);
      var (rest, after) := WalkAll(g, names[1..], Everything, all, mid);
      ListsAppend(CategoriesOf(first), CategoriesAll(rest), mid - seen, after - mid);
      assert (mid - seen) + (after - mid) == after - seen;
      CategoriesJoin(first, rest);
    }
  }

  lemma {:induction false} CategoriesJoin(first: Option<Tree>, rest: seq<Tree>)
    ensures CategoriesAll(if first.Some? then [first.value] + rest else rest)
            == CategoriesOf(first) + CategoriesAll(rest)
  {
  }

  /** `s` holds some of these elements, none twice. */
  ghost predicate Among(s: seq<string>, elements: set<string>) {
    NoRepeats(s) && forall x :: x in s ==> x in elements
  }

  lemma {:induction false} AmongAppend(a: seq<string>, b: seq<string>, x: set<string>, y: set<string>)
    requires Among(a, x) && Among(b, y) && x !! y
    ensures Among(a + b, x + y)
  {
    var s := a + b;
    forall i, j | 0 <= i < j < |s| ensures s[i] != s[j] {
      if i < |a| <= j {
        assert a[i] in a && b[j - |a|] in b;
      }
    }
  }

  lemma {:induction false} AmongShort(name: string, elements: set<string>)
    ensures Among([], elements) && Among([name], {name})
  {
  }

  /** With any filter the categories shown are newly seen ones, none twice. */
  lemma {:induction false} WalkShowsOnce(g: NodeMap, name: string, f: Filter, all: bool, seen: set<string>)
    ensures var (t, after) := Walk(g, name, f, all, seen);
            Among(CategoriesOf(t), after - seen)
    decreases Unseen(g, seen), 0
  {
    hide Among, WalkAll;
    AmongShort(name, Walk(g, name, f, all, seen).1 - seen);
    if Enters(g, all, name) && name !in seen {
      SeenShrinks(g, seen, seen + {name});
      var children := g[name].children;
      WalkAllShowsOnce(g, children, f, all, seen + {name});
      var (trees, after) := WalkAll(g, children, f, all, seen + {name});
      AmongAppend([name], CategoriesAll(trees), {name}, after - (seen + {name}));
      assert {name} + (after - (seen + {name})) == after - seen;
    }
  }

  lemma {:induction false} NoCategories()
    ensures CategoriesAll([]) == []
  {
  }

  lemma {:induction false} WalkAllShowsOnce(g: NodeMap, names: seq<string>, f: Filter, all: bool, seen: set<string>)
    ensures var (ts, after) := WalkAll(g, names, f, all, seen);
            Among(CategoriesAll(ts), after - seen)
    decreases Unseen(g, seen), |names| + 1
  {
    hide Among, Walk, CategoriesAll, CategoriesOf, Unseen;
    if names == [] {
      AmongShort("", seen - seen);
      NoCategories();
    } else {
      WalkShowsOnce(g, names[0], f, all, seen);
      var (first, mid) := Walk(g, names[0], f, all, seen);
      SeenShrinks(g, seen, mid);
      WalkAllShowsOnce(g, names[1..], f, all, mid);
      var (rest, after) := WalkAll(g, names[1..], f, all, mid);
      AmongAppend(CategoriesOf(first), CategoriesAll(rest), mid - seen, after - mid);
      assert (mid - seen) + (after - mid) == after - seen;
      CategoriesJoin(first, rest);
    }
  }

  /** Whatever the filter, the tree shows no category twice. */
  lemma {:induction false} TreeShowsOnce(g: NodeMap, categories: seq<string>, f: Filter, all: bool)
    ensures NoRepeats(CategoriesAll(FeatureTree(g, categories, f, all)))
  {
    WalkAllShowsOnce(g, Roots(g, categories), f, all, {});
  }

  // ---------------------------------------------------------------- nothing reachable is missed

  /** A chain of shown categories from one of `names`, each listing the next. */
  ghost predicate Path(g: NodeMap, all: bool, names: seq<string>, p: seq<string>) {
    && p != [] && p[0] in names
    && (forall i :: 0 <= i < |p| ==> Enters(g, all, p[i]))
    && (forall i :: 0 <= i < |p| - 1 ==> p[i + 1] in g[p[i]].children)
  }

  /** Every newly seen category has all the categories it lists seen too, and so have the names walked. */
  ghost predicate Closed(g: NodeMap, all: bool, seen: set<string>, after: set<string>) {
    forall c, d :: c in after && c !in seen && Enters(g, all, c) && d in g[c].children && Enters(g, all, d) ==>
      d in after
  }

  lemma {:induction false} WalkCloses(g: NodeMap, name: string, all: bool, seen: set<string>)
    ensures var after := Walk(g, name, Everything, all, seen).1;
            Closed(g, all, seen, after) && (Enters(g, all, name) ==> name in after)
    decreases Unseen(g, seen), 0
  {
    if Enters(g, all, name) && name !in seen {
      SeenShrinks(g, seen, seen + {name});
      WalkAllCloses(g, g[name].children, all, seen + {name});
    }
  }

  lemma {:induction false} WalkAllCloses(g: NodeMap, names: seq<string>, all: bool, seen: set<string>)
    ensures var after := WalkAll(g, names, Everything, all, seen).1;
            Closed(g, all, seen, after) && (forall x :: x in names && Enters(g, all, x) ==> x in after)
    decreases Unseen(g, seen), |names| + 1
  {
    if names != [] {
      WalkCloses(g, names[0], all, seen);
      var mid := Walk(g, names[0], Everything, all, seen).1;
      SeenShrinks(g, seen, mid);
      WalkAllCloses(g, names[1..], all, mid);
      assert forall x :: x in names ==> x == names[0] || x in names[1..];
    }
  }

  lemma {:induction false} PathIsSeen(g: NodeMap, all: bool, names: seq<string>, p: seq<string>)
    requires Path(g, all, names, p)
    ensures p[|p| - 1] in WalkAll(g, names, Everything, all, {}).1
    decreases |p|
  {
    WalkAllCloses(g, names, all, {});
    if |p| > 1 {
      var q := p[..|p| - 1];
      assert Path(g, all, names, q);
      PathIsSeen(g, all, names, q);
      assert p[|p| - 1] in g[q[|q| - 1]].children;
    }
  }

  /** A category newly seen under a name has a path from it. */
  lemma {:induction false} WalkFollowsPaths(g: NodeMap, name: string, all: bool, seen: set<string>, c: string)
    requires c in Walk(g, name, Everything, all, seen).1 && c !in seen
    ensures exists p :: Path(g, all, [name], p) && p[|p| - 1] == c
    decreases Unseen(g, seen), 0
  {
    assert Enters(g, all, name) && name !in seen;
    if c == name {
      assert Path(g, all, [name], [name]);
    } else {
      SeenShrinks(g, seen, seen + {name});
      WalkAllFollowsPaths(g, g[name].children, all, seen + {name}, c);
      var p :| Path(g, all, g[name].children, p) && p[|p| - 1] == c;
      var q := [name] + p;
      assert forall i :: 0 < i < |q| ==> q[i] == p[i - 1];
      assert Path(g, all, [name], q);
      assert q[|q| - 1] == c;
    }
  }

  lemma {:induction false} WalkAllFollowsPaths(g: NodeMap, names: seq<string>, all: bool, seen: set<string>, c: string)
    requires c in WalkAll(g, names, Everything, all, seen).1 && c !in seen
    ensures exists p :: Path(g, all, names, p) && p[|p| - 1] == c
    decreases Unseen(g, seen), |names| + 1
  {
    var mid := Walk(g, names[0], Everything, all, seen).1;
    if c in mid {
      WalkFollowsPaths(g, names[0], all, seen, c);
      var p :| Path(g, all, [names[0]], p) && p[|p| - 1] == c;
      assert p[0] == names[0];
      assert Path(g, all, names, p);
    } else {
      SeenShrinks(g, seen, mid);
      WalkAllFollowsPaths(g, names[1..], all, mid, c);
      var p :| Path(g, all, names[1..], p) && p[|p| - 1] == c;
      assert Path(g, all, names, p);
    }
  }

  /**
   On any graph, cyclic or not, the tree shows each category that is reachable
   from the roots through shown categories exactly once, and no other.
   */
  lemma {:induction false} TreeShowsReachable(g: NodeMap, categories: seq<string>, all: bool, c: string)
    ensures var shown := CategoriesAll(FeatureTree(g, categories, Everything, all));
            && NoRepeats(shown)
            && (c in shown <==> exists p :: Path(g, all, Roots(g, categories), p) && p[|p| - 1] == c)
  {
    var roots := Roots(g, categories);
    WalkAllShowsNew(g, roots, all, {});
    if c in WalkAll(g, roots, Everything, all, {}).1 {
      WalkAllFollowsPaths(g, roots, all, {}, c);
    }
    if p :| Path(g, all, roots, p) && p[|p| - 1] == c {
      PathIsSeen(g, all, roots, p);
    }
  }

  // ---------------------------------------------------------------- where the tree starts

  /** A chain of shown categories, each listing the next, told by the nodes themselves. */
  ghost predicate Chain(g: NodeMap, all: bool, p: seq<string>) {
    && p != []
    && (forall i :: 0 <= i < |p| ==> p[i] in g && (all || !g[p[i]].invisible) && g[p[i]].Category?)
    && (forall i :: 0 <= i < |p| - 1 ==> p[i + 1] in g[p[i]].children)
  }

  lemma {:induction false} PathIsChain(g: NodeMap, all: bool, names: seq<string>, p: seq<string>)
    ensures Path(g, all, names, p) <==> Chain(g, all, p) && p[0] in names
  {
    assert p != [] ==> forall i :: 0 <= i < |p| ==>
             (Enters(g, all, p[i]) <==> p[i] in g && (all || !g[p[i]].invisible) && g[p[i]].Category?);
  }

  /** The categories shown are those a chain from one of the roots leads to. */
  lemma {:induction false} TreeGrowsFromRoots(g: NodeMap, categories: seq<string>, all: bool, c: string)
    ensures c in CategoriesAll(FeatureTree(g, categories, Everything, all))
            <==> exists p :: Chain(g, all, p) && p[0] in Roots(g, categories) && p[|p| - 1] == c
  {
    hide FeatureTree, Roots, Enters;
    TreeShowsReachable(g, categories, all, c);
    var roots := Roots(g, categories);
    forall p ensures Path(g, all, roots, p) <==> Chain(g, all, p) && p[0] in roots {
      PathIsChain(g, all, roots, p);
    }
    if p :| Path(g, all, roots, p) && p[|p| - 1] == c {
      assert Chain(g, all, p);
    }
    if p :| Chain(g, all, p) && p[0] in roots && p[|p| - 1] == c {
      assert Path(g, all, roots, p);
    }
  }

  /** With a `Root` node, a category is shown exactly when a chain of shown categories leads to it from `Root`. */
  lemma {:induction false} TreeGrowsFromRoot(g: NodeMap, categories: seq<string>, all: bool, c: string)
    requires "Root" in g
    ensures c in CategoriesAll(FeatureTree(g, categories, Everything, all))
            <==> exists p :: Chain(g, all, p) && p[0] == "Root" && p[|p| - 1] == c
  {
    hide FeatureTree;
    TreeGrowsFromRoots(g, categories, all, c);
    assert Roots(g, categories) == ["Root"];
  }

  /** The tree is then the one node `Root`, a branch if it is a category, and nothing if it is hidden. */
  lemma {:induction false} RootIsTheTree(g: NodeMap, categories: seq<string>, all: bool)
    requires "Root" in g
    ensures var tree := FeatureTree(g, categories, Everything, all);
            if !all && g["Root"].invisible then tree == []
            else
              && |tree| == 1 && tree[0].name == "Root"
              && (if g["Root"].Category? then tree[0].Branch? else tree[0].Leaf?)
  {
    hide WalkAll;
    var tree := FeatureTree(g, categories, Everything, all);
    WalkOne(g, "Root", all);
  }

  lemma {:induction false} WalkOne(g: NodeMap, name: string, all: bool)
    ensures var t := Walk(g, name, Everything, all, {}).0;
            WalkAll(g, [name], Everything, all, {}).0 == if t.Some? then [t.value] else []
  {
    hide Walk;
    var mid := Walk(g, name, Everything, all, {}).1;
    assert [name][1..] == [];
    assert WalkAll(g, [], Everything, all, mid) == ([], mid);
  }

  /**
   Without a `Root` node the chains start at the categories that no category
   lists; one that is listed anywhere starts none.
   */
  lemma {:induction false} TreeGrowsFromUnlisted(g: NodeMap, categories: seq<string>, all: bool, c: string)
    requires "Root" !in g
    ensures c in CategoriesAll(FeatureTree(g, categories, Everything, all))
            <==> exists p :: Chain(g, all, p) && p[|p| - 1] == c && p[0] in categories
                             && (forall y :: y in categories && y in g && g[y].Category? ==> p[0] !in g[y].children)
  {
    hide FeatureTree, Listed;
    TreeGrowsFromRoots(g, categories, all, c);
    forall x ensures x in Roots(g, categories)
      <==> x in categories && forall y :: y in categories && y in g && g[y].Category? ==> x !in g[y].children
    {
      ListedByOne(g, categories, x);
    }
  }

  lemma {:induction false} ListedByOne(g: NodeMap, categories: seq<string>, name: string)
    ensures Listed(g, categories, name)
            <==> exists y :: y in categories && y in g && g[y].Category? && name in g[y].children
  {
    if y :| y in categories && y in g && g[y].Category? && name in g[y].children {
      var i :| 0 <= i < |categories| && categories[i] == y;
      assert name in g[categories[i]].children;
    }
  }

  // ---------------------------------------------------------------- features

  /** The features a list shows, in order. */
  function Features(g: NodeMap, all: bool, names: seq<string>): seq<Tree> {
    if names == [] then []
    else if Shown(g, all, names[0]) && g[names[0]].Feature? then
      var n := g[names[0]];
      [Leaf(names[0], n.kind, n.access, n.value)] + Features(g, all, names[1..])
    else Features(g, all, names[1..])
  }

  function Leaves(ts: seq<Tree>): seq<Tree> {
    if ts == [] then [] else if ts[0].Leaf? then [ts[0]] + Leaves(ts[1..]) else Leaves(ts[1..])
  }

  /** Every branch holds, as its leaves, the shown features its category lists, in order. */
  predicate Faithful(g: NodeMap, all: bool, t: Tree) {
    match t
    case Leaf(_, _, _, _) => true
    case Branch(name, children) =>
      && Enters(g, all, name) && Leaves(children) == Features(g, all, g[name].children)
      && FaithfulAll(g, all, children)
  }

  predicate FaithfulAll(g: NodeMap, all: bool, ts: seq<Tree>) {
    ts == [] || (Faithful(g, all, ts[0]) && FaithfulAll(g, all, ts[1..]))
  }

  lemma {:induction false} WalkIsFaithful(g: NodeMap, name: string, all: bool, seen: set<string>)
    ensures var t := Walk(g, name, Everything, all, seen).0;
            && (t.Some? ==> Faithful(g, all, t.value))
            && (t.Some? && t.value.Leaf? <==> Shown(g, all, name) && g[name].Feature?)
    decreases Unseen(g, seen), 0
  {
    if Enters(g, all, name) && name !in seen {
      SeenShrinks(g, seen, seen + {name});
      WalkAllIsFaithful(g, g[name].children, all, seen + {name});
    }
  }

  lemma {:induction false} WalkAllIsFaithful(g: NodeMap, names: seq<string>, all: bool, seen: set<string>)
    ensures var ts := WalkAll(g, names, Everything, all, seen).0;
            FaithfulAll(g, all, ts) && Leaves(ts) == Features(g, all, names)
    decreases Unseen(g, seen), |names| + 1
  {
    if names != [] {
      WalkIsFaithful(g, names[0], all, seen);
      var (first, mid) := Walk(g, names[0], Everything, all, seen);
      SeenShrinks(g, seen, mid);
      WalkAllIsFaithful(g, names[1..], all, mid);
      var rest := WalkAll(g, names[1..], Everything, all, mid).0;
      if first.Some? {
        assert ([first.value] + rest)[1..] == rest;
      }
    }
  }

  /** A feature appears under every shown category that lists it, as often as it is listed. */
  lemma {:induction false} TreeShowsFeatures(g: NodeMap, categories: seq<string>, all: bool)
    ensures FaithfulAll(g, all, FeatureTree(g, categories, Everything, all))
  {
    WalkAllIsFaithful(g, Roots(g, categories), all, {});
  }

  // ---------------------------------------------------------------- order

  /** `at` says where each tree's name stands in the list, from left to right. */
  ghost predicate Places(ts: seq<Tree>, names: seq<string>, at: seq<nat>) {
    && |at| == |ts|
    && (forall i :: 0 <= i < |at| ==> at[i] < |names| && ts[i].name == names[at[i]])
    && (forall i, j :: 0 <= i < j < |at| ==> at[i] < at[j])
  }

  /** The trees stand in the list's order. */
  ghost predicate Follow(ts: seq<Tree>, names: seq<string>) {
    exists at :: Places(ts, names, at)
  }

  /** Every branch of the tree shows children its category lists, in the order it lists them. */
  ghost predicate Ordered(g: NodeMap, t: Tree) {
    t.Branch? ==>
      && t.name in g && g[t.name].Category? && Follow(t.children, g[t.name].children)
      && forall i :: 0 <= i < |t.children| ==> Ordered(g, t.children[i])
  }

  lemma {:induction false} PlacesBehind(first: Option<Tree>, ts: seq<Tree>, name: string, names: seq<string>)
    requires Follow(ts, names) && (first.Some? ==> first.value.name == name)
    ensures Follow(if first.Some? then [first.value] + ts else ts, [name] + names)
  {
    var at :| Places(ts, names, at);
    var moved := Moved(at);
    PlacesMoved(ts, name, names, at);
    if first.Some? {
      PlacesFirst(first.value, ts, [name] + names, moved);
    }
  }

  function Moved(at: seq<nat>): (r: seq<nat>)
    ensures |r| == |at| && forall i :: 0 <= i < |r| ==> r[i] == at[i] + 1
  {
    seq(|at|, i requires 0 <= i < |at| => at[i] + 1)
  }

  /** One more name in front moves every place along. */
  lemma {:induction false} PlacesMoved(ts: seq<Tree>, name: string, names: seq<string>, at: seq<nat>)
    requires Places(ts, names, at)
    ensures Places(ts, [name] + names, Moved(at)) && forall i :: 0 <= i < |at| ==> Moved(at)[i] > 0
  {
    hide Moved;
    assert forall i :: 0 <= i < |names| ==> ([name] + names)[i + 1] == names[i];
  }

  /** A tree of the first name goes in front of trees of later names. */
  lemma {:induction false} PlacesFirst(t: Tree, ts: seq<Tree>, names: seq<string>, at: seq<nat>)
    requires names != [] && t.name == names[0] && Places(ts, names, at) && forall i :: 0 <= i < |at| ==> at[i] > 0
    ensures Places([t] + ts, names, [0] + at)
  {
    var all, places := [t] + ts, [0] + at;
    forall i | 0 <= i < |places| ensures places[i] < |names| && all[i].name == names[places[i]] {
      assert i > 0 ==> places[i] == at[i - 1] && all[i] == ts[i - 1];
    }
    forall i, j | 0 <= i < j < |places| ensures places[i] < places[j] {
      assert places[j] == at[j - 1];
      assert i > 0 ==> places[i] == at[i - 1];
    }
  }

  lemma {:induction false} WalkIsOrdered(g: NodeMap, name: string, f: Filter, all: bool, seen: set<string>)
    ensures var t := Walk(g, name, f, all, seen).0;
            t.Some? ==> t.value.name == name && Ordered(g, t.value)
    decreases Unseen(g, seen), 0
  {
    hide Follow;
    if Enters(g, all, name) && name !in seen {
      SeenShrinks(g, seen, seen + {name});
      WalkAllIsOrdered(g, g[name].children, f, all, seen + {name});
    }
  }

  lemma {:induction false} WalkAllIsOrdered(g: NodeMap, names: seq<string>, f: Filter, all: bool, seen: set<string>)
    ensures var ts := WalkAll(g, names, f, all, seen).0;
            Follow(ts, names) && forall i :: 0 <= i < |ts| ==> Ordered(g, ts[i])
    decreases Unseen(g, seen), |names| + 1
  {
    hide Follow, Ordered;
    if names == [] {
      NothingFollows();
    } else {
      var (first, mid) := Walk(g, names[0], f, all, seen);
      SeenShrinks(g, seen, mid);
      WalkIsOrdered(g, names[0], f, all, seen);
      WalkAllIsOrdered(g, names[1..], f, all, mid);
      PlacesBehind(first, WalkAll(g, names[1..], f, all, mid).0, names[0], names[1..]);
      assert [names[0]] + names[1..] == names;
    }
  }

  lemma {:induction false} NothingFollows()
    ensures Follow([], [])
  {
    assert Places([], [], []);
  }

  lemma {:induction false} UnlistedFollow(g: NodeMap, categories: seq<string>, names: seq<string>, ts: seq<Tree>)
    requires Follow(ts, Unlisted(g, categories, names))
    ensures Follow(ts, names)
    decreases |names|
  {
    hide Listed;
    if names != [] {
      var rest := Unlisted(g, categories, names[1..]);
      assert [names[0]] + names[1..] == names;
      if Listed(g, categories, names[0]) {
        UnlistedFollow(g, categories, names[1..], ts);
        PlacesBehind(None, ts, names[0], names[1..]);
      } else {
        var at :| Places(ts, [names[0]] + rest, at);
        if at != [] && at[0] == 0 {
          FollowTail(ts, names[0], rest, at);
          UnlistedFollow(g, categories, names[1..], ts[1..]);
          PlacesBehind(Some(ts[0]), ts[1..], names[0], names[1..]);
          assert [ts[0]] + ts[1..] == ts;
        } else {
          FollowRest(ts, names[0], rest, at);
          UnlistedFollow(g, categories, names[1..], ts);
          PlacesBehind(None, ts, names[0], names[1..]);
        }
      }
    }
  }

  lemma {:induction false} FollowTail(ts: seq<Tree>, name: string, names: seq<string>, at: seq<nat>)
    requires Places(ts, [name] + names, at) && at != [] && at[0] == 0
    ensures ts[0].name == name && Follow(ts[1..], names)
  {
    var moved := seq(|at| - 1, i requires 0 <= i < |at| - 1 => assert at[0] < at[i + 1]; at[i + 1] - 1);
    assert Places(ts[1..], names, moved);
  }

  lemma {:induction false} FollowRest(ts: seq<Tree>, name: string, names: seq<string>, at: seq<nat>)
    requires Places(ts, [name] + names, at) && (at == [] || at[0] > 0)
    ensures Follow(ts, names)
  {
    assert forall i :: 0 < i < |at| ==> at[0] < at[i];
    var moved := seq(|at|, i requires 0 <= i < |at| => at[i] - 1);
    assert Places(ts, names, moved);
  }

  /**
   Whatever the filter, every branch shows its children in the order its
   category lists them, and without a `Root` the roots stand in the order of
   the categories.
   */
  lemma {:induction false} TreeIsOrdered(g: NodeMap, categories: seq<string>, f: Filter, all: bool)
    ensures var tree := FeatureTree(g, categories, f, all);
            && (forall i :: 0 <= i < |tree| ==> Ordered(g, tree[i]))
            && ("Root" !in g ==> Follow(tree, categories))
  {
    hide Ordered, Follow, WalkAll, Listed;
    var roots := Roots(g, categories);
    WalkAllIsOrdered(g, roots, f, all, {});
    if "Root" !in g {
      UnlistedFollow(g, categories, categories, FeatureTree(g, categories, f, all));
    }
  }
}
