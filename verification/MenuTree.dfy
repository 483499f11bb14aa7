/** The menu forest sent to a signed-in user: built through pointers while going over
    maps in any order, yet with one answer. */
module MenuTree {
  import opened Text
  import opened Sets

  // --------------------------------------------------------------- what is built

  datatype Menu = Menu(
    id: int, parent: int, title: string, status: int, kind: string, icon: string, uri: string, sort: int)

  /** Menus by id. */
  type Table = map<int, Menu>

  /** A later menu with the same id replaces an earlier one. */
  function TableOf(menus: seq<Menu>): Table {
    if menus == [] then map[]
    else
      var last := menus[|menus| - 1];
      TableOf(menus[..|menus| - 1])[last.id := last]
  }

  /** The comparison of both sorts. */
  predicate Less(a: Menu, b: Menu) {
    a.sort < b.sort || (a.sort == b.sort && LexLess(a.title, b.title))
  }

  predicate IsRoot(t: Table, id: int) {
    id in t && (t[id].parent == 0 || t[id].parent !in t)
  }

  function Roots(t: Table): set<int> {
    set id | id in t && IsRoot(t, id)
  }

  function ChildrenOf(t: Table, p: int): set<int> {
    set id | id in t && t[id].parent == p != 0
  }

  /** The members of `s`, each once, in display order. */
  ghost predicate Listing(t: Table, ids: seq<int>, s: set<int>) {
    && NoDup(ids)
    && (forall id :: id in ids <==> id in s)
    && (forall id :: id in s ==> id in t)
    && (forall i, j :: 0 <= i < j < |ids| ==> !Less(t[ids[j]], t[ids[i]]))
  }

  /** The pointer structure by ids: the children of every node, and the roots. */
  datatype Links = Links(children: map<int, seq<int>>, roots: seq<int>)

  ghost predicate Linked(t: Table, l: Links) {
    && l.children.Keys == t.Keys
    && (forall id :: id in t ==> Listing(t, l.children[id], ChildrenOf(t, id)))
    && Listing(t, l.roots, Roots(t))
  }

  ghost predicate Keyed(t: Table) {
    forall id :: id in t ==> t[id].id == id
  }

  /** `title` carries a unique index. */
  ghost predicate DistinctTitles(t: Table) {
    forall a, b :: a in t && b in t && a != b ==> t[a].title != t[b].title
  }

  lemma {:induction false} TableKeyed(menus: seq<Menu>)
    ensures Keyed(TableOf(menus))
  {
    if menus != [] { TableKeyed(menus[..|menus| - 1]); }
  }

  /** With distinct ids the table holds exactly the menus given. */
  lemma {:induction false} TableHolds(menus: seq<Menu>, m: Menu)
    requires forall i, j :: 0 <= i < j < |menus| ==> menus[i].id != menus[j].id
    ensures m in menus <==> m.id in TableOf(menus) && TableOf(menus)[m.id] == m
  {
    if menus != [] {
      var rest, last := menus[..|menus| - 1], menus[|menus| - 1];
      TableHolds(rest, m);
      assert menus == rest + [last];
      assert m in rest ==> m.id != last.id;
    }
  }

  /** Of several menus with one id the last is kept. */
  lemma {:induction false} LastMenuWins(menus: seq<Menu>, i: nat)
    requires i < |menus| && forall k :: i < k < |menus| ==> menus[k].id != menus[i].id
    ensures menus[i].id in TableOf(menus) && TableOf(menus)[menus[i].id] == menus[i]
  {
    if i < |menus| - 1 { LastMenuWins(menus[..|menus| - 1], i); }
  }

  // -------------------------------------------------------------------- ordering

  lemma LessTransitive(a: Menu, b: Menu, c: Menu)
    requires Less(a, b) && Less(b, c)
    ensures Less(a, c)
  {
    if a.sort == b.sort == c.sort { LexTransitive(a.title, b.title, c.title); }
  }

  lemma LessTotal(a: Menu, b: Menu)
    ensures a.title != b.title ==> Less(a, b) || Less(b, a)
    ensures !(Less(a, b) && Less(b, a))
  {
    LexTotal(a.title, b.title);
  }

  /** With distinct titles there is one listing of a set of menus. */
  lemma {:induction false} ListingUnique(t: Table, a: seq<int>, b: seq<int>, s: set<int>)
    requires DistinctTitles(t) && Listing(t, a, s) && Listing(t, b, s)
    ensures a == b
  {
    if b != [] {
      var y := b[0];
      assert y in b && y in a;
    }
    if a != [] {
      var x := a[0];
      assert x in a && x in b;
      SameFirst(t, a, b, s);
      ListingRest(t, a, s);
      ListingRest(t, b, s);
      ListingUnique(t, a[1..], b[1..], s - {a[0]});
      assert a == [a[0]] + a[1..] && b == [b[0]] + b[1..];
    }
  }

  lemma SameFirst(t: Table, a: seq<int>, b: seq<int>, s: set<int>)
    requires DistinctTitles(t) && Listing(t, a, s) && Listing(t, b, s) && a != [] && b != []
    ensures a[0] == b[0]
  {
    assert a[0] in a && b[0] in b;
    var i :| 0 <= i < |b| && b[i] == a[0];
    var j :| 0 <= j < |a| && a[j] == b[0];
    assert i > 0 ==> !Less(t[b[i]], t[b[0]]);
    assert j > 0 ==> !Less(t[a[j]], t[a[0]]);
    LessTotal(t[a[0]], t[b[0]]);
  }

  lemma ListingRest(t: Table, a: seq<int>, s: set<int>)
    requires Listing(t, a, s) && a != []
    ensures Listing(t, a[1..], s - {a[0]})
  {
    var rest := a[1..];
    forall i | 0 <= i < |rest| ensures rest[i] == a[i + 1] && rest[i] != a[0] {}
    forall id ensures id in rest <==> id in s - {a[0]} {
      if id in s - {a[0]} {
        var i :| 0 <= i < |a| && a[i] == id;
        assert rest[i - 1] == id;
      }
    }
  }

  /** A listing goes up: by sort value, and by title where those are equal. */
  lemma ListingAscends(t: Table, ids: seq<int>, s: set<int>, i: nat, j: nat)
    requires Listing(t, ids, s) && i < j < |ids|
    ensures ids[i] in t && ids[j] in t && t[ids[i]].sort <= t[ids[j]].sort
    ensures t[ids[i]].sort == t[ids[j]].sort ==>
              t[ids[i]].title == t[ids[j]].title || LexLess(t[ids[i]].title, t[ids[j]].title)
  {
    var a, b := ids[i], ids[j];
    assert a in ids && b in ids;
    LexTotal(t[a].title, t[b].title);
  }

  // --------------------------------------------------------------------- sorting

  ghost predicate SortedBy<T>(s: seq<T>, key: T -> Menu) {
    forall i, j :: 0 <= i < j < |s| ==> !Less(key(s[j]), key(s[i]))
  }

  function InsertBy<T>(s: seq<T>, x: T, key: T -> Menu): seq<T> {
    if s == [] || Less(key(x), key(s[0])) then [x] + s else [s[0]] + InsertBy(s[1..], x, key)
  }

  lemma {:induction false} InsertedContents<T>(s: seq<T>, x: T, key: T -> Menu)
    ensures multiset(InsertBy(s, x, key)) == multiset(s) + multiset{x}
  {
    if s != [] && !Less(key(x), key(s[0])) {
      InsertedContents(s[1..], x, key);
      assert s == [s[0]] + s[1..];
    }
  }

  lemma {:induction false} InsertedSorted<T>(s: seq<T>, x: T, key: T -> Menu)
    requires SortedBy(s, key)
    ensures SortedBy(InsertBy(s, x, key), key)
  {
    if s == [] {
    } else if Less(key(x), key(s[0])) {
      forall j | 0 <= j < |s| ensures !Less(key(s[j]), key(x)) {
        LessTotal(key(s[j]), key(x));
        if Less(key(s[j]), key(x)) { LessTransitive(key(s[j]), key(x), key(s[0])); }
      }
    } else {
      var r := InsertBy(s[1..], x, key);
      InsertedSorted(s[1..], x, key);
      InsertedContents(s[1..], x, key);
      forall j | 0 <= j < |r| ensures !Less(key(r[j]), key(s[0])) {
        assert r[j] in multiset(r);
        assert r[j] == x || r[j] in s[1..];
      }
    }
  }

  /** `sort.Slice`: some sorted rearrangement. */
  method SortSlice<T(==)>(s: seq<T>, key: T -> Menu) returns (r: seq<T>)
    ensures multiset(r) == multiset(s) && SortedBy(r, key)
  {
    r := [];
    for i := 0 to |s|
      invariant multiset(r) == multiset(s[..i]) && SortedBy(r, key)
    {
      assert s[..i + 1] == s[..i] + [s[i]];
      InsertedContents(r, s[i], key);
      InsertedSorted(r, s[i], key);
      r := InsertBy(r, s[i], key);
    }
    assert s[..|s|] == s;
  }

  // -------------------------------------------------------------- going upwards

  /** The ancestor `k` links up; None above a root. */
  function Climb(t: Table, id: int, k: nat): Option<int>
    decreases k
  {
    if k == 0 then Some(id)
    else if id !in t || IsRoot(t, id) then None
    else Climb(t, t[id].parent, k - 1)
  }

  /** Climbing `n` links from a menu ends at a root. */
  predicate Level(t: Table, id: int, n: nat)
    decreases n
  {
    id in t && if IsRoot(t, id) then n == 0 else n > 0 && Level(t, t[id].parent, n - 1)
  }

  ghost predicate Reaches(t: Table, id: int) {
    exists n: nat :: Level(t, id, n)
  }

  /** A menu that is its own ancestor. */
  ghost predicate OnCycle(t: Table, id: int) {
    exists k: nat :: k > 0 && Climb(t, id, k) == Some(id)
  }

  lemma {:induction false} LevelUnique(t: Table, id: int, m: nat, n: nat)
    requires Level(t, id, m) && Level(t, id, n)
    ensures m == n
    decreases n
  {
    if !IsRoot(t, id) { LevelUnique(t, t[id].parent, m - 1, n - 1); }
  }

  lemma LevelsDiffer(t: Table, a: int, m: nat, b: int, n: nat)
    requires Level(t, a, m) && Level(t, b, n) && m != n
    ensures a != b
  {
    if a == b { LevelUnique(t, a, m, n); }
  }

  lemma {:induction false} ClimbLevel(t: Table, id: int, n: nat, k: nat)
    requires Level(t, id, n) && k <= n
    ensures Climb(t, id, k).Some? && Level(t, Climb(t, id, k).value, n - k)
    decreases k
  {
    if k > 0 { ClimbLevel(t, t[id].parent, n - 1, k - 1); }
  }

  lemma {:induction false} ClimbOn(t: Table, id: int, i: nat, j: nat)
    ensures Climb(t, id, i + j) == if Climb(t, id, i).Some? then Climb(t, Climb(t, id, i).value, j) else None
    decreases i
  {
    if i > 0 && id in t && !IsRoot(t, id) { ClimbOn(t, t[id].parent, i - 1, j); }
  }

  lemma LevelNoCycle(t: Table, id: int, n: nat, k: nat)
    requires Level(t, id, n) && k > 0
    ensures Climb(t, id, k) != Some(id)
  {
    if k <= n {
      ClimbLevel(t, id, n, k);
      LevelsDiffer(t, id, n, Climb(t, id, k).value, n - k);
    } else {
      ClimbLevel(t, id, n, n);
      ClimbOn(t, id, n, k - n);
    }
  }

  /** A walk that meets no menu twice is no longer than the table. */
  lemma WalkBound(t: Table, id: int, k: nat)
    requires forall i: nat :: i < k ==> Climb(t, id, i).Some? && Climb(t, id, i).value in t
    requires forall i: nat, j: nat :: i < j < k ==> Climb(t, id, i) != Climb(t, id, j)
    ensures k <= |t|
  {
    var walk := seq(k, i requires 0 <= i < k => var j: nat := i; Climb(t, id, j).value);
    forall i, j | 0 <= i < j < k ensures walk[i] != walk[j] {
      var a: nat, b: nat := i, j;
      assert Climb(t, id, a) != Climb(t, id, b);
    }
    IdSetSize(walk);
    assert IdSet(walk) <= t.Keys;
    SubsetOfSameSize(IdSet(walk), t.Keys);
  }

  lemma NoRepeat(t: Table, id: int, i: nat, j: nat)
    requires i < j && Climb(t, id, i).Some? && !OnCycle(t, Climb(t, id, i).value)
    ensures Climb(t, id, i) != Climb(t, id, j)
  {
    var y := Climb(t, id, i).value;
    ClimbOn(t, id, i, j - i);
    assert Climb(t, y, j - i) != Some(y);
  }

  lemma LevelBound(t: Table, id: int, n: nat)
    requires Level(t, id, n)
    ensures n < |t|
  {
    forall i: nat | i < n + 1
      ensures Climb(t, id, i).Some? && Climb(t, id, i).value in t && !OnCycle(t, Climb(t, id, i).value)
    {
      ClimbLevel(t, id, n, i);
      var y := Climb(t, id, i).value;
      forall k: nat | k > 0 ensures Climb(t, y, k) != Some(y) { LevelNoCycle(t, y, n - i, k); }
    }
    forall i: nat, j: nat | i < j < n + 1 ensures Climb(t, id, i) != Climb(t, id, j) { NoRepeat(t, id, i, j); }
    WalkBound(t, id, n + 1);
  }

  /** Climbing from a menu that reaches no root never ends. */
  lemma {:induction false} ClimbForever(t: Table, id: int, k: nat)
    requires id in t && !Reaches(t, id)
    ensures Climb(t, id, k).Some? && Climb(t, id, k).value in t
    decreases k
  {
    if k > 0 {
      assert !Level(t, id, 0);
      var p := t[id].parent;
      forall n: nat ensures !Level(t, p, n) { assert !Level(t, id, n + 1); }
      ClimbForever(t, p, k - 1);
    }
  }

  /** Without cycles every menu reaches a root, and conversely. */
  lemma AcyclicExactly(t: Table)
    ensures (forall id :: id in t ==> !OnCycle(t, id)) <==> (forall id :: id in t ==> Reaches(t, id))
  {
    if forall id :: id in t ==> !OnCycle(t, id) {
      forall id | id in t ensures Reaches(t, id) { AcyclicReaches(t, id); }
    }
    if forall id :: id in t ==> Reaches(t, id) {
      forall id | id in t ensures !OnCycle(t, id) {
        var n: nat :| Level(t, id, n);
        forall k: nat | k > 0 ensures Climb(t, id, k) != Some(id) { LevelNoCycle(t, id, n, k); }
      }
    }
  }

  lemma AcyclicReaches(t: Table, id: int)
    requires id in t && forall i :: i in t ==> !OnCycle(t, i)
    ensures Reaches(t, id)
  {
    if !Reaches(t, id) {
      var k := |t| + 1;
      forall i: nat | i < k ensures Climb(t, id, i).Some? && Climb(t, id, i).value in t { ClimbForever(t, id, i); }
      forall i: nat, j: nat | i < j < k ensures Climb(t, id, i) != Climb(t, id, j) { NoRepeat(t, id, i, j); }
      WalkBound(t, id, k);
    }
  }

  // ------------------------------------------------------------------ the forest

  datatype Tree = Tree(menu: Menu, children: seq<Tree>)

  /** The tree that the pointers below a node spell out. */
  ghost predicate Spells(t: Table, l: Links, id: int, tree: Tree)
    decreases tree
  {
    && id in t && id in l.children && tree.menu == t[id] && |tree.children| == |l.children[id]|
    && forall k :: 0 <= k < |tree.children| ==> Spells(t, l, l.children[id][k], tree.children[k])
  }

  ghost predicate SpellsForest(t: Table, l: Links, forest: seq<Tree>) {
    |forest| == |l.roots| && forall k :: 0 <= k < |forest| ==> Spells(t, l, l.roots[k], forest[k])
  }

  function Count(tree: Tree, id: int): nat {
    (if tree.menu.id == id then 1 else 0) + CountAll(tree.children, id)
  }

  function CountAll(trees: seq<Tree>, id: int): nat {
    if trees == [] then 0 else Count(trees[0], id) + CountAll(trees[1..], id)
  }

  /** The ancestor of a menu at level `d`, if it reaches a root and is that deep. */
  ghost function AtLevel(t: Table, id: int, d: nat): Option<int> {
    if n: nat :| Level(t, id, n) && n >= d then Climb(t, id, n - d) else None
  }

  lemma AtLevelIs(t: Table, id: int, n: nat, d: nat)
    requires Level(t, id, n)
    ensures AtLevel(t, id, d) == if n >= d then Climb(t, id, n - d) else None
  {
    forall m: nat | Level(t, id, m) ensures m == n { LevelUnique(t, id, m, n); }
  }

  /** A child is one level further down. */
  lemma ChildLevel(t: Table, p: int, d: nat, c: int)
    requires Level(t, p, d) && c in ChildrenOf(t, p)
    ensures Level(t, c, d + 1)
  {
  }

  /** A menu has an ancestor among the children of a node, or is the node, exactly when
      its ancestor at the level of the node is the node. */
  lemma AtLevelStep(t: Table, p: int, d: nat, id: int)
    requires Level(t, p, d)
    ensures (if p == id then 1 else 0)
            + (if AtLevel(t, id, d + 1).Some? && AtLevel(t, id, d + 1).value in ChildrenOf(t, p) then 1 else 0)
            == if AtLevel(t, id, d) == Some(p) then 1 else 0
  {
    if n: nat :| Level(t, id, n) {
      AtLevelIs(t, id, n, d);
      AtLevelIs(t, id, n, d + 1);
      if p == id { LevelUnique(t, id, n, d); }
      if n > d {
        ClimbLevel(t, id, n, n - d - 1);
        ClimbOn(t, id, n - d - 1, 1);
      }
    }
  }

  /** One tree per id, no id twice: the tree of `v` is the only one that counts. */
  lemma {:induction false} CountOne(trees: seq<Tree>, ids: seq<int>, id: int, v: Option<int>)
    requires |trees| == |ids| && NoDup(ids)
    requires forall k :: 0 <= k < |ids| ==> Count(trees[k], id) == if v == Some(ids[k]) then 1 else 0
    ensures CountAll(trees, id) == if v.Some? && v.value in ids then 1 else 0
  {
    if ids != [] {
      CountOne(trees[1..], ids[1..], id, v);
      assert ids == [ids[0]] + ids[1..];
      assert v == Some(ids[0]) ==> v.value !in ids[1..];
    }
  }

  lemma {:induction false} TreeCount(t: Table, l: Links, p: int, d: nat, tree: Tree, id: int)
    requires Keyed(t) && Linked(t, l) && Level(t, p, d) && Spells(t, l, p, tree)
    ensures Count(tree, id) == if AtLevel(t, id, d) == Some(p) then 1 else 0
    decreases tree
  {
    var ids := l.children[p];
    assert Listing(t, ids, ChildrenOf(t, p));
    forall k | 0 <= k < |ids|
      ensures Count(tree.children[k], id) == if AtLevel(t, id, d + 1) == Some(ids[k]) then 1 else 0
    {
      var c := ids[k];
      assert c in ids;
      ChildLevel(t, p, d, c);
      TreeCount(t, l, c, d + 1, tree.children[k], id);
    }
    var v := AtLevel(t, id, d + 1);
    CountOne(tree.children, ids, id, v);
    assert v.Some? ==> var y := v.value; y in ids <==> y in ChildrenOf(t, p);
    AtLevelStep(t, p, d, id);
  }

  /** Every id occurs in the forest exactly once if climbing from it reaches a root, and
      not at all otherwise. */
  lemma ForestCount(t: Table, l: Links, forest: seq<Tree>, id: int)
    requires Keyed(t) && Linked(t, l) && SpellsForest(t, l, forest)
    ensures CountAll(forest, id) == if Reaches(t, id) then 1 else 0
  {
    forall k | 0 <= k < |forest|
      ensures Count(forest[k], id) == if AtLevel(t, id, 0) == Some(l.roots[k]) then 1 else 0
    {
      var r := l.roots[k];
      assert r in l.roots;
      TreeCount(t, l, r, 0, forest[k], id);
    }
    CountOne(forest, l.roots, id, AtLevel(t, id, 0));
    if n: nat :| Level(t, id, n) {
      AtLevelIs(t, id, n, 0);
      ClimbLevel(t, id, n, n);
    }
  }

  /** The pointers spell out a forest: following them ends. */
  ghost function Unfold(t: Table, l: Links, id: int, d: nat): (tree: Tree)
    requires Linked(t, l) && Level(t, id, d)
    ensures Spells(t, l, id, tree)
    decreases |t| - d
  {
    LevelBound(t, id, d);
    var ids := l.children[id];
    assert Listing(t, ids, ChildrenOf(t, id));
    var trees := seq(|ids|, k requires 0 <= k < |ids| =>
      var c := ids[k];
      assert c in ids;
      ChildLevel(t, id, d, c);
      Unfold(t, l, c, d + 1));
    Tree(t[id], trees)
  }

  lemma ForestExists(t: Table, l: Links) returns (forest: seq<Tree>)
    requires Linked(t, l)
    ensures SpellsForest(t, l, forest)
  {
    forall k | 0 <= k < |l.roots| ensures Level(t, l.roots[k], 0) {
      var r := l.roots[k];
      assert r in l.roots;
    }
    forest := seq(|l.roots|, k requires 0 <= k < |l.roots| => Unfold(t, l, l.roots[k], 0));
  }

  /** With distinct ids and acyclic parents every menu occurs exactly once. */
  lemma EveryMenuOnce(menus: seq<Menu>, l: Links, forest: seq<Tree>, m: Menu)
    requires forall i, j :: 0 <= i < j < |menus| ==> menus[i].id != menus[j].id
    requires Linked(TableOf(menus), l) && SpellsForest(TableOf(menus), l, forest)
    requires forall id :: id in TableOf(menus) ==> !OnCycle(TableOf(menus), id)
    requires m in menus
    ensures CountAll(forest, m.id) == 1
    ensures m.id in TableOf(menus) && TableOf(menus)[m.id] == m
  {
    TableKeyed(menus);
    TableHolds(menus, m);
    AcyclicExactly(TableOf(menus));
    ForestCount(TableOf(menus), l, forest, m.id);
  }

  // --------------------------------------------------------- one answer in any order

  lemma {:induction false} SpellsUnique(t: Table, l: Links, id: int, a: Tree, b: Tree)
    requires Spells(t, l, id, a) && Spells(t, l, id, b)
    ensures a == b
    decreases a
  {
    forall k | 0 <= k < |a.children| ensures a.children[k] == b.children[k] {
      SpellsUnique(t, l, l.children[id][k], a.children[k], b.children[k]);
    }
    assert a.children == b.children;
  }

  lemma LinksUnique(t: Table, l: Links, l': Links)
    requires DistinctTitles(t) && Linked(t, l) && Linked(t, l')
    ensures l == l'
  {
    forall id | id in t ensures l.children[id] == l'.children[id] {
      ListingUnique(t, l.children[id], l'.children[id], ChildrenOf(t, id));
    }
    assert l.children == l'.children;
    ListingUnique(t, l.roots, l'.roots, Roots(t));
  }

  /** With distinct titles any two builds, whatever order they went through the maps in,
      give the same forest. */
  lemma OneAnswer(t: Table, l: Links, l': Links, forest: seq<Tree>, forest': seq<Tree>)
    requires DistinctTitles(t) && Linked(t, l) && Linked(t, l')
    requires SpellsForest(t, l, forest) && SpellsForest(t, l', forest')
    ensures forest == forest'
  {
    LinksUnique(t, l, l');
    forall k | 0 <= k < |forest| ensures forest[k] == forest'[k] {
      SpellsUnique(t, l, l.roots[k], forest[k], forest'[k]);
    }
  }

  // ------------------------------------------------------------------- building

  /** A node that other nodes point to. */
  class Node {
    const menu: Menu
    var children: seq<Node>

    constructor (menu: Menu)
      ensures this.menu == menu && children == []
    {
      this.menu, children := menu, [];
    }
  }

  /** A root, copied out of its node. */
  datatype Root = Root(menu: Menu, children: seq<Node>)

  function NodeMenu(n: Node): Menu { n.menu }

  function RootMenu(r: Root): Menu { r.menu }

  function Ids<T>(s: seq<T>, key: T -> Menu): seq<int> {
    seq(|s|, i requires 0 <= i < |s| => key(s[i]).id)
  }

  /** One item for each of these menus. */
  ghost predicate Stands<T>(t: Table, s: seq<T>, key: T -> Menu, ids: set<int>) {
    && NoDup(Ids(s, key))
    && (forall i :: 0 <= i < |s| ==> key(s[i]).id in ids && key(s[i]).id in t && t[key(s[i]).id] == key(s[i]))
    && (forall id :: id in ids ==> id in Ids(s, key))
  }

  lemma StandsMore<T>(t: Table, s: seq<T>, key: T -> Menu, ids: set<int>, x: T)
    requires Stands(t, s, key, ids) && key(x).id !in ids && key(x).id in t && t[key(x).id] == key(x)
    ensures Stands(t, s + [x], key, ids + {key(x).id})
  {
    assert Ids(s + [x], key) == Ids(s, key) + [key(x).id];
    forall i | 0 <= i < |s| ensures Ids(s, key)[i] != key(x).id { assert key(s[i]).id in ids; }
  }

  lemma NoDupItems<T>(s: seq<T>, key: T -> Menu)
    requires NoDup(Ids(s, key))
    ensures NoDup(s)
  {
    forall i, j | 0 <= i < j < |s| ensures s[i] != s[j] { assert Ids(s, key)[i] != Ids(s, key)[j]; }
  }

  /** Sorting turns one item per menu into the listing of the menus. */
  lemma SortedListing<T>(t: Table, s: seq<T>, r: seq<T>, key: T -> Menu, ids: set<int>)
    requires Stands(t, s, key, ids) && multiset(r) == multiset(s) && SortedBy(r, key)
    requires forall i, j :: 0 <= i < |s| && 0 <= j < |s| && key(s[i]).id == key(s[j]).id ==> s[i] == s[j]
    ensures Listing(t, Ids(r, key), ids)
  {
    NoDupItems(s, key);
    NoDupPermuted(s, r);
    forall i | 0 <= i < |r|
      ensures r[i] in s && key(r[i]).id in ids && key(r[i]).id in t && t[key(r[i]).id] == key(r[i])
    {
      assert r[i] in multiset(r);
    }
    forall i, j | 0 <= i < j < |r| ensures Ids(r, key)[i] != Ids(r, key)[j] {
      assert r[i] in s && r[j] in s && r[i] != r[j];
    }
    forall id | id in ids ensures id in Ids(r, key) {
      var i :| 0 <= i < |s| && Ids(s, key)[i] == id;
      assert s[i] in multiset(r);
      var j :| 0 <= j < |r| && r[j] == s[i];
      assert Ids(r, key)[j] == id;
    }
    forall id | id in Ids(r, key) ensures id in ids {
      var i :| 0 <= i < |r| && Ids(r, key)[i] == id;
    }
  }

  /** There is one node per menu of the table. */
  ghost predicate Backs(nodes: map<int, Node>, t: Table) {
    Keyed(t) && nodes.Keys == t.Keys && forall id :: id in t ==> nodes[id].menu == t[id]
  }

  /** These pointers lead to nodes of the map. */
  ghost predicate Within(nodes: map<int, Node>, s: seq<Node>) {
    forall i :: 0 <= i < |s| ==> s[i].menu.id in nodes && nodes[s[i].menu.id] == s[i]
  }

  method FillNodes(menus: seq<Menu>) returns (nodes: map<int, Node>)
    ensures Backs(nodes, TableOf(menus)) && fresh(nodes.Values)
    ensures forall id :: id in nodes ==> nodes[id].children == []
  {
    nodes := map[];
    assert TableOf(menus[..0]) == map[];
    for i := 0 to |menus|
      invariant Backs(nodes, TableOf(menus[..i]))
      invariant fresh(nodes.Values) && forall id :: id in nodes ==> nodes[id].children == []
    {
      assert menus[..i + 1][..i] == menus[..i];
      var n := new Node(menus[i]);
      assert nodes[menus[i].id := n].Values <= nodes.Values + {n};
      nodes := nodes[menus[i].id := n];
    }
    assert menus[..|menus|] == menus;
  }

  /** Nodes under the id of their parent, after going over the nodes in `done`. */
  ghost predicate Grouped(nodes: map<int, Node>, t: Table, groups: map<int, seq<Node>>, done: set<int>) {
    && (forall p :: p in groups ==> Within(nodes, groups[p]) && Stands(t, groups[p], NodeMenu, ChildrenOf(t, p) * done))
    && (forall p :: p !in groups ==> ChildrenOf(t, p) * done == {})
  }

  lemma GroupedMore(nodes: map<int, Node>, t: Table, groups: map<int, seq<Node>>, done: set<int>, id: int)
    requires Backs(nodes, t) && Grouped(nodes, t, groups, done) && id in t && id !in done
    ensures var p := t[id].parent;
            var groups' := groups[p := (if p in groups then groups[p] else []) + [nodes[id]]];
            Grouped(nodes, t, if p == 0 then groups else groups', done + {id})
  {
    var p := t[id].parent;
    forall q
      ensures ChildrenOf(t, q) * (done + {id})
           == if q == p != 0 then ChildrenOf(t, q) * done + {id} else ChildrenOf(t, q) * done
    {
    }
    if p != 0 {
      var before := if p in groups then groups[p] else [];
      assert Stands(t, before, NodeMenu, ChildrenOf(t, p) * done);
      StandsMore(t, before, NodeMenu, ChildrenOf(t, p) * done, nodes[id]);
    }
  }

  /** The loop over `nodeMap` that fills `parentChildren`. */
  method GroupChildren(nodes: map<int, Node>, ghost t: Table) returns (groups: map<int, seq<Node>>)
    requires Backs(nodes, t)
    ensures Grouped(nodes, t, groups, t.Keys)
  {
    groups := map[];
    var todo := nodes.Keys;
    ghost var done: set<int> := {};
    while todo != {}
      invariant todo !! done && todo + done == t.Keys
      invariant Grouped(nodes, t, groups, done)
    {
      SomeElement(todo);
      var id :| id in todo;
      GroupedMore(nodes, t, groups, done, id);
      var p := nodes[id].menu.parent;
      if p != 0 {
        groups := groups[p := (if p in groups then groups[p] else []) + [nodes[id]]];
      }
      todo, done := todo - {id}, done + {id};
    }
    assert done == t.Keys;
  }

  /** The children of a node are its children in the table, sorted. */
  ghost predicate ChildrenFit(nodes: map<int, Node>, t: Table, id: int)
    requires id in nodes
    reads nodes[id]
  {
    Within(nodes, nodes[id].children) && Listing(t, Ids(nodes[id].children, NodeMenu), ChildrenOf(t, id))
  }

  method SetChildren(id: int, nodes: map<int, Node>, groups: map<int, seq<Node>>, ghost t: Table)
    requires Backs(nodes, t) && Grouped(nodes, t, groups, t.Keys) && id in nodes && nodes[id].children == []
    modifies nodes[id]
    ensures ChildrenFit(nodes, t, id)
  {
    assert ChildrenOf(t, id) * t.Keys == ChildrenOf(t, id);
    if id in groups {
      var ch := SortSlice(groups[id], NodeMenu);
      SortedListing(t, groups[id], ch, NodeMenu, ChildrenOf(t, id));
      forall i | 0 <= i < |ch| ensures ch[i] in groups[id] { assert ch[i] in multiset(ch); }
      nodes[id].children := ch;
    } else {
      assert Ids<Node>([], NodeMenu) == [];
    }
  }

  /** The roots among `done`, copied with their children. */
  ghost predicate RootsFit(nodes: map<int, Node>, t: Table, roots: seq<Root>, done: set<int>)
    reads nodes.Values
  {
    && Stands(t, roots, RootMenu, Roots(t) * done)
    && forall i :: 0 <= i < |roots| ==>
         roots[i].menu.id in nodes && roots[i].children == nodes[roots[i].menu.id].children
  }

  /** One round of it: the node gets its children and, if it is a root, is copied. */
  method AttachOne(id: int, nodes: map<int, Node>, groups: map<int, seq<Node>>, ghost t: Table, roots: seq<Root>,
                   ghost done: set<int>) returns (roots': seq<Root>)
    requires Backs(nodes, t) && Grouped(nodes, t, groups, t.Keys) && id in nodes && nodes[id].children == []
    requires id !in done && RootsFit(nodes, t, roots, done)
    modifies nodes[id]
    ensures ChildrenFit(nodes, t, id) && RootsFit(nodes, t, roots', done + {id})
  {
    forall i | i in nodes && i != id ensures nodes[i] != nodes[id] { assert nodes[i].menu.id == i; }
    assert forall i :: 0 <= i < |roots| ==> roots[i].menu.id in done;
    SetChildren(id, nodes, groups, t);
    var n := nodes[id];
    RootsMore(nodes, t, roots, done, id);
    roots' := roots;
    if n.menu.parent == 0 || n.menu.parent !in nodes {
      roots' := roots' + [Root(n.menu, n.children)];
    }
  }

  /** The second loop over `nodeMap`. */
  method AttachChildren(nodes: map<int, Node>, groups: map<int, seq<Node>>, ghost t: Table) returns (roots: seq<Root>)
    requires Backs(nodes, t) && Grouped(nodes, t, groups, t.Keys)
    requires forall id :: id in nodes ==> nodes[id].children == []
    modifies nodes.Values
    ensures forall id :: id in nodes ==> ChildrenFit(nodes, t, id)
    ensures RootsFit(nodes, t, roots, t.Keys)
  {
    roots := [];
    var todo := nodes.Keys;
    ghost var done: set<int> := {};
    while todo != {}
      invariant todo !! done && todo + done == t.Keys
      invariant forall id :: id in done ==> ChildrenFit(nodes, t, id)
      invariant forall id :: id in todo ==> nodes[id].children == []
      invariant RootsFit(nodes, t, roots, done)
    {
      SomeElement(todo);
      var id :| id in todo;
      forall i | i in nodes && i != id ensures nodes[i] != nodes[id] { assert nodes[i].menu.id == i; }
      roots := AttachOne(id, nodes, groups, t, roots, done);
      todo, done := todo - {id}, done + {id};
    }
    assert done == t.Keys;
  }

  lemma RootsMore(nodes: map<int, Node>, t: Table, roots: seq<Root>, done: set<int>, id: int)
    requires Backs(nodes, t) && RootsFit(nodes, t, roots, done) && id in t && id !in done
    ensures RootsFit(nodes, t, if IsRoot(t, id) then roots + [Root(t[id], nodes[id].children)] else roots, done + {id})
  {
    if IsRoot(t, id) {
      assert Roots(t) * (done + {id}) == Roots(t) * done + {id};
      StandsMore(t, roots, RootMenu, Roots(t) * done, Root(t[id], nodes[id].children));
    } else {
      assert Roots(t) * (done + {id}) == Roots(t) * done;
    }
  }

  lemma RootsSorted(nodes: map<int, Node>, t: Table, found: seq<Root>, roots: seq<Root>)
    requires Backs(nodes, t) && RootsFit(nodes, t, found, t.Keys)
    requires multiset(roots) == multiset(found) && SortedBy(roots, RootMenu)
    ensures Listing(t, Ids(roots, RootMenu), Roots(t))
    ensures forall i :: 0 <= i < |roots| ==> roots[i] in found
  {
    assert Roots(t) * t.Keys == Roots(t);
    SortedListing(t, found, roots, RootMenu, Roots(t));
    forall i | 0 <= i < |roots| ensures roots[i] in found { assert roots[i] in multiset(roots); }
  }

  /** The pointer structure of an answer. */
  ghost function LinksOf(nodes: map<int, Node>, roots: seq<Root>): Links
    reads nodes.Values
  {
    Links(map id | id in nodes :: Ids(nodes[id].children, NodeMenu), Ids(roots, RootMenu))
  }

  /** The tree found in memory by following the pointers. */
  ghost predicate Shows(menu: Menu, children: seq<Node>, tree: Tree)
    reads *
    decreases tree
  {
    && tree.menu == menu && |tree.children| == |children|
    && forall k :: 0 <= k < |children| ==> Shows(children[k].menu, children[k].children, tree.children[k])
  }

  ghost predicate ShowsForest(roots: seq<Root>, forest: seq<Tree>)
    reads *
  {
    |forest| == |roots| && forall k :: 0 <= k < |roots| ==> Shows(roots[k].menu, roots[k].children, forest[k])
  }

  /** The nodes and roots are those of the table, wherever the pointers lead. */
  ghost predicate Built(nodes: map<int, Node>, t: Table, roots: seq<Root>)
    reads nodes.Values
  {
    && Backs(nodes, t) && Linked(t, LinksOf(nodes, roots))
    && (forall id :: id in nodes ==> Within(nodes, nodes[id].children))
    && (forall i :: 0 <= i < |roots| ==>
          && roots[i].menu.id in nodes && roots[i].menu == nodes[roots[i].menu.id].menu
          && roots[i].children == nodes[roots[i].menu.id].children)
  }

  lemma {:induction false} ShowsSpells(nodes: map<int, Node>, t: Table, roots: seq<Root>, id: int, tree: Tree)
    requires Built(nodes, t, roots) && id in nodes
    ensures Shows(nodes[id].menu, nodes[id].children, tree) <==> Spells(t, LinksOf(nodes, roots), id, tree)
    decreases tree
  {
    var l, ns := LinksOf(nodes, roots), nodes[id].children;
    assert l.children[id] == Ids(ns, NodeMenu);
    if |tree.children| == |ns| {
      forall k | 0 <= k < |ns|
        ensures Shows(ns[k].menu, ns[k].children, tree.children[k])
                <==> Spells(t, l, l.children[id][k], tree.children[k])
      {
        assert nodes[ns[k].menu.id] == ns[k];
        ShowsSpells(nodes, t, roots, ns[k].menu.id, tree.children[k]);
      }
    }
  }

  lemma ShowsSpellsForest(nodes: map<int, Node>, t: Table, roots: seq<Root>, forest: seq<Tree>)
    requires Built(nodes, t, roots)
    ensures ShowsForest(roots, forest) <==> SpellsForest(t, LinksOf(nodes, roots), forest)
  {
    var l := LinksOf(nodes, roots);
    if |forest| == |roots| {
      forall k | 0 <= k < |roots|
        ensures Shows(roots[k].menu, roots[k].children, forest[k]) <==> Spells(t, l, l.roots[k], forest[k])
      {
        var r := roots[k].menu.id;
        assert l.roots[k] == RootMenu(roots[k]).id;
        ShowsSpells(nodes, t, roots, r, forest[k]);
      }
    }
  }

  /** What the caller finds: a forest, with every id once or, if climbing from it reaches
      no root, not at all. */
  lemma BuiltForest(nodes: map<int, Node>, t: Table, roots: seq<Root>)
    requires Built(nodes, t, roots)
    ensures exists forest :: ShowsForest(roots, forest)
    ensures forall forest, id :: ShowsForest(roots, forest) ==> CountAll(forest, id) == if Reaches(t, id) then 1 else 0
  {
    var some := ForestExists(t, LinksOf(nodes, roots));
    ShowsSpellsForest(nodes, t, roots, some);
    forall forest, id | ShowsForest(roots, forest) ensures CountAll(forest, id) == if Reaches(t, id) then 1 else 0 {
      ShowsSpellsForest(nodes, t, roots, forest);
      ForestCount(t, LinksOf(nodes, roots), forest, id);
    }
  }

  /** Two answers for the same menus show the same forest. */
  lemma SameAnswer(nodes: map<int, Node>, roots: seq<Root>, nodes': map<int, Node>, roots': seq<Root>, t: Table,
                   forest: seq<Tree>, forest': seq<Tree>)
    requires DistinctTitles(t) && Built(nodes, t, roots) && Built(nodes', t, roots')
    requires ShowsForest(roots, forest) && ShowsForest(roots', forest')
    ensures forest == forest'
  {
    ShowsSpellsForest(nodes, t, roots, forest);
    ShowsSpellsForest(nodes', t, roots', forest');
    OneAnswer(t, LinksOf(nodes, roots), LinksOf(nodes', roots'), forest, forest');
  }

  /** Whatever order the maps are gone through in: the answer is exactly the roots,
      sorted; each node points to exactly its children, sorted; and following the pointers
      shows every menu that reaches a root once. */
  method BuildMenuTree(menus: seq<Menu>) returns (roots: seq<Root>, ghost nodes: map<int, Node>)
    ensures Listing(TableOf(menus), Ids(roots, RootMenu), Roots(TableOf(menus)))
    ensures forall id :: id in Ids(roots, RootMenu) <==>
              id in TableOf(menus) && (TableOf(menus)[id].parent == 0 || TableOf(menus)[id].parent !in TableOf(menus))
    ensures Built(nodes, TableOf(menus), roots)
    ensures exists forest :: ShowsForest(roots, forest)
    ensures forall forest, id :: ShowsForest(roots, forest) ==>
              CountAll(forest, id) == if Reaches(TableOf(menus), id) then 1 else 0
  {
    ghost var t := TableOf(menus);
    var nodeMap := FillNodes(menus);
    var parentChildren := GroupChildren(nodeMap, t);
    var found := AttachChildren(nodeMap, parentChildren, t);
    roots := SortSlice(found, RootMenu);
    nodes := nodeMap;
    RootsSorted(nodes, t, found, roots);
    BuiltForest(nodes, t, roots);
  }
}
