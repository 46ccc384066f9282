/** The tree holds every entry whose parents lead to a root, and the active branch is such a chain. */
module ActiveBranch {
  import opened Wrappers
  import opened ParentChains
  import opened SessionTree
  import opened TextLines

  // ----- flattening

  function Flatten(trees: seq<Tree>): seq<Entry> {
    if trees == [] then [] else [trees[0].entry] + Flatten(trees[0].children) + Flatten(trees[1..])
  }

  // The trees are all the grown ones below one parent, in some order, each once.
  ghost predicate Level(flat: seq<Entry>, trees: seq<Tree>, depth: nat) {
    && (forall i, j :: 0 <= i < j < |trees| ==> trees[i].entry.id != trees[j].entry.id)
    && (forall i :: 0 <= i < |trees| ==>
          Grown(flat, trees[i]) && trees[i].entry in flat && Rooted(Parents(flat), trees[i].entry.id, depth))
  }

  lemma {:induction false} UpSnoc(parents: map<string, string>, id: string, k: nat)
    ensures Up(parents, id, k + 1)
            == if Up(parents, id, k).Some? then LinkOf(parents, Up(parents, id, k).value) else None
    decreases k
  {
    if k > 0 && id in parents {
      UpSnoc(parents, parents[id], k - 1);
    }
  }

  lemma {:induction false} KeysAreIds(flat: seq<Entry>, id: string) returns (e: Entry)
    requires id in Parents(flat)
    ensures e in flat && e.id == id
  {
    TableKey(Ids(flat), flat, id);
    var i :| 0 <= i < |flat| && flat[i].id == id;
    e := flat[i];
  }

  lemma {:induction false} SameEntry(flat: seq<Entry>, a: Entry, b: Entry)
    requires DistinctIds(flat) && a in flat && b in flat && a.id == b.id
    ensures a == b
  {
    var i :| 0 <= i < |flat| && flat[i] == a;
    var j :| 0 <= j < |flat| && flat[j] == b;
  }

  // A tree's children are exactly the entries linked to it.
  lemma {:induction false} ChildrenAre(flat: seq<Entry>, tree: Tree, e: Entry)
    requires DistinctIds(flat) && Grown(flat, tree)
    ensures (exists i :: 0 <= i < |tree.children| && tree.children[i].entry == e)
            <==> e in flat && LinkOf(Parents(flat), e.id) == Some(tree.entry.id)
  {
    var sorted := SortByTime(ChildrenOf(flat, Some(tree.entry.id)));
    SortedIn(ChildrenOf(flat, Some(tree.entry.id)), e);
    UnderIsLinked(flat, Some(tree.entry.id), e);
    assert e in sorted <==> exists i :: 0 <= i < |sorted| && sorted[i] == e;
    assert forall i :: 0 <= i < |sorted| ==> sorted[i] == tree.children[i].entry;
  }

  lemma {:induction false} SortedDistinct(flat: seq<Entry>, parent: Option<string>)
    requires DistinctIds(flat)
    ensures DistinctIds(SortByTime(ChildrenOf(flat, parent)))
  {
    var sorted := SortByTime(ChildrenOf(flat, parent));
    SortByTimePermutes(ChildrenOf(flat, parent));
    forall i, j | 0 <= i < j < |sorted|
      ensures sorted[i].id != sorted[j].id
    {
      if sorted[i].id == sorted[j].id {
        SortedIn(ChildrenOf(flat, parent), sorted[i]);
        SortedIn(ChildrenOf(flat, parent), sorted[j]);
        UnderIsLinked(flat, parent, sorted[i]);
        UnderIsLinked(flat, parent, sorted[j]);
        SameEntry(flat, sorted[i], sorted[j]);
        TwiceInMultiset(sorted, i, j);
        UnderHas(Ids(flat), flat, parent, sorted[i]);
        OnceInFlat(flat, sorted[i]);
      }
    }
  }

  lemma {:induction false} TwiceInMultiset(s: seq<Entry>, i: nat, j: nat)
    requires i < j < |s| && s[i] == s[j]
    ensures multiset(s)[s[i]] >= 2
  {
    assert s == s[..j] + [s[j]] + s[j + 1..];
    assert s[..j][i] == s[i];
    assert s[i] in s[..j];
  }

  lemma {:induction false} OnceInFlat(flat: seq<Entry>, e: Entry)
    requires DistinctIds(flat)
    ensures multiset(flat)[e] == if e in flat then 1 else 0
  {
    if flat != [] {
      var front, last := flat[..|flat| - 1], flat[|flat| - 1];
      assert flat == front + [last];
      OnceInFlat(front, e);
      assert last !in front;
    }
  }

  lemma {:induction false} NextLevel(flat: seq<Entry>, tree: Tree, depth: nat)
    requires DistinctIds(flat) && Grown(flat, tree) && Rooted(Parents(flat), tree.entry.id, depth)
    ensures Level(flat, tree.children, depth + 1)
  {
    SortedDistinct(flat, Some(tree.entry.id));
    var sorted := SortByTime(ChildrenOf(flat, Some(tree.entry.id)));
    assert forall i :: 0 <= i < |sorted| ==> sorted[i] == tree.children[i].entry;
    forall i | 0 <= i < |tree.children|
      ensures tree.children[i].entry in flat && Rooted(Parents(flat), tree.children[i].entry.id, depth + 1)
    {
      ChildrenAre(flat, tree, tree.children[i].entry);
    }
  }

  lemma {:induction false} RootLevel(flat: seq<Entry>, roots: seq<Tree>)
    requires DistinctIds(flat) && Forest(flat, roots)
    ensures Level(flat, roots, 0)
    ensures forall e :: e in flat && e.id !in Parents(flat) ==> exists i :: 0 <= i < |roots| && roots[i].entry == e
  {
    SortedDistinct(flat, None);
    var sorted := SortByTime(ChildrenOf(flat, None));
    assert forall i :: 0 <= i < |sorted| ==> sorted[i] == roots[i].entry;
    forall e
      ensures e in sorted <==> e in flat && e.id !in Parents(flat)
    {
      SortedIn(ChildrenOf(flat, None), e);
      UnderIsLinked(flat, None, e);
    }
  }

  // ----- every rooted entry once

  predicate Names(trees: seq<Tree>, id: string) {
    exists i :: 0 <= i < |trees| && trees[i].entry.id == id
  }

  lemma {:induction false} ChildIdsAre(flat: seq<Entry>, tree: Tree, id: string)
    requires DistinctIds(flat) && Grown(flat, tree)
    ensures Names(tree.children, id) <==> LinkOf(Parents(flat), id) == Some(tree.entry.id)
  {
    if id in Parents(flat) {
      var entry := KeysAreIds(flat, id);
      ChildrenAre(flat, tree, entry);
    }
    if Names(tree.children, id) {
      var i :| 0 <= i < |tree.children| && tree.children[i].entry.id == id;
      ChildrenAre(flat, tree, tree.children[i].entry);
    }
  }

  // An entry d steps from its root lies below one of the trees, whose entries are depth steps
  // from theirs: its ancestor at that depth is one of them.
  predicate Reaches(parents: map<string, string>, trees: seq<Tree>, depth: nat, id: string, d: nat) {
    d >= depth && Up(parents, id, d - depth).Some? && Names(trees, Up(parents, id, d - depth).value)
  }

  predicate ReachesOne(parents: map<string, string>, id: string, depth: nat, leaf: string, d: nat) {
    d >= depth && Up(parents, leaf, d - depth) == Some(id)
  }

  ghost predicate ChildNames(parents: map<string, string>, tree: Tree) {
    forall id :: Names(tree.children, id) <==> LinkOf(parents, id) == Some(tree.entry.id)
  }

  lemma {:induction false} NamesOfChildren(flat: seq<Entry>, tree: Tree)
    requires DistinctIds(flat) && Grown(flat, tree)
    ensures ChildNames(Parents(flat), tree)
  {
    forall id
      ensures Names(tree.children, id) <==> LinkOf(Parents(flat), id) == Some(tree.entry.id)
    {
      ChildIdsAre(flat, tree, id);
    }
  }

  // It is the tree's own entry, or below one of the children.
  lemma {:induction false} BelowOne(parents: map<string, string>, tree: Tree, depth: nat, id: string, d: nat)
    requires ChildNames(parents, tree) && Rooted(parents, tree.entry.id, depth) && Rooted(parents, id, d)
    ensures ReachesOne(parents, tree.entry.id, depth, id, d)
            <==> id == tree.entry.id || Reaches(parents, tree.children, depth + 1, id, d)
    ensures id == tree.entry.id ==> !Reaches(parents, tree.children, depth + 1, id, d)
  {
    if id == tree.entry.id {
      RootedOnce(parents, id, d, depth);
    }
    if d > depth {
      UpRooted(parents, id, d, d - depth - 1);
      UpSnoc(parents, id, d - depth - 1);
    }
  }

  lemma {:induction false} CountTrees(flat: seq<Entry>, trees: seq<Tree>, depth: nat, e: Entry, d: nat)
    requires DistinctIds(flat) && Level(flat, trees, depth)
    requires e in flat && Rooted(Parents(flat), e.id, d)
    ensures multiset(Flatten(trees))[e] == if Reaches(Parents(flat), trees, depth, e.id, d) then 1 else 0
    decreases trees
  {
    if trees != [] {
      NextLevel(flat, trees[0], depth);
      CountTrees(flat, trees[0].children, depth + 1, e, d);
      CountTrees(flat, trees[1..], depth, e, d);
      CountStep(flat, trees, depth, e, d);
      FlattenCount(trees, e);
    }
  }

  lemma {:induction false} CountStep(flat: seq<Entry>, trees: seq<Tree>, depth: nat, e: Entry, d: nat)
    requires DistinctIds(flat) && Level(flat, trees, depth) && trees != []
    requires e in flat && Rooted(Parents(flat), e.id, d)
    ensures (if Reaches(Parents(flat), trees, depth, e.id, d) then 1 else 0)
            == (if trees[0].entry == e then 1 else 0)
               + (if Reaches(Parents(flat), trees[0].children, depth + 1, e.id, d) then 1 else 0)
               + (if Reaches(Parents(flat), trees[1..], depth, e.id, d) then 1 else 0)
  {
    var tree, parents := trees[0], Parents(flat);
    NamesOfChildren(flat, tree);
    BelowOne(parents, tree, depth, e.id, d);
    assert e.id == tree.entry.id <==> e == tree.entry by {
      if e.id == tree.entry.id { SameEntry(flat, e, tree.entry); }
    }
    assert ReachesOne(parents, tree.entry.id, depth, e.id, d) ==> !Reaches(parents, trees[1..], depth, e.id, d);
  }

  lemma {:induction false} FlattenCount(trees: seq<Tree>, e: Entry)
    requires trees != []
    ensures multiset(Flatten(trees))[e]
            == (if trees[0].entry == e then 1 else 0) + multiset(Flatten(trees[0].children))[e]
                + multiset(Flatten(trees[1..]))[e]
  {
  }

  lemma {:induction false} LevelParts(flat: seq<Entry>, trees: seq<Tree>, depth: nat)
    requires DistinctIds(flat) && Level(flat, trees, depth) && trees != []
    ensures Level(flat, trees[0].children, depth + 1) && Level(flat, trees[1..], depth)
    ensures trees[0].entry in flat && HasRoot(Parents(flat), trees[0].entry.id)
  {
    NextLevel(flat, trees[0], depth);
  }

  lemma {:induction false} FlattenIn(flat: seq<Entry>, trees: seq<Tree>, depth: nat, e: Entry)
    requires DistinctIds(flat) && Level(flat, trees, depth) && e in Flatten(trees)
    ensures e in flat && HasRoot(Parents(flat), e.id)
    decreases trees
  {
    if trees != [] {
      LevelParts(flat, trees, depth);
      if e in Flatten(trees[0].children) {
        FlattenIn(flat, trees[0].children, depth + 1, e);
      } else if e in Flatten(trees[1..]) {
        FlattenIn(flat, trees[1..], depth, e);
      }
    }
  }

  // The forest holds exactly the entries whose chain of parents ends at a root, each once.
  lemma {:induction false} TreeHoldsTheRooted(flat: seq<Entry>, roots: seq<Tree>, e: Entry)
    requires DistinctIds(flat) && Forest(flat, roots)
    ensures multiset(Flatten(roots))[e] == if e in flat && HasRoot(Parents(flat), e.id) then 1 else 0
  {
    RootLevel(flat, roots);
    assert e in Flatten(roots) <==> multiset(Flatten(roots))[e] > 0;
    if e in Flatten(roots) {
      FlattenIn(flat, roots, 0, e);
    }
    if e in flat && HasRoot(Parents(flat), e.id) {
      var d: nat :| Rooted(Parents(flat), e.id, d);
      CountTrees(flat, roots, 0, e, d);
      TopIsRoot(flat, roots, e, d);
    }
  }

  lemma {:induction false} ParentIsEntry(flat: seq<Entry>, id: string) returns (parent: Entry)
    requires id in Parents(flat)
    ensures parent in flat && parent.id == Parents(flat)[id]
  {
    TableKey(Ids(flat), flat, id);
    assert Parents(flat)[id] in Ids(flat);
    var j :| 0 <= j < |flat| && flat[j].id == Parents(flat)[id];
    parent := flat[j];
  }

  lemma {:induction false} AncestorIsEntry(flat: seq<Entry>, e: Entry, k: nat) returns (ancestor: Entry)
    requires DistinctIds(flat) && e in flat && Up(Parents(flat), e.id, k).Some?
    ensures ancestor in flat && Up(Parents(flat), e.id, k) == Some(ancestor.id)
  {
    if k == 0 {
      ancestor := e;
    } else {
      UpSnoc(Parents(flat), e.id, k - 1);
      ancestor := ParentIsEntry(flat, Up(Parents(flat), e.id, k - 1).value);
    }
  }

  lemma {:induction false} TopIsRoot(flat: seq<Entry>, roots: seq<Tree>, e: Entry, d: nat)
    requires DistinctIds(flat) && Forest(flat, roots) && e in flat && Rooted(Parents(flat), e.id, d)
    ensures Reaches(Parents(flat), roots, 0, e.id, d)
  {
    UpRooted(Parents(flat), e.id, d, d);
    var top := AncestorIsEntry(flat, e, d);
    RootLevel(flat, roots);
    var i :| 0 <= i < |roots| && roots[i].entry == top;
  }

  lemma {:induction false} EntryCount(flat: seq<Entry>, roots: seq<Tree>, e: Entry)
    requires DistinctIds(flat) && Forest(flat, roots)
    ensures multiset(Flatten(roots))[e] == if EntersCycle(Parents(flat), e.id) then 0 else multiset(flat)[e]
    ensures e in flat ==> multiset(flat)[e] == 1
  {
    TreeHoldsTheRooted(flat, roots, e);
    OnceInFlat(flat, e);
    RootOrCycle(Parents(flat), e.id);
  }

  // Nothing is lost or repeated exactly when no chain of parents runs into a cycle.
  lemma {:induction false} FlatteningIsPermutation(flat: seq<Entry>, roots: seq<Tree>)
    requires DistinctIds(flat) && Forest(flat, roots)
    ensures multiset(Flatten(roots)) == multiset(flat) <==> forall e :: e in flat ==> !EntersCycle(Parents(flat), e.id)
  {
    var all, kept := multiset(flat), multiset(Flatten(roots));
    if forall e :: e in flat ==> !EntersCycle(Parents(flat), e.id) {
      forall e: Entry
        ensures kept[e] == all[e]
      {
        EntryCount(flat, roots, e);
        assert e in flat <==> e in all;
      }
      assert kept == all;
    } else {
      var e :| e in flat && EntersCycle(Parents(flat), e.id);
      EntryCount(flat, roots, e);
      assert kept[e] != all[e];
    }
  }

  // ----- the active branch

  // The way from the leaf up to the top, if the trees hold the leaf.
  function PathTo(trees: seq<Tree>, leaf: string): Option<seq<Entry>> {
    if trees == [] then None
    else if trees[0].entry.id == leaf then Some([trees[0].entry])
    else
      var below := PathTo(trees[0].children, leaf);
      if below.Some? then Some(below.value + [trees[0].entry]) else PathTo(trees[1..], leaf)
  }

  // Search the items and what is below them; push the way back on success.
  method Walk(items: seq<Tree>, leaf: string, before: seq<Entry>) returns (found: bool, path: seq<Entry>)
    ensures found == PathTo(items, leaf).Some?
    ensures path == before + PathTo(items, leaf).GetOr([])
    decreases items
  {
    path := before;
    ghost var rest := items;
    for i := 0 to |items|
      invariant rest == items[i..] && path == before
      invariant PathTo(items, leaf) == PathTo(rest, leaf)
    {
      var node := items[i];
      assert rest[0] == node && rest[1..] == items[i + 1..];
      if node.entry.id == leaf {
        return true, path + [node.entry];
      }
      var inside, extended := Walk(node.children, leaf, path);
      if inside {
        assert extended + [node.entry] == before + (PathTo(node.children, leaf).value + [node.entry]);
        return true, extended + [node.entry];
      }
      rest := rest[1..];
    }
    assert before + [] == before;
    return false, path;
  }

  function Branch(roots: seq<Tree>, leafId: string): seq<Entry> {
    if leafId == "" then [] else Reverse(PathTo(roots, leafId).GetOr([]))
  }

  method FindActiveBranchEntries(roots: seq<Tree>, leafId: string) returns (branch: seq<Entry>)
    ensures branch == Branch(roots, leafId)
  {
    if leafId == "" { return []; }
    var found, path := Walk(roots, leafId, []);
    assert [] + PathTo(roots, leafId).GetOr([]) == PathTo(roots, leafId).GetOr([]);
    branch := Reverse(path);
  }

  // The entries of a path are the leaf and its ancestors, step by step.
  predicate Chain(parents: map<string, string>, leaf: string, path: seq<Entry>) {
    forall k :: 0 <= k < |path| ==> Up(parents, leaf, k) == Some(path[k].id)
  }

  // Every tree names its children by the parent table.
  ghost predicate Tabled(parents: map<string, string>, trees: seq<Tree>) {
    forall i :: 0 <= i < |trees| ==> ChildNames(parents, trees[i]) && Tabled(parents, trees[i].children)
  }

  lemma {:induction false} GrownIsTabled(flat: seq<Entry>, trees: seq<Tree>)
    requires DistinctIds(flat) && forall i :: 0 <= i < |trees| ==> Grown(flat, trees[i])
    ensures Tabled(Parents(flat), trees)
    decreases trees
  {
    forall i | 0 <= i < |trees|
      ensures ChildNames(Parents(flat), trees[i]) && Tabled(Parents(flat), trees[i].children)
    {
      NamesOfChildren(flat, trees[i]);
      GrownIsTabled(flat, trees[i].children);
    }
  }

  lemma {:induction false} PathIsChain(parents: map<string, string>, trees: seq<Tree>, leaf: string)
    requires Tabled(parents, trees) && PathTo(trees, leaf).Some?
    ensures var path := PathTo(trees, leaf).value;
            path != [] && Chain(parents, leaf, path) && Names(trees, path[|path| - 1].id)
    decreases trees
  {
    var tree := trees[0];
    if tree.entry.id != leaf {
      if PathTo(tree.children, leaf).Some? {
        PathIsChain(parents, tree.children, leaf);
        UpSnoc(parents, leaf, |PathTo(tree.children, leaf).value| - 1);
      } else {
        var rest := trees[1..];
        assert forall i :: 0 <= i < |rest| ==> rest[i] == trees[i + 1];
        PathIsChain(parents, rest, leaf);
      }
    }
  }

  lemma {:induction false} PathInFlatten(trees: seq<Tree>, leaf: string, e: Entry)
    requires PathTo(trees, leaf).Some? && e in PathTo(trees, leaf).value
    ensures e in Flatten(trees)
    decreases trees
  {
    if trees[0].entry.id != leaf && e != trees[0].entry {
      if PathTo(trees[0].children, leaf).Some? {
        PathInFlatten(trees[0].children, leaf, e);
      } else {
        PathInFlatten(trees[1..], leaf, e);
      }
    }
  }

  lemma {:induction false} PathFinds(trees: seq<Tree>, leaf: string)
    ensures PathTo(trees, leaf).None? ==> forall e :: e in Flatten(trees) ==> e.id != leaf
    decreases trees
  {
    if trees != [] && trees[0].entry.id != leaf {
      PathFinds(trees[0].children, leaf);
      PathFinds(trees[1..], leaf);
    }
  }

  lemma {:induction false} ReverseAt(path: seq<Entry>)
    ensures forall k :: 0 <= k < |path| ==> Reverse(path)[k] == path[|path| - 1 - k]
  {
    if path != [] {
      var front := path[..|path| - 1];
      ReverseAt(front);
      assert forall k :: 0 <= k < |front| ==> Reverse(path)[k + 1] == Reverse(front)[k];
    }
  }

  lemma {:induction false} RootOfChain(parents: map<string, string>, id: string, k: nat)
    requires Up(parents, id, k).Some? && Up(parents, id, k).value !in parents
    ensures Rooted(parents, id, k)
    decreases k
  {
    if k > 0 {
      RootOfChain(parents, parents[id], k - 1);
    }
  }

  lemma {:induction false} RootsAreUnlinked(flat: seq<Entry>, roots: seq<Tree>, id: string)
    requires DistinctIds(flat) && Forest(flat, roots) && Names(roots, id)
    ensures id !in Parents(flat)
  {
    RootLevel(flat, roots);
    var i :| 0 <= i < |roots| && roots[i].entry.id == id;
    assert Rooted(Parents(flat), roots[i].entry.id, 0);
  }

  // The path from a leaf that the forest holds ends at a root.
  lemma {:induction false} PathEndsAtRoot(flat: seq<Entry>, roots: seq<Tree>, leaf: string)
    requires DistinctIds(flat) && Forest(flat, roots) && PathTo(roots, leaf).Some?
    ensures var path := PathTo(roots, leaf).value;
            path != [] && Chain(Parents(flat), leaf, path) && Rooted(Parents(flat), leaf, |path| - 1)
  {
    hide PathTo, Parents, DistinctIds, Up, Rooted;
    var path, parents := PathTo(roots, leaf).value, Parents(flat);
    GrownIsTabled(flat, roots);
    PathIsChain(parents, roots, leaf);
    RootsAreUnlinked(flat, roots, path[|path| - 1].id);
    RootOfChain(parents, leaf, |path| - 1);
  }

  lemma {:induction false} PathIsOfEntries(flat: seq<Entry>, roots: seq<Tree>, leaf: string, e: Entry)
    requires DistinctIds(flat) && Forest(flat, roots) && PathTo(roots, leaf).Some? && e in PathTo(roots, leaf).value
    ensures e in flat
  {
    RootLevel(flat, roots);
    PathInFlatten(roots, leaf, e);
    FlattenIn(flat, roots, 0, e);
  }

  // The forest has a path to a leaf exactly when the leaf's chain of parents ends.
  lemma {:induction false} PathExists(flat: seq<Entry>, roots: seq<Tree>, leaf: Entry)
    requires DistinctIds(flat) && Forest(flat, roots) && leaf in flat
    ensures PathTo(roots, leaf.id).Some? <==> HasRoot(Parents(flat), leaf.id)
  {
    PathFinds(roots, leaf.id);
    TreeHoldsTheRooted(flat, roots, leaf);
    assert leaf in multiset(Flatten(roots)) <==> leaf in Flatten(roots);
    if PathTo(roots, leaf.id).Some? {
      PathEndsAtRoot(flat, roots, leaf.id);
    }
  }

  // From a root down to the leaf, along the leaf's chain of parents.
  predicate ParentChain(parents: map<string, string>, leaf: string, branch: seq<Entry>) {
    && branch != [] && Rooted(parents, leaf, |branch| - 1)
    && forall k :: 0 <= k < |branch| ==> Up(parents, leaf, |branch| - 1 - k) == Some(branch[k].id)
  }

  lemma {:induction false} ReversedChain(parents: map<string, string>, leaf: string, path: seq<Entry>)
    requires path != [] && Chain(parents, leaf, path) && Rooted(parents, leaf, |path| - 1)
    ensures ParentChain(parents, leaf, Reverse(path))
    ensures forall e :: e in Reverse(path) ==> e in path
  {
    ReverseAt(path);
  }

  // The active branch is the leaf's chain of parents, or empty when that runs into a cycle.
  lemma {:induction false} ActiveBranchIsParentChain(flat: seq<Entry>, roots: seq<Tree>, leaf: Entry)
    requires DistinctIds(flat) && Forest(flat, roots) && leaf in flat && leaf.id != ""
    ensures if EntersCycle(Parents(flat), leaf.id) then Branch(roots, leaf.id) == []
            else ParentChain(Parents(flat), leaf.id, Branch(roots, leaf.id))
    ensures forall e :: e in Branch(roots, leaf.id) ==> e in flat
  {
    var parents := Parents(flat);
    RootOrCycle(parents, leaf.id);
    PathExists(flat, roots, leaf);
    if PathTo(roots, leaf.id).Some? {
      var path := PathTo(roots, leaf.id).value;
      PathEndsAtRoot(flat, roots, leaf.id);
      ReversedChain(parents, leaf.id, path);
      forall e | e in path
        ensures e in flat
      {
        PathIsOfEntries(flat, roots, leaf.id, e);
      }
    }
  }

  // ----- the snapshot for the browser

  datatype SnapshotNode = SnapshotNode(id: string, parentId: Option<string>, isLeaf: bool, isOnActiveBranch: bool,
                                       messageIndex: Option<nat>, children: seq<SnapshotNode>)

  function IndexOf(positions: map<string, nat>, id: string): Option<nat> {
    if id in positions then Some(positions[id]) else None
  }

  function MapNodes(trees: seq<Tree>, leafId: string, activePath: set<string>,
                    positions: map<string, nat>): seq<SnapshotNode> {
    if trees == [] then []
    else
      var entry := trees[0].entry;
      [SnapshotNode(entry.id, if entry.parentId != "" then Some(entry.parentId) else None, entry.id == leafId,
                    entry.id in activePath, IndexOf(positions, entry.id),
                    MapNodes(trees[0].children, leafId, activePath, positions))]
      + MapNodes(trees[1..], leafId, activePath, positions)
  }

  function BranchIds(branch: seq<Entry>): set<string> {
    set i | 0 <= i < |branch| :: branch[i].id
  }

  // The first node with an id, searching each node before the ones below it.
  function FindNode(nodes: seq<SnapshotNode>, id: string): Option<SnapshotNode> {
    if nodes == [] then None
    else if nodes[0].id == id then Some(nodes[0])
    else
      var nested := FindNode(nodes[0].children, id);
      if nested.Some? then nested else FindNode(nodes[1..], id)
  }

  // The snapshot has the tree's shape: each node its entry's id and parent, and the same children in
  // the same order.
  ghost predicate SameShape(trees: seq<Tree>, nodes: seq<SnapshotNode>)
    decreases trees
  {
    && |nodes| == |trees|
    && forall i :: 0 <= i < |trees| ==>
         && nodes[i].id == trees[i].entry.id
         && nodes[i].parentId == (if trees[i].entry.parentId == "" then None else Some(trees[i].entry.parentId))
         && SameShape(trees[i].children, nodes[i].children)
  }

  lemma {:induction false} MappingKeepsShape(trees: seq<Tree>, leafId: string, activePath: set<string>,
                                             positions: map<string, nat>)
    ensures SameShape(trees, MapNodes(trees, leafId, activePath, positions))
    decreases trees
  {
    if trees != [] {
      var nodes := MapNodes(trees, leafId, activePath, positions);
      MappingKeepsShape(trees[0].children, leafId, activePath, positions);
      MappingKeepsShape(trees[1..], leafId, activePath, positions);
      assert nodes[1..] == MapNodes(trees[1..], leafId, activePath, positions);
      assert forall i :: 1 <= i < |trees| ==> trees[i] == trees[1..][i - 1] && nodes[i] == nodes[1..][i - 1];
    }
  }

  // Looking an id up finds a node exactly when the tree has the entry, with that id's flags.
  lemma {:induction false} FindMapped(trees: seq<Tree>, leafId: string, activePath: set<string>,
                                      positions: map<string, nat>, id: string)
    ensures var found := FindNode(MapNodes(trees, leafId, activePath, positions), id);
            && (found.Some? <==> PathTo(trees, id).Some?)
            && (found.Some? ==> found.value.id == id && found.value.isLeaf == (id == leafId)
                                && found.value.isOnActiveBranch == (id in activePath)
                                && found.value.messageIndex == IndexOf(positions, id))
    decreases trees
  {
    if trees != [] && trees[0].entry.id != id {
      FindMapped(trees[0].children, leafId, activePath, positions, id);
      FindMapped(trees[1..], leafId, activePath, positions, id);
      var nodes := MapNodes(trees, leafId, activePath, positions);
      assert nodes[0].children == MapNodes(trees[0].children, leafId, activePath, positions);
      assert nodes[1..] == MapNodes(trees[1..], leafId, activePath, positions);
    }
  }

  lemma {:induction false} OnBranch(parents: map<string, string>, leaf: string, branch: seq<Entry>, id: string)
    requires ParentChain(parents, leaf, branch)
    ensures id in BranchIds(branch) <==> exists k: nat :: Up(parents, leaf, k) == Some(id)
  {
    if id in BranchIds(branch) {
      var i :| 0 <= i < |branch| && branch[i].id == id;
      assert Up(parents, leaf, |branch| - 1 - i) == Some(id);
    }
    if k: nat :| Up(parents, leaf, k) == Some(id) {
      UpRooted(parents, leaf, |branch| - 1, k);
      assert branch[|branch| - 1 - k].id == id;
    }
  }

  // A leaf id that no entry has gives no branch.
  lemma {:induction false} UnknownLeaf(flat: seq<Entry>, roots: seq<Tree>, leafId: string)
    requires DistinctIds(flat) && Forest(flat, roots) && leafId !in Ids(flat)
    ensures Branch(roots, leafId) == []
  {
    if PathTo(roots, leafId).Some? {
      var path := PathTo(roots, leafId).value;
      PathEndsAtRoot(flat, roots, leafId);
      assert path[0].id == leafId by { assert Up(Parents(flat), leafId, 0) == Some(path[0].id); }
      PathIsOfEntries(flat, roots, leafId, path[0]);
      assert false;
    }
  }

  // A node is in the snapshot exactly when its chain ends. It is flagged exactly when it is the leaf
  // or one of its ancestors; when there is no leaf, or the leaf's own chain does not end, none is.
  lemma {:induction false} ActiveFlagsAreAncestors(flat: seq<Entry>, roots: seq<Tree>, leafId: string,
                                                   positions: map<string, nat>,
                                                   e: Entry)
    requires DistinctIds(flat) && Forest(flat, roots) && e in flat
    ensures var parents := Parents(flat);
            var found := FindNode(MapNodes(roots, leafId, BranchIds(Branch(roots, leafId)), positions), e.id);
            && (found.Some? <==> !EntersCycle(parents, e.id))
            && (found.Some? ==>
                  && found.value.isLeaf == (e.id == leafId) && found.value.messageIndex == IndexOf(positions, e.id)
                  && (found.value.isOnActiveBranch
                      <==> leafId != "" && leafId in Ids(flat) && !EntersCycle(parents, leafId)
                           && exists k: nat :: Up(parents, leafId, k) == Some(e.id)))
  {
    FindMapped(roots, leafId, BranchIds(Branch(roots, leafId)), positions, e.id);
    PathExists(flat, roots, e);
    RootOrCycle(Parents(flat), e.id);
    if leafId !in Ids(flat) {
      UnknownLeaf(flat, roots, leafId);
    } else if leafId != "" {
      var leaf :| leaf in flat && leaf.id == leafId;
      ActiveBranchIsParentChain(flat, roots, leaf);
      if !EntersCycle(Parents(flat), leafId) {
        OnBranch(Parents(flat), leafId, Branch(roots, leafId), e.id);
      }
    }
  }
}
