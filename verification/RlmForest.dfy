/** The execution tree of recursive children, rebuilt from a flat list of (id, parent) records. */
module RlmForest {
  import opened Wrappers
  import opened ParentChains

  // An empty parent id is a missing one.
  datatype Child = Child(id: string, parentId: string)

  datatype Node = Node(child: Child, depth: nat, childrenIds: seq<string>)

  datatype Tree = Tree(rootSessionId: string, nodes: map<string, Node>, rootChildrenIds: seq<string>)

  // ----- which child hangs where

  function Ids(children: seq<Child>): set<string> {
    set i | 0 <= i < |children| :: children[i].id
  }

  function ParentOf(root: string, ids: set<string>, child: Child): Option<string> {
    if child.parentId != "" && child.parentId != root && child.parentId in ids then Some(child.parentId) else None
  }

  // The ids placed under a parent, or at the top, in list order.
  function PlacedUnder(root: string, ids: set<string>, children: seq<Child>, parent: Option<string>): seq<string> {
    if children == [] then []
    else
      var last := children[|children| - 1];
      PlacedUnder(root, ids, children[..|children| - 1], parent)
      + (if ParentOf(root, ids, last) == parent then [last.id] else [])
  }

  function RootIds(root: string, children: seq<Child>): seq<string> {
    PlacedUnder(root, Ids(children), children, None)
  }

  function ChildIds(root: string, children: seq<Child>, parent: string): seq<string> {
    PlacedUnder(root, Ids(children), children, Some(parent))
  }

  // A way down from the top to the id that takes `depth` nodes.
  ghost predicate HasDepth(root: string, children: seq<Child>, id: string, depth: nat)
    decreases depth
  {
    if depth <= 1 then depth == 1 && id in RootIds(root, children)
    else exists p :: HasDepth(root, children, p, depth - 1) && id in ChildIds(root, children, p)
  }

  lemma {:induction false} PlacedAreIds(root: string, ids: set<string>, children: seq<Child>, parent: Option<string>)
    ensures forall x :: x in PlacedUnder(root, ids, children, parent) ==> x in Ids(children)
    ensures parent.Some? && parent.value !in ids ==> PlacedUnder(root, ids, children, parent) == []
  {
    if children != [] {
      var front, last := children[..|children| - 1], children[|children| - 1];
      PlacedAreIds(root, ids, front, parent);
      assert forall i :: 0 <= i < |front| ==> front[i] == children[i];
      assert Ids(front) <= Ids(children);
      assert last.id in Ids(children);
    }
  }

  // ----- the breadth-first pass

  datatype Item = Item(id: string, depth: nat)

  // The queue is ordered by depth and spans at most two levels.
  predicate Level(queue: seq<Item>) {
    && (forall i, j :: 0 <= i < j < |queue| ==> queue[i].depth <= queue[j].depth)
    && (forall i :: 0 <= i < |queue| ==> queue[i].depth <= queue[0].depth + 1)
  }

  // An id is settled at no more than a depth, or waits in the queue at no more than that.
  predicate DueBy(depths: map<string, nat>, queue: seq<Item>, id: string, depth: nat) {
    (id in depths && depths[id] <= depth)
    || exists i :: 0 <= i < |queue| && queue[i].id == id && queue[i].depth <= depth
  }

  ghost predicate Found(root: string, children: seq<Child>, depths: map<string, nat>, queue: seq<Item>) {
    forall id :: id in depths ==>
      && id in Ids(children)
      && HasDepth(root, children, id, depths[id])
      && (queue != [] ==> depths[id] <= queue[0].depth)
  }

  ghost predicate Queued(root: string, children: seq<Child>, queue: seq<Item>) {
    forall i :: 0 <= i < |queue| ==>
          queue[i].id in Ids(children) && HasDepth(root, children, queue[i].id, queue[i].depth)
  }

  predicate RootsDue(root: string, children: seq<Child>, depths: map<string, nat>, queue: seq<Item>) {
    forall id :: id in RootIds(root, children) ==> DueBy(depths, queue, id, 1)
  }

  ghost predicate ChildrenDue(root: string, children: seq<Child>, depths: map<string, nat>, queue: seq<Item>) {
    forall v, id :: v in depths && id in ChildIds(root, children, v) ==> DueBy(depths, queue, id, depths[v] + 1)
  }

  // What the pass knows after any number of queue items; `depths` are the visited nodes' depths.
  ghost predicate Searching(root: string, children: seq<Child>, depths: map<string, nat>, queue: seq<Item>) {
    && Level(queue) && Found(root, children, depths, queue) && Queued(root, children, queue)
    && RootsDue(root, children, depths, queue) && ChildrenDue(root, children, depths, queue)
  }

  function Settle(depths: map<string, nat>, item: Item): map<string, nat> {
    if item.id in depths then depths else depths[item.id := item.depth]
  }

  lemma {:induction false} DueAfterPop(depths: map<string, nat>, queue: seq<Item>, more: seq<Item>, id: string,
                                       depth: nat)
    requires queue != [] && DueBy(depths, queue, id, depth)
    requires forall k :: k in depths ==> depths[k] <= queue[0].depth
    ensures DueBy(Settle(depths, queue[0]), queue[1..] + more, id, depth)
  {
    if !(id in depths && depths[id] <= depth) {
      var i :| 0 <= i < |queue| && queue[i].id == id && queue[i].depth <= depth;
      if i > 0 {
        assert (queue[1..] + more)[i - 1] == queue[i];
      }
    }
  }

  function Waiting(ids: seq<string>, depth: nat): (r: seq<Item>)
    ensures |r| == |ids| && forall i :: 0 <= i < |r| ==> r[i] == Item(ids[i], depth)
  {
    seq(|ids|, i requires 0 <= i < |ids| => Item(ids[i], depth))
  }

  lemma {:induction false} SkipKeeps(root: string, children: seq<Child>, depths: map<string, nat>, queue: seq<Item>)
    requires Searching(root, children, depths, queue) && queue != [] && queue[0].id in depths
    ensures Searching(root, children, depths, queue[1..])
  {
    assert queue[1..] + [] == queue[1..];
    forall id | id in RootIds(root, children)
      ensures DueBy(depths, queue[1..], id, 1)
    {
      DueAfterPop(depths, queue, [], id, 1);
    }
    forall v, id | v in depths && id in ChildIds(root, children, v)
      ensures DueBy(depths, queue[1..], id, depths[v] + 1)
    {
      DueAfterPop(depths, queue, [], id, depths[v] + 1);
    }
  }

  function Following(root: string, children: seq<Child>, queue: seq<Item>): seq<Item>
    requires queue != []
  {
    queue[1..] + Waiting(ChildIds(root, children, queue[0].id), queue[0].depth + 1)
  }

  lemma {:induction false} VisitQueue(root: string, children: seq<Child>, depths: map<string, nat>, queue: seq<Item>)
    requires Searching(root, children, depths, queue) && queue != []
    ensures var after := Following(root, children, queue);
            && Level(after) && Queued(root, children, after)
            && (forall i :: 0 <= i < |after| ==> after[i].depth >= queue[0].depth)
  {
    var ids := ChildIds(root, children, queue[0].id);
    var after := Following(root, children, queue);
    PlacedAreIds(root, Ids(children), children, Some(queue[0].id));
    forall i | 0 <= i < |after|
      ensures queue[0].depth <= after[i].depth <= queue[0].depth + 1
              && after[i].id in Ids(children) && HasDepth(root, children, after[i].id, after[i].depth)
    {
      if i < |queue| - 1 {
        assert after[i] == queue[i + 1];
      } else {
        assert after[i] == Item(ids[i - |queue| + 1], queue[0].depth + 1);
      }
    }
    forall i, j | 0 <= i < j < |after|
      ensures after[i].depth <= after[j].depth
    {
      if j < |queue| - 1 {
        assert after[i] == queue[i + 1] && after[j] == queue[j + 1];
      }
    }
  }

  lemma {:induction false} ChildDue(depths: map<string, nat>, before: seq<Item>, ids: seq<string>, id: string,
                                    depth: nat)
    requires id in ids
    ensures DueBy(depths, before + Waiting(ids, depth), id, depth)
  {
    var k :| 0 <= k < |ids| && ids[k] == id;
    assert (before + Waiting(ids, depth))[|before| + k] == Item(id, depth);
  }

  lemma {:induction false} VisitFound(root: string, children: seq<Child>, depths: map<string, nat>, queue: seq<Item>)
    requires Searching(root, children, depths, queue) && queue != []
    ensures Found(root, children, Settle(depths, queue[0]), Following(root, children, queue))
  {
    VisitQueue(root, children, depths, queue);
    var after := Following(root, children, queue);
    forall id | id in Settle(depths, queue[0])
      ensures id in Ids(children) && HasDepth(root, children, id, Settle(depths, queue[0])[id])
      ensures after != [] ==> Settle(depths, queue[0])[id] <= after[0].depth
    {
      assert id in depths || id == queue[0].id;
    }
  }

  lemma {:induction false} VisitDue(root: string, children: seq<Child>, depths: map<string, nat>, queue: seq<Item>,
                                    v: string, id: string)
    requires Searching(root, children, depths, queue) && queue != [] && queue[0].id !in depths
    requires v in Settle(depths, queue[0]) && id in ChildIds(root, children, v)
    ensures DueBy(Settle(depths, queue[0]), Following(root, children, queue), id, Settle(depths, queue[0])[v] + 1)
  {
    var item := queue[0];
    var more := Waiting(ChildIds(root, children, item.id), item.depth + 1);
    if v == item.id {
      ChildDue(Settle(depths, item), queue[1..], ChildIds(root, children, item.id), id, item.depth + 1);
    } else {
      DueAfterPop(depths, queue, more, id, depths[v] + 1);
    }
  }

  lemma {:induction false} VisitKeeps(root: string, children: seq<Child>, depths: map<string, nat>, queue: seq<Item>)
    requires Searching(root, children, depths, queue) && queue != [] && queue[0].id !in depths
    ensures Searching(root, children, Settle(depths, queue[0]), Following(root, children, queue))
  {
    var item, after := queue[0], Following(root, children, queue);
    VisitQueue(root, children, depths, queue);
    VisitFound(root, children, depths, queue);
    assert RootsDue(root, children, Settle(depths, item), after) by {
      forall id | id in RootIds(root, children)
        ensures DueBy(Settle(depths, item), after, id, 1)
      {
        DueAfterPop(depths, queue, Waiting(ChildIds(root, children, item.id), item.depth + 1), id, 1);
      }
    }
    assert ChildrenDue(root, children, Settle(depths, item), after) by {
      forall v, id | v in Settle(depths, item) && id in ChildIds(root, children, v)
        ensures DueBy(Settle(depths, item), after, id, Settle(depths, item)[v] + 1)
      {
        VisitDue(root, children, depths, queue, v, id);
      }
    }
  }

  // When the queue is empty the depths are the least ones, for exactly the ids that have one.
  lemma {:induction false} SearchEnds(root: string, children: seq<Child>, depths: map<string, nat>, id: string,
                                      depth: nat)
    requires Searching(root, children, depths, []) && HasDepth(root, children, id, depth)
    ensures id in depths && depths[id] <= depth
    decreases depth
  {
    if depth > 1 {
      var p :| HasDepth(root, children, p, depth - 1) && id in ChildIds(root, children, p);
      SearchEnds(root, children, depths, p, depth - 1);
      assert DueBy(depths, [], id, depths[p] + 1);
    } else {
      assert DueBy(depths, [], id, 1);
    }
  }

  lemma {:induction false} IdsSnoc(children: seq<Child>, child: Child)
    ensures Ids(children + [child]) == Ids(children) + {child.id}
  {
    var all := children + [child];
    assert forall i :: 0 <= i < |children| ==> all[i] == children[i];
    assert all[|children|] == child;
    forall x | x in Ids(children) + {child.id}
      ensures x in Ids(all)
    {
      if x in Ids(children) {
        var i :| 0 <= i < |children| && children[i].id == x;
        assert all[i].id == x;
      }
    }
  }

  lemma {:induction false} PlacedSnoc(root: string, ids: set<string>, children: seq<Child>, child: Child,
                                      parent: Option<string>)
    ensures PlacedUnder(root, ids, children + [child], parent)
            == PlacedUnder(root, ids, children, parent) + if ParentOf(root, ids, child) == parent then [child.id]
                else []
  {
    assert (children + [child])[..|children + [child]| - 1] == children;
  }

  // A node of the list with its depth and the children placed under it so far.
  predicate Entry(root: string, children: seq<Child>, done: seq<Child>, id: string, node: Node, depth: nat) {
    node.child in children && node.child.id == id && node.depth == depth
    && node.childrenIds == PlacedUnder(root, Ids(children), done, Some(id))
  }

  predicate Entries(root: string, children: seq<Child>, done: seq<Child>, nodes: map<string, Node>,
                    depths: map<string, nat>) {
    nodes.Keys == Ids(children)
    && forall id :: id in nodes ==> Entry(root, children, done, id, nodes[id], if id in depths then depths[id] else 1)
  }

  // The fewest nodes on a way down from the top; 1 for an id that no way reaches.
  ghost predicate LeastDepth(root: string, children: seq<Child>, id: string, depth: nat) {
    if exists d :: HasDepth(root, children, id, d)
    then HasDepth(root, children, id, depth) && forall d :: HasDepth(root, children, id, d) ==> depth <= d
    else depth == 1
  }

  method CollectNodes(root: string, children: seq<Child>) returns (nodes: map<string, Node>)
    ensures Entries(root, children, [], nodes, map[])
  {
    nodes := map[];
    ghost var done: seq<Child> := [];
    for i := 0 to |children|
      invariant done == children[..i] && nodes.Keys == Ids(done)
      invariant forall id :: id in nodes ==> Entry(root, children, [], id, nodes[id], 1)
    {
      var child := children[i];
      IdsSnoc(done, child);
      assert (done + [child])[..i] == done;
      done := done + [child];
      nodes := nodes[child.id := Node(child, 1, [])];
    }
    assert done == children;
  }

  method PlaceChildren(root: string, children: seq<Child>, collected: map<string, Node>)
    returns (nodes: map<string, Node>, rootChildrenIds: seq<string>)
    requires Entries(root, children, [], collected, map[])
    ensures Entries(root, children, children, nodes, map[])
    ensures rootChildrenIds == RootIds(root, children)
  {
    nodes, rootChildrenIds := collected, [];
    ghost var done: seq<Child> := [];
    for i := 0 to |children|
      invariant done == children[..i] && Entries(root, children, done, nodes, map[])
      invariant rootChildrenIds == PlacedUnder(root, Ids(children), done, None)
    {
      var child := children[i];
      PlacedSnoc(root, Ids(children), done, child, None);
      assert (done + [child])[..i] == done;
      done := done + [child];
      if child.parentId != "" && child.parentId != root && child.parentId in nodes {
        var parent := nodes[child.parentId];
        nodes := nodes[child.parentId := parent.(childrenIds := parent.childrenIds + [child.id])];
      } else {
        rootChildrenIds := rootChildrenIds + [child.id];
      }
    }
    assert done == children;
  }

  lemma {:induction false} SearchBegins(root: string, children: seq<Child>)
    ensures Searching(root, children, map[], Waiting(RootIds(root, children), 1))
  {
    var ids := RootIds(root, children);
    PlacedAreIds(root, Ids(children), children, None);
    forall id | id in ids
      ensures DueBy(map[], Waiting(ids, 1), id, 1)
    {
      var k :| 0 <= k < |ids| && ids[k] == id;
      assert Waiting(ids, 1)[k] == Item(id, 1);
    }
  }

  method Enqueue(before: seq<Item>, ids: seq<string>, depth: nat) returns (queue: seq<Item>)
    ensures queue == before + Waiting(ids, depth)
  {
    queue := before;
    for i := 0 to |ids|
      invariant |queue| == |before| + i && queue[..|before|] == before
      invariant forall k :: 0 <= k < i ==> queue[|before| + k] == Item(ids[k], depth)
    {
      queue := queue + [Item(ids[i], depth)];
    }
    assert queue == queue[..|before|] + Waiting(ids, depth);
  }

  ghost predicate Pass(root: string, children: seq<Child>, nodes: map<string, Node>, visited: set<string>,
                       queue: seq<Item>, depths: map<string, nat>) {
    Searching(root, children, depths, queue) && Entries(root, children, children, nodes, depths)
        && visited == depths.Keys
  }

  lemma {:induction false} PassVisit(root: string, children: seq<Child>, nodes: map<string, Node>, visited: set<string>,
                                     queue: seq<Item>, depths: map<string, nat>)
    requires Pass(root, children, nodes, visited, queue, depths) && queue != [] && queue[0].id !in visited
    ensures queue[0].id in nodes && nodes[queue[0].id].childrenIds == ChildIds(root, children, queue[0].id)
    ensures Pass(root, children, nodes[queue[0].id := nodes[queue[0].id].(depth := queue[0].depth)],
            visited + {queue[0].id},
                 Following(root, children, queue), Settle(depths, queue[0]))
  {
    VisitKeeps(root, children, depths, queue);
  }

  // Settle the node at the head of the queue and queue its children.
  method Visit(root: string, children: seq<Child>, nodes: map<string, Node>, visited: set<string>, queue: seq<Item>,
               ghost depths: map<string, nat>) returns (nodes': map<string, Node>, queue': seq<Item>)
    requires Pass(root, children, nodes, visited, queue, depths) && queue != [] && queue[0].id !in visited
    ensures Pass(root, children, nodes', visited + {queue[0].id}, queue', depths[queue[0].id := queue[0].depth])
    ensures queue[0].id in Ids(children)
  {
    var item := queue[0];
    PassVisit(root, children, nodes, visited, queue, depths);
    var node := nodes[item.id];
    nodes' := nodes[item.id := node.(depth := item.depth)];
    queue' := Enqueue(queue[1..], node.childrenIds, item.depth + 1);
  }

  method AssignDepths(root: string, children: seq<Child>, placed: map<string, Node>, rootChildrenIds: seq<string>)
    returns (nodes: map<string, Node>)
    requires Entries(root, children, children, placed, map[]) && rootChildrenIds == RootIds(root, children)
    ensures Placed(root, children, nodes) && AllLeast(root, children, nodes)
  {
    nodes := placed;
    var queue := Enqueue([], rootChildrenIds, 1);
    var visited: set<string> := {};
    ghost var depths: map<string, nat> := map[];
    SearchBegins(root, children);
    assert [] + Waiting(rootChildrenIds, 1) == Waiting(rootChildrenIds, 1);
    while queue != []
      invariant Pass(root, children, nodes, visited, queue, depths)
      decreases Ids(children) - visited, |queue|
    {
      var item := queue[0];
      if item.id in visited {
        SkipKeeps(root, children, depths, queue);
        queue := queue[1..];
      } else {
        nodes, queue := Visit(root, children, nodes, visited, queue, depths);
        visited := visited + {item.id};
        depths := depths[item.id := item.depth];
      }
    }
    PassEnds(root, children, nodes, visited, depths);
  }

  lemma {:induction false} PassEnds(root: string, children: seq<Child>, nodes: map<string, Node>, visited: set<string>,
                                    depths: map<string, nat>)
    requires Pass(root, children, nodes, visited, [], depths)
    ensures Placed(root, children, nodes) && AllLeast(root, children, nodes)
  {
    forall id | id in nodes
      ensures LeastDepth(root, children, id, nodes[id].depth)
    {
      DepthIsLeast(root, children, depths, id);
    }
  }

  ghost predicate AllLeast(root: string, children: seq<Child>, nodes: map<string, Node>) {
    forall id :: id in nodes ==> LeastDepth(root, children, id, nodes[id].depth)
  }

  predicate Placed(root: string, children: seq<Child>, nodes: map<string, Node>) {
    nodes.Keys == Ids(children)
    && forall id :: id in nodes ==>
         nodes[id].child in children && nodes[id].child.id == id
             && nodes[id].childrenIds == ChildIds(root, children, id)
  }

  lemma {:induction false} DepthIsLeast(root: string, children: seq<Child>, depths: map<string, nat>, id: string)
    requires Searching(root, children, depths, [])
    ensures LeastDepth(root, children, id, if id in depths then depths[id] else 1)
  {
    forall d | HasDepth(root, children, id, d)
      ensures id in depths && depths[id] <= d
    {
      SearchEnds(root, children, depths, id, d);
    }
  }

  // For any list of children, repeated ids and cyclic parents included.
  method ComputeRlmExecutionTree(rootSessionId: string, children: seq<Child>) returns (tree: Tree)
    ensures tree.rootSessionId == rootSessionId && tree.rootChildrenIds == RootIds(rootSessionId, children)
    ensures Placed(rootSessionId, children, tree.nodes) && AllLeast(rootSessionId, children, tree.nodes)
  {
    var collected := CollectNodes(rootSessionId, children);
    var placed, rootChildrenIds := PlaceChildren(rootSessionId, children, collected);
    var nodes := AssignDepths(rootSessionId, children, placed, rootChildrenIds);
    tree := Tree(rootSessionId, nodes, rootChildrenIds);
  }

  // ----- with distinct ids

  predicate DistinctIds(children: seq<Child>) {
    forall i, j :: 0 <= i < j < |children| ==> children[i].id != children[j].id
  }

  // The parent table of the forest.
  function Parents(root: string, ids: set<string>, children: seq<Child>): map<string, string> {
    if children == [] then map[]
    else
      var before, last := Parents(root, ids, children[..|children| - 1]), children[|children| - 1];
      var parent := ParentOf(root, ids, last);
      if parent.Some? then before[last.id := parent.value] else before
  }

  lemma {:induction false} ParentsAt(root: string, ids: set<string>, children: seq<Child>, i: nat)
    requires DistinctIds(children) && i < |children|
    ensures var parents := Parents(root, ids, children);
            ParentOf(root, ids, children[i])
            == if children[i].id in parents then Some(parents[children[i].id]) else None
  {
    var front, last := children[..|children| - 1], children[|children| - 1];
    if i < |front| {
      assert front[i] == children[i];
      ParentsAt(root, ids, front, i);
    } else {
      ParentsOnlyOf(root, ids, front, last.id);
    }
  }

  lemma {:induction false} ParentsOnlyOf(root: string, ids: set<string>, children: seq<Child>, id: string)
    requires forall i :: 0 <= i < |children| ==> children[i].id != id
    ensures id !in Parents(root, ids, children)
  {
    if children != [] {
      ParentsOnlyOf(root, ids, children[..|children| - 1], id);
    }
  }

  lemma {:induction false} PlacedNever(root: string, ids: set<string>, children: seq<Child>, id: string,
                                       parent: Option<string>)
    requires forall i :: 0 <= i < |children| ==> children[i].id != id
    ensures multiset(PlacedUnder(root, ids, children, parent))[id] == 0
  {
    if children != [] {
      var front, last := children[..|children| - 1], children[|children| - 1];
      assert children == front + [last];
      PlacedNever(root, ids, front, id, parent);
    }
  }

  // An id is placed once, under its parent, or once at the top; nowhere else.
  lemma {:induction false} PlacedOnce(root: string, ids: set<string>, children: seq<Child>, i: nat,
                                      parent: Option<string>)
    requires DistinctIds(children) && i < |children|
    ensures multiset(PlacedUnder(root, ids, children, parent))[children[i].id]
            == if ParentOf(root, ids, children[i]) == parent then 1 else 0
  {
    var front, last := children[..|children| - 1], children[|children| - 1];
    assert children == front + [last];
    if i < |front| {
      assert front[i] == children[i];
      PlacedOnce(root, ids, front, i, parent);
    } else {
      PlacedNever(root, ids, front, last.id, parent);
    }
  }

  lemma {:induction false} DepthIsChain(root: string, children: seq<Child>, i: nat, depth: nat)
    requires DistinctIds(children) && i < |children|
    ensures HasDepth(root, children, children[i].id, depth)
            <==> depth > 0 && Rooted(Parents(root, Ids(children), children), children[i].id, depth - 1)
    decreases depth
  {
    var ids, id := Ids(children), children[i].id;
    var parents := Parents(root, ids, children);
    ParentsAt(root, ids, children, i);
    if depth <= 1 {
      PlacedOnce(root, ids, children, i, None);
    } else {
      forall p
        ensures id in ChildIds(root, children, p) <==> id in parents && parents[id] == p
      {
        PlacedOnce(root, ids, children, i, Some(p));
      }
      if id in parents {
        var j :| 0 <= j < |children| && children[j].id == parents[id];
        DepthIsChain(root, children, j, depth - 1);
        assert id in ChildIds(root, children, parents[id]);
        assert HasDepth(root, children, id, depth) <==> HasDepth(root, children, parents[id], depth - 1);
      }
    }
  }

  // With distinct ids every id is listed exactly once, at the top or under one parent; its depth
  // is the length of its parent chain; and the ids left at depth 1 without being at the top are
  // exactly those whose chain of parents runs into a cycle.
  lemma {:induction false} ForestIsExact(root: string, children: seq<Child>, tree: Tree, i: nat)
    requires DistinctIds(children) && i < |children|
    requires tree.rootChildrenIds == RootIds(root, children) && Placed(root, children, tree.nodes)
    requires AllLeast(root, children, tree.nodes)
    ensures var id, parents := children[i].id, Parents(root, Ids(children), children);
            && multiset(tree.rootChildrenIds)[id] == (if id in parents then 0 else 1)
            && (forall p :: p in tree.nodes ==>
                  multiset(tree.nodes[p].childrenIds)[id] == if id in parents && parents[id] == p then 1 else 0)
            && (id in parents ==> parents[id] in tree.nodes)
            && (if EntersCycle(parents, id) then tree.nodes[id].depth == 1 && id !in tree.rootChildrenIds
                else tree.nodes[id].depth > 0 && Rooted(parents, id, tree.nodes[id].depth - 1))
  {
    var ids, id := Ids(children), children[i].id;
    var parents := Parents(root, ids, children);
    ParentsAt(root, ids, children, i);
    PlacedOnce(root, ids, children, i, None);
    forall p | p in tree.nodes
      ensures multiset(tree.nodes[p].childrenIds)[id] == if id in parents && parents[id] == p then 1 else 0
    {
      PlacedOnce(root, ids, children, i, Some(p));
    }
    DepthOfChain(root, children, i);
    assert LeastDepth(root, children, id, tree.nodes[id].depth);
  }

  lemma {:induction false} DepthOfChain(root: string, children: seq<Child>, i: nat)
    requires DistinctIds(children) && i < |children|
    ensures var id, parents := children[i].id, Parents(root, Ids(children), children);
            && (EntersCycle(parents, id) ==> id in parents && !exists d :: HasDepth(root, children, id, d))
            && (!EntersCycle(parents, id) ==> exists d :: HasDepth(root, children, id, d))
            && forall d: nat :: HasDepth(root, children, id, d) ==> d > 0 && Rooted(parents, id, d - 1)
  {
    var id, parents := children[i].id, Parents(root, Ids(children), children);
    RootOrCycle(parents, id);
    forall d: nat
      ensures HasDepth(root, children, id, d) <==> d > 0 && Rooted(parents, id, d - 1)
    {
      DepthIsChain(root, children, i, d);
    }
    if HasRoot(parents, id) {
      var d: nat :| Rooted(parents, id, d);
      assert HasDepth(root, children, id, d + 1);
    } else {
      assert !Rooted(parents, id, 0);
    }
  }
}
