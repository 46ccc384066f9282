/** From the flat list of session entries to the tree the browser shows, and its active branch. */
module SessionTree {
  import opened Wrappers
  import opened ParentChains

  // ----- entries

  datatype ToolCall = ToolCall(id: string, name: string)

  // What an entry holds, as far as its place in the transcript depends on it.
  datatype Body =
    | UserMessage
    | AssistantMessage(calls: seq<ToolCall>)
    | ToolResultMessage(toolCallId: string, result: string)
    | CustomRoleMessage(display: bool)
    | CustomMessage(digest: bool, display: bool)
    | BranchSummary(summarised: bool)
    | Compaction(firstKeptEntryId: Option<string>, harnessDigest: bool)
    | OtherEntry

  // An empty parent id is a missing one.
  datatype Entry = Entry(id: string, parentId: string, timestamp: int, body: Body)

  datatype Tree = Tree(entry: Entry, children: seq<Tree>)

  predicate DistinctIds(flat: seq<Entry>) {
    forall i, j :: 0 <= i < j < |flat| ==> flat[i].id != flat[j].id
  }

  function Ids(flat: seq<Entry>): set<string> {
    set i | 0 <= i < |flat| :: flat[i].id
  }

  function ParentOf(ids: set<string>, entry: Entry): Option<string> {
    if entry.parentId != "" && entry.parentId != entry.id && entry.parentId in ids then Some(entry.parentId) else None
  }

  // The parent table of the entries that have one.
  function Table(ids: set<string>, flat: seq<Entry>): map<string, string> {
    if flat == [] then map[]
    else
      var before, last := Table(ids, flat[..|flat| - 1]), flat[|flat| - 1];
      var parent := ParentOf(ids, last);
      if parent.Some? then before[last.id := parent.value] else before
  }

  function Parents(flat: seq<Entry>): map<string, string> {
    Table(Ids(flat), flat)
  }

  lemma {:induction false} TableKey(ids: set<string>, flat: seq<Entry>, id: string)
    requires id in Table(ids, flat)
    ensures exists i :: 0 <= i < |flat| && flat[i].id == id && ParentOf(ids, flat[i]) == Some(Table(ids, flat)[id])
  {
    var front, last := flat[..|flat| - 1], flat[|flat| - 1];
    if ParentOf(ids, last).Some? && last.id == id {
      assert flat[|flat| - 1].id == id;
    } else {
      TableKey(ids, front, id);
      var i :| 0 <= i < |front| && front[i].id == id && ParentOf(ids, front[i]) == Some(Table(ids, front)[id]);
      assert flat[i] == front[i];
    }
  }

  lemma {:induction false} ParentsAt(flat: seq<Entry>, i: nat)
    requires DistinctIds(flat) && i < |flat|
    ensures ParentOf(Ids(flat), flat[i])
            == if flat[i].id in Parents(flat) then Some(Parents(flat)[flat[i].id]) else None
  {
    if ParentOf(Ids(flat), flat[i]).Some? {
      TableHas(Ids(flat), flat, i);
    }
    var id := flat[i].id;
    if id in Parents(flat) {
      TableKey(Ids(flat), flat, id);
      var j :| 0 <= j < |flat| && flat[j].id == id && ParentOf(Ids(flat), flat[j]) == Some(Parents(flat)[id]);
      assert j == i;
    }
  }

  lemma {:induction false} TableHas(ids: set<string>, flat: seq<Entry>, i: nat)
    requires i < |flat| && ParentOf(ids, flat[i]).Some?
    ensures flat[i].id in Table(ids, flat)
  {
    var front := flat[..|flat| - 1];
    if i < |front| {
      assert front[i] == flat[i];
      TableHas(ids, front, i);
    }
  }

  // The entries under a parent, or at the top, in list order.
  function Under(ids: set<string>, flat: seq<Entry>, parent: Option<string>): seq<Entry> {
    if flat == [] then []
    else
      var last := flat[|flat| - 1];
      Under(ids, flat[..|flat| - 1], parent) + (if ParentOf(ids, last) == parent then [last] else [])
  }

  function ChildrenOf(flat: seq<Entry>, parent: Option<string>): seq<Entry> {
    Under(Ids(flat), flat, parent)
  }

  // ----- stable sort by timestamp

  function Insert(sorted: seq<Entry>, entry: Entry): seq<Entry> {
    if sorted == [] then [entry]
    else
      var last := sorted[|sorted| - 1];
      if last.timestamp <= entry.timestamp then sorted + [entry]
      else Insert(sorted[..|sorted| - 1], entry) + [last]
  }

  function SortByTime(entries: seq<Entry>): seq<Entry> {
    if entries == [] then []
    else Insert(SortByTime(entries[..|entries| - 1]), entries[|entries| - 1])
  }

  predicate InTimeOrder(entries: seq<Entry>) {
    forall i, j :: 0 <= i < j < |entries| ==> entries[i].timestamp <= entries[j].timestamp
  }

  // The entries of one moment, in order.
  function At(entries: seq<Entry>, time: int): seq<Entry> {
    if entries == [] then []
    else
      var last := entries[|entries| - 1];
      At(entries[..|entries| - 1], time) + (if last.timestamp == time then [last] else [])
  }

  lemma {:induction false} InsertAdds(sorted: seq<Entry>, entry: Entry)
    ensures multiset(Insert(sorted, entry)) == multiset(sorted) + multiset{entry}
  {
    if sorted != [] && sorted[|sorted| - 1].timestamp > entry.timestamp {
      var front, last := sorted[..|sorted| - 1], sorted[|sorted| - 1];
      assert sorted == front + [last];
      InsertAdds(front, entry);
    }
  }

  lemma {:induction false} InsertSorts(sorted: seq<Entry>, entry: Entry)
    requires InTimeOrder(sorted)
    ensures InTimeOrder(Insert(sorted, entry))
  {
    if sorted != [] {
      var front, last := sorted[..|sorted| - 1], sorted[|sorted| - 1];
      if last.timestamp <= entry.timestamp {
      } else {
        InsertSorts(front, entry);
        InsertAdds(front, entry);
        forall e | e in Insert(front, entry)
          ensures e.timestamp <= last.timestamp
        {
          assert e in multiset(Insert(front, entry));
        }
      }
    }
  }

  lemma {:induction false} InsertIsStable(sorted: seq<Entry>, entry: Entry, time: int)
    ensures At(Insert(sorted, entry), time) == At(sorted, time) + if entry.timestamp == time then [entry] else []
  {
    if sorted == [] || sorted[|sorted| - 1].timestamp <= entry.timestamp {
      assert Insert(sorted, entry) == sorted + [entry];
    } else {
      var front, last := sorted[..|sorted| - 1], sorted[|sorted| - 1];
      assert sorted == front + [last];
      assert Insert(sorted, entry) == Insert(front, entry) + [last];
      InsertIsStable(front, entry, time);
    }
  }

  lemma {:induction false} SortByTimeSorts(entries: seq<Entry>)
    ensures InTimeOrder(SortByTime(entries))
  {
    if entries != [] {
      var front, last := entries[..|entries| - 1], entries[|entries| - 1];
      SortByTimeSorts(front);
      InsertSorts(SortByTime(front), last);
    }
  }

  lemma {:induction false} SortByTimePermutes(entries: seq<Entry>)
    ensures multiset(SortByTime(entries)) == multiset(entries)
  {
    if entries != [] {
      var front, last := entries[..|entries| - 1], entries[|entries| - 1];
      assert entries == front + [last];
      SortByTimePermutes(front);
      InsertAdds(SortByTime(front), last);
    }
  }

  // Entries of one moment keep their list order.
  lemma {:induction false} SortByTimeIsStable(entries: seq<Entry>, time: int)
    ensures At(SortByTime(entries), time) == At(entries, time)
  {
    if entries != [] {
      var front, last := entries[..|entries| - 1], entries[|entries| - 1];
      SortByTimeIsStable(front, time);
      InsertIsStable(SortByTime(front), last, time);
    }
  }

  // ----- the tree

  function Entries(trees: seq<Tree>): (r: seq<Entry>)
    ensures |r| == |trees| && forall i :: 0 <= i < |r| ==> r[i] == trees[i].entry
  {
    seq(|trees|, i requires 0 <= i < |trees| => trees[i].entry)
  }

  // Below each node: exactly the entries whose parent it is, in time order.
  predicate Grown(flat: seq<Entry>, tree: Tree) {
    && Entries(tree.children) == SortByTime(ChildrenOf(flat, Some(tree.entry.id)))
    && forall i :: 0 <= i < |tree.children| ==> Grown(flat, tree.children[i])
  }

  predicate Forest(flat: seq<Entry>, roots: seq<Tree>) {
    && Entries(roots) == SortByTime(ChildrenOf(flat, None))
    && forall i :: 0 <= i < |roots| ==> Grown(flat, roots[i])
  }

  lemma {:induction false} UnderHas(ids: set<string>, flat: seq<Entry>, parent: Option<string>, e: Entry)
    ensures multiset(Under(ids, flat, parent))[e] == if ParentOf(ids, e) == parent then multiset(flat)[e] else 0
  {
    if flat != [] {
      var front, last := flat[..|flat| - 1], flat[|flat| - 1];
      assert flat == front + [last];
      UnderHas(ids, front, parent, e);
    }
  }

  // ----- building it

  // Each node with its children array, as far as the second loop has filled it.
  predicate Linked(ids: set<string>, done: seq<Entry>, children: map<string, seq<Entry>>) {
    children.Keys == ids && forall id :: id in children ==> children[id] == Under(ids, done, Some(id))
  }

  predicate Indexed(done: seq<Entry>, byId: map<string, Entry>) {
    byId.Keys == Ids(done) && forall i :: 0 <= i < |done| ==> done[i].id in byId && byId[done[i].id] == done[i]
  }

  lemma {:induction false} IdsSnoc(flat: seq<Entry>, entry: Entry)
    ensures Ids(flat + [entry]) == Ids(flat) + {entry.id}
  {
    var all := flat + [entry];
    assert forall i :: 0 <= i < |flat| ==> all[i] == flat[i];
    assert all[|flat|] == entry;
    forall x | x in Ids(flat) + {entry.id}
      ensures x in Ids(all)
    {
      if x in Ids(flat) {
        var i :| 0 <= i < |flat| && flat[i].id == x;
        assert all[i].id == x;
      }
    }
  }

  lemma {:induction false} IndexedSnoc(done: seq<Entry>, entry: Entry, byId: map<string, Entry>)
    requires Indexed(done, byId) && DistinctIds(done + [entry])
    ensures Indexed(done + [entry], byId[entry.id := entry])
  {
    IdsSnoc(done, entry);
    var all := done + [entry];
    forall i | 0 <= i < |all|
      ensures all[i].id in byId[entry.id := entry] && byId[entry.id := entry][all[i].id] == all[i]
    {
      assert all[|done|] == entry;
      assert i < |done| ==> all[i] == done[i] && all[i].id != all[|done|].id;
    }
  }

  method IndexNodes(flat: seq<Entry>) returns (byId: map<string, Entry>, children: map<string, seq<Entry>>)
    requires DistinctIds(flat)
    ensures Indexed(flat, byId) && Linked(Ids(flat), [], children)
  {
    byId, children := map[], map[];
    ghost var done: seq<Entry> := [];
    for i := 0 to |flat|
      invariant done == flat[..i] && Indexed(done, byId)
      invariant children.Keys == byId.Keys && forall id :: id in children ==> children[id] == []
    {
      assert flat[..i + 1] == done + [flat[i]];
      IndexedSnoc(done, flat[i], byId);
      done := done + [flat[i]];
      byId := byId[flat[i].id := flat[i]];
      children := children[flat[i].id := []];
    }
    assert done == flat;
  }

  method LinkNodes(flat: seq<Entry>, byId: map<string, Entry>, unlinked: map<string, seq<Entry>>)
    returns (roots: seq<Entry>, children: map<string, seq<Entry>>)
    requires forall i :: 0 <= i < |flat| ==> flat[i].id in byId && byId[flat[i].id] == flat[i]
    requires Linked(byId.Keys, [], unlinked)
    ensures roots == Under(byId.Keys, flat, None) && Linked(byId.Keys, flat, children)
  {
    roots, children := [], unlinked;
    ghost var done: seq<Entry> := [];
    for i := 0 to |flat|
      invariant done == flat[..i] && Linked(byId.Keys, done, children)
      invariant roots == Under(byId.Keys, done, None)
    {
      var node := flat[i];
      var current := byId[node.id];
      assert (done + [node])[..i] == done;
      done := done + [node];
      if node.parentId != "" && node.parentId != node.id && node.parentId in byId {
        children := children[node.parentId := children[node.parentId] + [current]];
      } else {
        roots := roots + [current];
      }
    }
    assert done == flat;
  }

  // Following a children array leads one step further from a root.
  predicate Descending(parents: map<string, string>, children: map<string, seq<Entry>>) {
    forall id, e :: id in children && e in children[id] ==> e.id in children && e.id in parents && parents[e.id] == id
  }

  predicate AtDepth(parents: map<string, string>, children: map<string, seq<Entry>>, nodes: seq<Entry>, depth: nat) {
    forall e :: e in nodes ==> e.id in children && Rooted(parents, e.id, depth)
  }

  predicate GrownIn(children: map<string, seq<Entry>>, tree: Tree) {
    && tree.entry.id in children
    && Entries(tree.children) == SortByTime(children[tree.entry.id])
    && forall i :: 0 <= i < |tree.children| ==> GrownIn(children, tree.children[i])
  }

  predicate AllGrownIn(children: map<string, seq<Entry>>, trees: seq<Tree>) {
    forall i :: 0 <= i < |trees| ==> GrownIn(children, trees[i])
  }

  lemma {:induction false} SortedIn(nodes: seq<Entry>, e: Entry)
    ensures e in SortByTime(nodes) <==> e in nodes
  {
    SortByTimePermutes(nodes);
    assert e in nodes <==> e in multiset(nodes);
    assert e in SortByTime(nodes) <==> e in multiset(SortByTime(nodes));
  }

  // Sort one list of siblings and, below each of them, its own children.
  method SortSiblings(nodes: seq<Entry>, children: map<string, seq<Entry>>, ghost parents: map<string, string>,
                      ghost depth: nat)
    returns (trees: seq<Tree>)
    requires Descending(parents, children) && AtDepth(parents, children, nodes, depth) && depth <= |parents| + 1
    ensures Entries(trees) == SortByTime(nodes) && AllGrownIn(children, trees)
    decreases |parents| + 1 - depth
  {
    var sorted := SortByTime(nodes);
    trees := [];
    for i := 0 to |sorted|
      invariant |trees| == i && AllGrownIn(children, trees)
      invariant forall k :: 0 <= k < i ==> trees[k].entry == sorted[k]
    {
      var node := sorted[i];
      SortedIn(nodes, node);
      DepthBound(parents, node.id, depth);
      var below := SortSiblings(children[node.id], children, parents, depth + 1);
      trees := trees + [Tree(node, below)];
    }
  }

  function LinkOf(parents: map<string, string>, id: string): Option<string> {
    if id in parents then Some(parents[id]) else None
  }

  // The entries under a parent are those the parent table puts there.
  lemma {:induction false} UnderIsLinked(flat: seq<Entry>, parent: Option<string>, e: Entry)
    requires DistinctIds(flat)
    ensures e in ChildrenOf(flat, parent) <==> e in flat && LinkOf(Parents(flat), e.id) == parent
    ensures e in flat ==> e.id in Ids(flat)
  {
    UnderHas(Ids(flat), flat, parent, e);
    assert e in ChildrenOf(flat, parent) <==> e in multiset(ChildrenOf(flat, parent));
    assert e in flat <==> e in multiset(flat);
    if e in flat {
      var i :| 0 <= i < |flat| && flat[i] == e;
      ParentsAt(flat, i);
    }
  }

  lemma {:induction false} LinkedDescends(flat: seq<Entry>, children: map<string, seq<Entry>>)
    requires DistinctIds(flat) && Linked(Ids(flat), flat, children)
    ensures Descending(Parents(flat), children)
    ensures AtDepth(Parents(flat), children, ChildrenOf(flat, None), 0)
  {
    forall id, e | id in children && e in children[id]
      ensures e.id in children && e.id in Parents(flat) && Parents(flat)[e.id] == id
    {
      UnderIsLinked(flat, Some(id), e);
    }
    forall e | e in ChildrenOf(flat, None)
      ensures e.id in children && Rooted(Parents(flat), e.id, 0)
    {
      UnderIsLinked(flat, None, e);
    }
  }

  lemma {:induction false} GrownFromTable(flat: seq<Entry>, children: map<string, seq<Entry>>, tree: Tree)
    requires Linked(Ids(flat), flat, children) && GrownIn(children, tree)
    ensures Grown(flat, tree)
    decreases tree
  {
    forall i | 0 <= i < |tree.children|
      ensures Grown(flat, tree.children[i])
    {
      GrownFromTable(flat, children, tree.children[i]);
    }
  }

  method BuildSessionTree(flat: seq<Entry>) returns (roots: seq<Tree>)
    requires DistinctIds(flat)
    ensures Forest(flat, roots)
  {
    var byId, unlinked := IndexNodes(flat);
    var rootEntries, children := LinkNodes(flat, byId, unlinked);
    LinkedDescends(flat, children);
    roots := SortSiblings(rootEntries, children, Parents(flat), 0);
    forall i | 0 <= i < |roots|
      ensures Grown(flat, roots[i])
    {
      GrownFromTable(flat, children, roots[i]);
    }
  }
}
