/** The positions given to tree entries name the messages that the hydrator really shows. */
module PositionAgreement {
  import opened Wrappers
  import opened ParentChains
  import opened SessionTree
  import opened ActiveBranch
  import opened TreePositions
  import Hydrator = TranscriptHydrator

  // The agent message that a context entry stands for.
  function MessageOf(entry: Entry): Hydrator.Message {
    match entry.body
    case UserMessage => Hydrator.User
    case AssistantMessage(calls) => Hydrator.Assistant(calls)
    case ToolResultMessage(toolCallId, result) => Hydrator.ToolResult(toolCallId, result)
    case CustomRoleMessage(display) => Hydrator.Custom(display)
    case CustomMessage(_, display) => Hydrator.Custom(display)
    case BranchSummary(_) => Hydrator.Runtime
    case Compaction(_, _) => Hydrator.Runtime
    case OtherEntry => Hydrator.Runtime
  }

  function MessagesOf(context: seq<Entry>): (r: seq<Hydrator.Message>)
    ensures |r| == |context| && forall i :: 0 <= i < |r| ==> r[i] == MessageOf(context[i])
  {
    seq(|context|, i requires 0 <= i < |context| => MessageOf(context[i]))
  }

  // Every tool call with an id also has a name.
  predicate Named(context: seq<Entry>) {
    forall i, k :: 0 <= i < |context| && context[i].body.AssistantMessage? && 0 <= k < |context[i].body.calls| ==>
      context[i].body.calls[k].id != "" ==> context[i].body.calls[k].name != ""
  }

  predicate IsResultFor(entry: Entry, callId: string) {
    entry.body.ToolResultMessage? && entry.body.toolCallId == callId
  }

  // The first of the first n entries that is a result for the call.
  function FirstResult(context: seq<Entry>, n: nat, callId: string): (r: Option<nat>)
    requires n <= |context|
    ensures r.Some? ==> r.value < n && IsResultFor(context[r.value], callId)
    ensures forall i :: 0 <= i < (if r.Some? then r.value else n) ==> !IsResultFor(context[i], callId)
  {
    if n == 0 then None
    else if FirstResult(context, n - 1, callId).Some? then FirstResult(context, n - 1, callId)
    else if IsResultFor(context[n - 1], callId) then Some(n - 1) else None
  }

  lemma {:induction false} NamedCalls(context: seq<Entry>, i: nat, callId: string)
    requires Named(context) && i < |context| && context[i].body.AssistantMessage? && callId != ""
    ensures Hydrator.Names(context[i].body.calls, callId) <==> Declares(context[i].body.calls, callId)
  {
    var calls := context[i].body.calls;
    if k :| 0 <= k < |calls| && calls[k].id == callId {
      assert calls[k].name != "";
    }
  }

  // The message that holds results for a call is the one that declared it; failing that, the
  // first result itself.
  lemma {:induction false} HolderIsOwner(context: seq<Entry>, n: nat, callId: string)
    requires Named(context) && n <= |context| && callId != ""
    ensures Hydrator.Holder(MessagesOf(context), n, callId)
            == if Owner(context, n, callId).Some? then Owner(context, n, callId) else FirstResult(context, n, callId)
  {
    if n > 0 {
      HolderIsOwner(context, n - 1, callId);
      if context[n - 1].body.AssistantMessage? {
        NamedCalls(context, n - 1, callId);
      }
    }
  }

  // An entry's position is the message the hydrator shows it in: always, except for a tool result
  // whose call no earlier message declared and that is not the first such result.
  lemma {:induction false} PositionIsHome(context: seq<Entry>, i: nat)
    requires Named(context) && i < |context|
    ensures var messages, entry := MessagesOf(context), context[i];
            if entry.body.ToolResultMessage? then
              var callId := entry.body.toolCallId;
              PositionAt(context, i) == Some(Hydrator.Home(messages, i))
              <==> callId == "" || Owner(context, i, callId).Some? || FirstResult(context, i, callId).None?
            else PositionAt(context, i) == if Hidden(entry) then None else Some(i)
    ensures Hidden(context[i]) <==> !context[i].body.ToolResultMessage? && !Hydrator.Visible(MessagesOf(context), i)
  {
    if context[i].body.ToolResultMessage? && context[i].body.toolCallId != "" {
      HolderIsOwner(context, i, context[i].body.toolCallId);
    }
  }

  lemma {:induction false} HomeIsVisible(messages: seq<Hydrator.Message>, i: nat)
    requires i < |messages| && messages[i].ToolResult?
    ensures Hydrator.Visible(messages, Hydrator.Home(messages, i))
  {
    var callId := messages[i].toolCallId;
    if callId != "" && Hydrator.Holder(messages, i, callId).Some? {
      Hydrator.HolderCarries(messages, i, callId);
    }
  }

  predicate Declared(context: seq<Entry>, i: nat)
    requires i < |context|
  {
    context[i].body.ToolResultMessage? ==>
      context[i].body.toolCallId != "" && Owner(context, i, context[i].body.toolCallId).Some?
  }

  // Every positioned entry names a message of the transcript, and only hidden ones have none; a
  // result's message shows, for its call, the last of the results that belong there.
  lemma {:induction false} PositionsAgree(context: seq<Entry>, i: nat)
    requires Named(context) && i < |context| && Declared(context, i)
    ensures var messages, position := MessagesOf(context), PositionAt(context, i);
            var output := Hydrator.Hydrated(messages, |messages|);
            && (position.None? <==> Hidden(context[i]))
            && (position.Some? ==> Hydrator.HasMessage(output, position.value))
            && (context[i].body.ToolResultMessage? ==>
                  var callId := context[i].body.toolCallId;
                  Hydrator.ResultAt(output, position.value, callId)
                  == Some(Hydrator.LastResult(messages, |messages|, position.value, callId)))
  {
    var messages := MessagesOf(context);
    PositionIsHome(context, i);
    if context[i].body.ToolResultMessage? {
      var callId, home := context[i].body.toolCallId, Hydrator.Home(messages, i);
      HomeIsVisible(messages, i);
      Hydrator.HydratedVisible(messages, |messages|, home);
      Hydrator.HydratedResults(messages, |messages|, home, callId);
      HolderIsOwner(context, i, callId);
      Hydrator.HolderCarries(messages, i, callId);
    } else {
      Hydrator.HydratedVisible(messages, |messages|, i);
    }
  }

  // A result that no later result for its call replaces is the one its message shows.
  lemma {:induction false} LastResultIsShown(messages: seq<Hydrator.Message>, n: nat, i: nat)
    requires i < n <= |messages| && messages[i].ToolResult?
    requires forall k :: i < k < n && messages[k].ToolResult? ==> messages[k].toolCallId != messages[i].toolCallId
    ensures Hydrator.LastResult(messages, n, Hydrator.Home(messages, i), messages[i].toolCallId)
            == Some(messages[i].result)
  {
    if n > i + 1 {
      LastResultIsShown(messages, n - 1, i);
    }
  }

  // Two results for a call that nothing declared: the tree names the second one's own message,
  // which the transcript does not have.
  lemma {:induction false} UndeclaredResultsDisagree(callId: string, first: string, second: string)
    requires callId != ""
    ensures var context := [Entry("a", "", 0, ToolResultMessage(callId, first)),
                            Entry("b", "a", 1, ToolResultMessage(callId, second))];
            var output := Hydrator.Hydrated(MessagesOf(context), 2);
            PositionAt(context, 1) == Some(1) && !Hydrator.HasMessage(output, 1)
  {
    var context := [Entry("a", "", 0, ToolResultMessage(callId, first)),
                    Entry("b", "a", 1, ToolResultMessage(callId, second))];
    assert Owner(context, 1, callId).None?;
    assert IsResultFor(context[0], callId);
    assert FirstResult(context, 1, callId) == Some(0);
    HolderIsOwner(context, 1, callId);
    Hydrator.HydratedVisible(MessagesOf(context), 2, 1);
  }

  // From the stored entries to the message a tree node points at: looking up an entry of the
  // active branch gives its position among the context entries.
  lemma {:induction false} SnapshotPositions(flat: seq<Entry>, roots: seq<Tree>, leaf: Entry, active: seq<Entry>,
                                             i: nat)
    requires SessionTree.DistinctIds(flat) && Forest(flat, roots) && leaf in flat && leaf.id != ""
    requires active == Branch(roots, leaf.id) && i < |ContextEntries(active)|
    ensures var context := ContextEntries(active);
            var nodes := MapNodes(roots, leaf.id, BranchIds(active), Positions(context, |context|));
            var found := FindNode(nodes, context[i].id);
            found.Some? && found.value.isOnActiveBranch && found.value.messageIndex == PositionAt(context, i)
  {
    var context := ContextEntries(active);
    var positions := Positions(context, |context|);
    BranchIsDistinct(flat, roots, leaf);
    ContextIsDistinct(active);
    PositionsAt(context, |context|, i);
    assert context[i] in active;
    var k :| 0 <= k < |active| && active[k] == context[i];
    assert context[i].id in BranchIds(active);
    ActiveBranchIsParentChain(flat, roots, leaf);
    BranchEntryHasRoot(flat, roots, leaf, context[i]);
    FindMapped(roots, leaf.id, BranchIds(active), positions, context[i].id);
  }

  lemma {:induction false} BranchEntryHasRoot(flat: seq<Entry>, roots: seq<Tree>, leaf: Entry, e: Entry)
    requires SessionTree.DistinctIds(flat) && Forest(flat, roots) && leaf in flat && leaf.id != ""
    requires e in Branch(roots, leaf.id)
    ensures PathTo(roots, e.id).Some?
  {
    var parents, branch := Parents(flat), Branch(roots, leaf.id);
    ActiveBranchIsParentChain(flat, roots, leaf);
    assert branch != [];
    var i :| 0 <= i < |branch| && branch[i] == e;
    UpRooted(parents, leaf.id, |branch| - 1, |branch| - 1 - i);
    assert Rooted(parents, e.id, i);
    PathExists(flat, roots, e);
  }

  lemma {:induction false} DepthsDiffer(parents: map<string, string>, a: string, b: string, i: nat, j: nat)
    requires Rooted(parents, a, i) && Rooted(parents, b, j) && i != j
    ensures a != b
  {
    if a == b {
      RootedOnce(parents, a, i, j);
    }
  }

  lemma {:induction false} BranchIsDistinct(flat: seq<Entry>, roots: seq<Tree>, leaf: Entry)
    requires SessionTree.DistinctIds(flat) && Forest(flat, roots) && leaf in flat && leaf.id != ""
    ensures SessionTree.DistinctIds(Branch(roots, leaf.id))
  {
    var parents, branch := Parents(flat), Branch(roots, leaf.id);
    ActiveBranchIsParentChain(flat, roots, leaf);
    forall i, j | 0 <= i < j < |branch|
      ensures branch[i].id != branch[j].id
    {
      UpRooted(parents, leaf.id, |branch| - 1, |branch| - 1 - i);
      UpRooted(parents, leaf.id, |branch| - 1, |branch| - 1 - j);
      DepthsDiffer(parents, branch[i].id, branch[j].id, i, j);
    }
  }
}
