/**
 What the terminal message of a run holds: every tool part and the accumulated text, once; reasoning,
 images and errors of the newest message, as the browser was told them.
 */
module TerminalConservation {
  import opened Wrappers
  import opened EventMapper
  import opened ReasoningEpisodes
  import opened MessageScope
  import opened TerminalMessage

  // ----- projections of the parts

  function ToolsOf(parts: seq<Part>): seq<ToolPart> {
    if parts == [] then []
    else
      var last := parts[|parts| - 1];
      ToolsOf(parts[..|parts| - 1]) + (if last.Tool? then [last.tool] else [])
  }

  function TextsOf(parts: seq<Part>): seq<string> {
    if parts == [] then []
    else
      var last := parts[|parts| - 1];
      TextsOf(parts[..|parts| - 1]) + (if last.Text? then [last.text] else [])
  }

  // The text shown for a reasoning index.
  function ShownText(parts: seq<Part>, index: nat): Option<string> {
    if parts == [] then None
    else
      var before, last := ShownText(parts[..|parts| - 1], index), parts[|parts| - 1];
      if before.None? && last.Reasoning? && last.contentIndex == index then Some(last.text) else before
  }

  predicate DistinctReasoning(parts: seq<Part>) {
    forall i, j :: 0 <= i < j < |parts| && parts[i].Reasoning? && parts[j].Reasoning? ==>
      parts[i].contentIndex != parts[j].contentIndex
  }

  lemma {:induction false} PartsSnoc(parts: seq<Part>, part: Part)
    ensures ToolsOf(parts + [part]) == ToolsOf(parts) + if part.Tool? then [part.tool] else []
    ensures TextsOf(parts + [part]) == TextsOf(parts) + if part.Text? then [part.text] else []
  {
    assert (parts + [part])[..|parts + [part]| - 1] == parts;
  }

  lemma {:induction false} ShownSnoc(parts: seq<Part>, part: Part, index: nat)
    ensures ShownText(parts + [part], index)
            == if ShownText(parts, index).None? && part.Reasoning? && part.contentIndex == index then Some(part.text)
               else ShownText(parts, index)
  {
    assert (parts + [part])[..|parts + [part]| - 1] == parts;
  }

  lemma {:induction false} ShownIsHas(parts: seq<Part>, index: nat)
    ensures ShownText(parts, index).Some? <==> HasReasoning(parts, index)
  {
    if parts != [] {
      var front := parts[..|parts| - 1];
      ShownIsHas(front, index);
      assert forall i :: 0 <= i < |front| ==> front[i] == parts[i];
    }
  }

  lemma {:induction false} TextsAreHas(parts: seq<Part>)
    ensures HasText(parts) <==> TextsOf(parts) != []
  {
    if parts != [] {
      var front := parts[..|parts| - 1];
      TextsAreHas(front);
      assert forall i :: 0 <= i < |front| ==> front[i] == parts[i];
    }
  }

  lemma {:induction false} AddReasoning(parts: seq<Part>, k: nat, text: string)
    ensures ToolsOf(PushReasoning(parts, k, text)) == ToolsOf(parts)
    ensures TextsOf(PushReasoning(parts, k, text)) == TextsOf(parts)
    ensures DistinctReasoning(parts) ==> DistinctReasoning(PushReasoning(parts, k, text))
  {
    PartsSnoc(parts, Reasoning(k, text));
  }

  lemma {:induction false} AddShown(parts: seq<Part>, k: nat, text: string, j: nat)
    ensures ShownText(PushReasoning(parts, k, text), j)
            == if ShownText(parts, j).None? && j == k then Some(text) else ShownText(parts, j)
  {
    ShownSnoc(parts, Reasoning(k, text), j);
    ShownIsHas(parts, k);
  }

  lemma {:induction false} PushStreamedAdds(parts: seq<Part>, texts: map<nat, string>, keys: seq<nat>,
                                            limit: Option<nat>)
    requires forall k :: k in keys ==> k in texts
    ensures ToolsOf(PushStreamed(parts, texts, keys, limit)) == ToolsOf(parts)
    ensures TextsOf(PushStreamed(parts, texts, keys, limit)) == TextsOf(parts)
    ensures DistinctReasoning(parts) ==> DistinctReasoning(PushStreamed(parts, texts, keys, limit))
    decreases |keys|
  {
    if keys != [] && !(limit.Some? && keys[0] >= limit.value) {
      AddReasoning(parts, keys[0], texts[keys[0]]);
      PushStreamedAdds(PushReasoning(parts, keys[0], texts[keys[0]]), texts, keys[1..], limit);
    }
  }

  predicate Within(k: nat, keys: seq<nat>, limit: Option<nat>) {
    k in keys && (limit.Some? ==> k < limit.value)
  }

  lemma {:induction false} PushStreamedShows(parts: seq<Part>, texts: map<nat, string>, keys: seq<nat>,
                                             limit: Option<nat>, k: nat)
    requires forall j :: j in keys ==> j in texts
    requires Ascending(keys)
    ensures ShownText(PushStreamed(parts, texts, keys, limit), k)
            == if ShownText(parts, k).None? && Within(k, keys, limit) then Some(texts[k]) else ShownText(parts, k)
    decreases |keys|
  {
    if keys != [] {
      assert k in keys <==> k == keys[0] || k in keys[1..];
      if limit.Some? && keys[0] >= limit.value {
        assert forall i :: 0 <= i < |keys| ==> keys[i] >= keys[0];
      } else {
        AddShown(parts, keys[0], texts[keys[0]], k);
        PushStreamedShows(PushReasoning(parts, keys[0], texts[keys[0]]), texts, keys[1..], limit, k);
      }
    }
  }

  // ----- text

  // The first non-empty text block.
  function FirstText(content: seq<Block>): Option<string> {
    if content == [] then None
    else
      var before, last := FirstText(content[..|content| - 1]), content[|content| - 1];
      if before.None? && last.TextBlock? && last.text != "" then Some(last.text) else before
  }

  predicate SameBase(m: Mapper, after: Mapper) {
    after.text == m.text && after.tools == m.tools && after.reasoningText == m.reasoningText
    && after.images == m.images && after.errors == m.errors
  }

  lemma {:induction false} BlocksKeepBase(m: Mapper, content: seq<Block>)
    ensures SameBase(m, PlaceBlocks(m, content).m)
  {
    if content != [] {
      BlocksKeepBase(m, content[..|content| - 1]);
    }
  }

  lemma {:induction false} ThinkingAdds(d: Draft, contentIndex: nat, thinking: Option<string>)
    ensures ToolsOf(PlaceThinking(d, contentIndex, thinking).parts) == ToolsOf(d.parts)
    ensures TextsOf(PlaceThinking(d, contentIndex, thinking).parts) == TextsOf(d.parts)
    ensures DistinctReasoning(d.parts) ==> DistinctReasoning(PlaceThinking(d, contentIndex, thinking).parts)
  {
    var m := Routed(d.m, contentIndex);
    var fleet := m.fleetByRuntime[contentIndex];
    var keys := SortedKeys(m.reasoningText.Keys);
    PushStreamedAdds(d.parts, m.reasoningText, keys, Some(fleet));
    var parts := PushStreamed(d.parts, m.reasoningText, keys, Some(fleet));
    var text := KnownText(m, fleet, thinking);
    if text.Some? {
      AddReasoning(parts, fleet, text.value);
    }
  }

  function TextShown(m: Mapper, first: Option<string>): seq<string> {
    if first.None? then [] else [if m.text != "" then m.text else first.value]
  }

  lemma {:induction false} TextBlockText(d: Draft, text: string, first: Option<string>)
    requires TextsOf(d.parts) == TextShown(d.m, first)
    ensures TextsOf(PlaceText(d, text).parts) == TextShown(d.m, if first.None? && text != "" then Some(text) else first)
  {
    TextsAreHas(d.parts);
    PartsSnoc(d.parts, Text(if d.m.text != "" then d.m.text else text));
  }

  lemma {:induction false} CallAddsTool(d: Draft, id: string)
    ensures TextsOf(PlaceCall(d, id).parts) == TextsOf(d.parts)
    ensures var i := FindTool(d.m.tools, id);
            ToolsOf(PlaceCall(d, id).parts) == ToolsOf(d.parts) + if id != "" && i >= 0 then [d.m.tools[i]] else []
  {
    if FindTool(d.m.tools, id) >= 0 {
      PartsSnoc(d.parts, Tool(d.m.tools[FindTool(d.m.tools, id)]));
    }
  }

  lemma {:induction false} BlockText(d: Draft, contentIndex: nat, block: Block, first: Option<string>)
    requires TextsOf(d.parts) == TextShown(d.m, first)
    ensures TextsOf(PlaceBlock(d, contentIndex, block).parts)
            == TextShown(d.m, if first.None? && block.TextBlock? && block.text != "" then Some(block.text) else first)
  {
    match block
    case TextBlock(text) => TextBlockText(d, text, first);
    case ThinkingBlock(thinking) => ThinkingAdds(d, contentIndex, thinking);
    case ToolCallBlock(id, _, _) => CallAddsTool(d, id);
    case _ =>
  }

  lemma {:induction false} BlocksText(m: Mapper, content: seq<Block>)
    ensures TextsOf(PlaceBlocks(m, content).parts) == TextShown(m, FirstText(content))
  {
    if content != [] {
      var front, block := content[..|content| - 1], content[|content| - 1];
      BlocksText(m, front);
      BlocksKeepBase(m, front);
      BlockText(PlaceBlocks(m, front), |front|, block, FirstText(front));
    }
  }

  // ----- tools

  // The ids of the message's call blocks that name a part of the run, in order.
  function CalledIds(tools: seq<ToolPart>, content: seq<Block>): seq<string> {
    if content == [] then []
    else
      CalledIds(tools, content[..|content| - 1]) + CallsOf(tools, content[|content| - 1])
  }

  function Called(tools: seq<ToolPart>, ids: seq<string>): seq<ToolPart> {
    if ids == [] then []
    else
      var i := FindTool(tools, ids[|ids| - 1]);
      Called(tools, ids[..|ids| - 1]) + (if i >= 0 then [tools[i]] else [])
  }

  function Ids(ids: seq<string>): set<string> {
    set i | 0 <= i < |ids| :: ids[i]
  }

  lemma {:induction false} IdsSnoc(ids: seq<string>, id: string)
    ensures Ids(ids + [id]) == Ids(ids) + {id}
  {
    var all := ids + [id];
    assert forall i :: 0 <= i < |ids| ==> all[i] == ids[i];
    assert all[|ids|] == id;
    forall x
      ensures x in Ids(all) <==> x in Ids(ids) + {id}
    {
      if x in Ids(ids) {
        var i :| 0 <= i < |ids| && ids[i] == x;
        assert all[i] == x;
      }
    }
  }

  lemma {:induction false} CalledSnoc(tools: seq<ToolPart>, ids: seq<string>, id: string)
    ensures Called(tools, ids + [id])
            == Called(tools, ids) + if FindTool(tools, id) >= 0 then [tools[FindTool(tools, id)]] else []
  {
    assert (ids + [id])[..|ids + [id]| - 1] == ids;
  }

  function CallsOf(tools: seq<ToolPart>, block: Block): seq<string> {
    if block.ToolCallBlock? && block.id != "" && FindTool(tools, block.id) >= 0 then [block.id] else []
  }

  lemma {:induction false} CallTools(d: Draft, block: Block, ids: seq<string>)
    requires block.ToolCallBlock? && ToolsOf(d.parts) == Called(d.m.tools, ids) && d.emitted == Ids(ids)
    ensures ToolsOf(PlaceCall(d, block.id).parts) == Called(d.m.tools, ids + CallsOf(d.m.tools, block))
    ensures PlaceCall(d, block.id).emitted == Ids(ids + CallsOf(d.m.tools, block))
  {
    assert ids + [] == ids;
    CallAddsTool(d, block.id);
    IdsSnoc(ids, block.id);
    CalledSnoc(d.m.tools, ids, block.id);
  }

  lemma {:induction false} BlockTools(d: Draft, contentIndex: nat, block: Block, ids: seq<string>)
    requires ToolsOf(d.parts) == Called(d.m.tools, ids) && d.emitted == Ids(ids)
    ensures var after := PlaceBlock(d, contentIndex, block);
            && ToolsOf(after.parts) == Called(d.m.tools, ids + CallsOf(d.m.tools, block))
            && after.emitted == Ids(ids + CallsOf(d.m.tools, block))
  {
    hide PlaceCall;
    assert ids + [] == ids;
    match block
    case TextBlock(text) => PartsSnoc(d.parts, Text(if d.m.text != "" then d.m.text else text));
    case ThinkingBlock(thinking) => ThinkingAdds(d, contentIndex, thinking);
    case ToolCallBlock(id, _, _) => CallTools(d, block, ids);
    case _ =>
  }

  lemma {:induction false} BlocksTools(m: Mapper, content: seq<Block>)
    ensures ToolsOf(PlaceBlocks(m, content).parts) == Called(m.tools, CalledIds(m.tools, content))
    ensures PlaceBlocks(m, content).emitted == Ids(CalledIds(m.tools, content))
  {
    if content == [] {
      assert PlaceBlocks(m, content) == Draft(m, [], {});
      assert Ids([]) == {};
    } else {
      var front := content[..|content| - 1];
      BlocksTools(m, front);
      BlocksKeepBase(m, front);
      BlockTools(PlaceBlocks(m, front), |front|, content[|content| - 1], CalledIds(m.tools, front));
    }
  }

  lemma {:induction false} NoToolsIn(parts: seq<Part>, more: seq<Part>)
    requires forall i :: 0 <= i < |more| ==> more[i].Image? || more[i].Error?
    ensures ToolsOf(parts + more) == ToolsOf(parts) && TextsOf(parts + more) == TextsOf(parts)
    ensures forall k: nat :: ShownText(parts + more, k) == ShownText(parts, k)
  {
    if more == [] {
      assert parts + more == parts;
    } else {
      var front, last := more[..|more| - 1], more[|more| - 1];
      NoToolsIn(parts, front);
      assert parts + more == parts + front + [last];
      PartsSnoc(parts + front, last);
      forall k: nat
        ensures ShownText(parts + more, k) == ShownText(parts + front, k)
      {
        ShownSnoc(parts + front, last, k);
      }
    }
  }

  lemma {:induction false} ToolsAppend(parts: seq<Part>, tools: seq<ToolPart>)
    ensures ToolsOf(parts + AsTools(tools)) == ToolsOf(parts) + tools
    ensures TextsOf(parts + AsTools(tools)) == TextsOf(parts)
    ensures forall k: nat :: ShownText(parts + AsTools(tools), k) == ShownText(parts, k)
  {
    if tools == [] {
      assert parts + AsTools(tools) == parts && ToolsOf(parts) + tools == ToolsOf(parts);
    } else {
      var front, last := tools[..|tools| - 1], tools[|tools| - 1];
      assert parts + AsTools(tools) == parts + AsTools(front) + [Tool(last)];
      hide ToolsOf, TextsOf, ShownText, AsTools;
      ToolsAppend(parts, front);
      PartsSnoc(parts + AsTools(front), Tool(last));
      assert ToolsOf(parts) + front + [last] == ToolsOf(parts) + tools by { assert tools == front + [last]; }
      forall k: nat
        ensures ShownText(parts + AsTools(tools), k) == ShownText(parts + AsTools(front), k)
      {
        ShownSnoc(parts + AsTools(front), Tool(last), k);
      }
    }
  }

  // The parts of the final message, kind by kind.
  lemma {:induction false} FinalParts(m: Mapper)
    ensures var parts := Finalized(m).1;
            var settled := Settled(PlaceBlocks(m, m.content));
            && ToolsOf(parts) == ToolsOf(settled) + RestTools(m.tools, PlaceBlocks(m, m.content).emitted)
            && TextsOf(parts) == TextsOf(settled)
            && forall k: nat :: ShownText(parts, k) == ShownText(settled, k)
  {
    var d := PlaceBlocks(m, m.content);
    BlocksKeepBase(m, m.content);
    var settled, rest := Settled(d), RestTools(m.tools, d.emitted);
    ToolsAppend(settled, rest);
    NoToolsIn(settled + AsTools(rest), AsImages(m.images));
    NoToolsIn(settled + AsTools(rest) + AsImages(m.images), AsErrors(m.errors));
  }

  lemma {:induction false} SettledText(m: Mapper)
    ensures var d := PlaceBlocks(m, m.content);
            && ToolsOf(Settled(d)) == ToolsOf(d.parts) && TextsOf(Settled(d)) == TextsOf(WithText(d.m, d.parts))
  {
    var d := PlaceBlocks(m, m.content);
    PartsSnoc(d.parts, Text(d.m.text));
    PushStreamedAdds(WithText(d.m, d.parts), d.m.reasoningText, SortedKeys(d.m.reasoningText.Keys), None);
  }

  // One text part at most: the accumulated text, or else the first text block of the message.
  lemma {:induction false} OneText(m: Mapper)
    ensures TextsOf(Finalized(m).1)
            == if m.text != "" then [m.text]
               else if FirstText(m.content).Some? then [FirstText(m.content).value] else []
  {
    FinalParts(m);
    SettledText(m);
    BlocksText(m, m.content);
    BlocksKeepBase(m, m.content);
    var d := PlaceBlocks(m, m.content);
    TextsAreHas(d.parts);
    PartsSnoc(d.parts, Text(m.text));
  }

  // ----- counting tools

  // Different parts have different call ids, when they have one.
  predicate DistinctIds(tools: seq<ToolPart>) {
    forall i, j :: 0 <= i < j < |tools| && tools[i].toolCallId != "" ==> tools[i].toolCallId != tools[j].toolCallId
  }

  predicate NoRepeat(ids: seq<string>) {
    forall i, j :: 0 <= i < j < |ids| ==> ids[i] != ids[j]
  }

  lemma {:induction false} RestSame(tools: seq<ToolPart>, emitted: set<string>, id: string)
    requires id == "" || forall i :: 0 <= i < |tools| ==> tools[i].toolCallId != id
    ensures RestTools(tools, emitted + {id}) == RestTools(tools, emitted)
  {
    if tools != [] {
      RestSame(tools[..|tools| - 1], emitted, id);
    }
  }

  function Left(tool: ToolPart, emitted: set<string>): multiset<ToolPart> {
    if tool.toolCallId == "" || tool.toolCallId !in emitted then multiset{tool} else multiset{}
  }

  lemma {:induction false} RestSnoc(tools: seq<ToolPart>, emitted: set<string>)
    requires tools != []
    ensures multiset(RestTools(tools, emitted))
            == multiset(RestTools(tools[..|tools| - 1], emitted)) + Left(tools[|tools| - 1], emitted)
  {}

  lemma {:induction false} Shifted(a: multiset<ToolPart>, b: multiset<ToolPart>, last: multiset<ToolPart>,
                                   tool: ToolPart)
    requires a == b + multiset{tool}
    ensures a + last == b + last + multiset{tool}
  {}

  lemma {:induction false} LeftStays(tools: seq<ToolPart>, emitted: set<string>, i: nat)
    requires DistinctIds(tools) && i < |tools| - 1 && tools[i].toolCallId != ""
    ensures DistinctIds(tools[..|tools| - 1])
    ensures Left(tools[|tools| - 1], emitted) == Left(tools[|tools| - 1], emitted + {tools[i].toolCallId})
  {}

  // Emitting one more part takes exactly that part from the rest.
  lemma {:induction false} RestLoses(tools: seq<ToolPart>, emitted: set<string>, i: nat)
    requires DistinctIds(tools) && i < |tools| && tools[i].toolCallId != "" && tools[i].toolCallId !in emitted
    ensures multiset(RestTools(tools, emitted))
            == multiset(RestTools(tools, emitted + {tools[i].toolCallId})) + multiset{tools[i]}
  {
    var front, last, id := tools[..|tools| - 1], tools[|tools| - 1], tools[i].toolCallId;
    hide RestTools, DistinctIds;
    RestSnoc(tools, emitted);
    RestSnoc(tools, emitted + {id});
    if i == |front| {
      RestSame(front, emitted, id);
      assert Left(last, emitted) == multiset{tools[i]} && Left(last, emitted + {id}) == multiset{};
    } else {
      hide Left;
      assert front[i] == tools[i];
      LeftStays(tools, emitted, i);
      RestLoses(front, emitted, i);
      var before, after := multiset(RestTools(front, emitted)), multiset(RestTools(front, emitted + {id}));
      Shifted(before, after, Left(last, emitted), tools[i]);
    }
  }

  lemma {:induction false} RestAll(tools: seq<ToolPart>)
    ensures RestTools(tools, {}) == tools
  {
    if tools != [] {
      RestAll(tools[..|tools| - 1]);
      assert tools == tools[..|tools| - 1] + [tools[|tools| - 1]];
    }
  }

  function Placed(tools: seq<ToolPart>, ids: seq<string>): multiset<ToolPart> {
    multiset(Called(tools, ids)) + multiset(RestTools(tools, Ids(ids)))
  }

  // One more call: it moves a part from the rest, or repeats one.
  lemma {:induction false} PlacedSnoc(tools: seq<ToolPart>, ids: seq<string>, id: string)
    requires DistinctIds(tools) && id != "" && FindTool(tools, id) >= 0
    ensures Placed(tools, ids + [id])
            == Placed(tools, ids) + if id in Ids(ids) then multiset{tools[FindTool(tools, id)]} else multiset{}
  {
    var i := FindTool(tools, id);
    IdsSnoc(ids, id);
    CalledSnoc(tools, ids, id);
    if id in Ids(ids) {
      assert Ids(ids + [id]) == Ids(ids);
    } else {
      RestLoses(tools, Ids(ids), i);
    }
  }

  lemma {:induction false} NoRepeatSnoc(ids: seq<string>, id: string)
    ensures NoRepeat(ids + [id]) <==> NoRepeat(ids) && id !in Ids(ids)
  {
    var all := ids + [id];
    assert forall i :: 0 <= i < |ids| ==> all[i] == ids[i];
    assert all[|ids|] == id;
    assert forall i :: 0 <= i < |ids| ==> ids[i] in Ids(ids);
  }

  lemma {:induction false} Larger(a: multiset<ToolPart>, b: multiset<ToolPart>)
    requires a <= b
    ensures |a| <= |b| && (a == b <==> |a| == |b|)
  {
    assert b == a + (b - a);
  }

  lemma {:induction false} Grown(all: multiset<ToolPart>, before: multiset<ToolPart>, tool: ToolPart, repeated: bool)
    requires all <= before
    ensures var after := before + if repeated then multiset{tool} else multiset{};
            all <= after && (after == all <==> before == all && !repeated)
  {
    Larger(all, before);
    Larger(all, before + if repeated then multiset{tool} else multiset{});
  }

  predicate AllFound(tools: seq<ToolPart>, ids: seq<string>) {
    forall i :: 0 <= i < |ids| ==> ids[i] != "" && FindTool(tools, ids[i]) >= 0
  }

  predicate Covered(tools: seq<ToolPart>, ids: seq<string>) {
    multiset(tools) <= Placed(tools, ids) && (Placed(tools, ids) == multiset(tools) <==> NoRepeat(ids))
  }

  lemma {:induction false} CoveredSnoc(tools: seq<ToolPart>, ids: seq<string>, id: string)
    requires DistinctIds(tools) && id != "" && FindTool(tools, id) >= 0
    requires Covered(tools, ids)
    ensures Covered(tools, ids + [id])
  {
    PlacedSnoc(tools, ids, id);
    NoRepeatSnoc(ids, id);
    Grown(multiset(tools), Placed(tools, ids), tools[FindTool(tools, id)], id in Ids(ids));
  }

  // The called parts and the rest cover all parts, and are exactly them when no call repeats.
  lemma {:induction false} CalledAndRest(tools: seq<ToolPart>, ids: seq<string>)
    requires DistinctIds(tools) && AllFound(tools, ids)
    ensures Covered(tools, ids)
  {
    if ids == [] {
      RestAll(tools);
      assert Ids(ids) == {};
    } else {
      var front, id := ids[..|ids| - 1], ids[|ids| - 1];
      assert ids == front + [id];
      CalledAndRest(tools, front);
      CoveredSnoc(tools, front, id);
    }
  }

  lemma {:induction false} CalledIdsFound(tools: seq<ToolPart>, content: seq<Block>)
    ensures AllFound(tools, CalledIds(tools, content))
  {
    if content != [] {
      CalledIdsFound(tools, content[..|content| - 1]);
    }
  }

  // No tool part of the run is lost; each appears exactly once if and only if the message does
  // not call the same part twice.
  lemma {:induction false} ToolsAreConserved(m: Mapper)
    requires DistinctIds(m.tools)
    ensures multiset(m.tools) <= multiset(ToolsOf(Finalized(m).1))
    ensures multiset(ToolsOf(Finalized(m).1)) == multiset(m.tools) <==> NoRepeat(CalledIds(m.tools, m.content))
  {
    FinalParts(m);
    SettledText(m);
    BlocksTools(m, m.content);
    CalledIdsFound(m.tools, m.content);
    CalledAndRest(m.tools, CalledIds(m.tools, m.content));
  }

  // ----- reasoning

  // Blocks of the message and episodes of the run never share an index.
  ghost predicate Routes(m: Mapper) {
    && (forall r :: r in m.fleetByRuntime ==> m.fleetByRuntime[r] in m.claimed)
    && (forall r, q :: r in m.fleetByRuntime && q in m.fleetByRuntime ==>
          m.fleetByRuntime[r] == m.fleetByRuntime[q] ==> r == q)
  }

  lemma {:induction false} RoutedKeeps(m: Mapper, contentIndex: nat)
    requires Indexes(m) && Routes(m)
    ensures var r := Routed(m, contentIndex);
            && Indexes(r) && Routes(r) && SameBase(m, r)
            && forall k :: k in m.fleetByRuntime ==> k in r.fleetByRuntime && r.fleetByRuntime[k] == m.fleetByRuntime[k]
    ensures contentIndex !in m.fleetByRuntime ==>
              Routed(m, contentIndex).fleetByRuntime[contentIndex] !in m.reasoningText
  {
    SearchIsIdle(m, contentIndex);
  }

  predicate IsThinking(content: seq<Block>, i: nat) {
    i < |content| && content[i].ThinkingBlock?
  }

  // A shown text was streamed for its index, or is the thinking of the block routed to it.
  ghost predicate Owned(m: Mapper, content: seq<Block>, k: nat, text: string) {
    if k in m.reasoningText then text == m.reasoningText[k]
    else exists i: nat :: IsThinking(content, i) && i in m.fleetByRuntime && m.fleetByRuntime[i] == k
                          && content[i].thinking == Some(text)
  }

  // Every thinking block placed so far shows what was streamed for its index, else its own text.
  ghost predicate Shown(m: Mapper, content: seq<Block>, parts: seq<Part>, i: nat) {
    IsThinking(content, i) ==>
      && i in m.fleetByRuntime
      && (KnownText(m, m.fleetByRuntime[i], content[i].thinking).Some? ==>
            ShownText(parts, m.fleetByRuntime[i]) == KnownText(m, m.fleetByRuntime[i], content[i].thinking))
  }

  ghost predicate Placing(m: Mapper, content: seq<Block>, parts: seq<Part>) {
    && Indexes(m) && Routes(m) && DistinctReasoning(parts)
    && (forall k: nat :: ShownText(parts, k).Some? ==> Owned(m, content, k, ShownText(parts, k).value))
    && (forall i: nat :: Shown(m, content, parts, i))
  }

  lemma {:induction false} OwnedStays(m: Mapper, after: Mapper, content: seq<Block>, block: Block, k: nat, text: string)
    requires Owned(m, content, k, text) && SameBase(m, after)
    requires forall r :: r in m.fleetByRuntime ==>
                r in after.fleetByRuntime && after.fleetByRuntime[r] == m.fleetByRuntime[r]
    ensures Owned(after, content + [block], k, text)
  {
    if k !in m.reasoningText {
      var i: nat :| IsThinking(content, i) && i in m.fleetByRuntime && m.fleetByRuntime[i] == k
                    && content[i].thinking == Some(text);
      assert (content + [block])[i] == content[i];
    }
  }

  // A block that is not thinking leaves what is shown alone.
  lemma {:induction false} PlacingOther(m: Mapper, content: seq<Block>, parts: seq<Part>, block: Block,
                                        after: seq<Part>)
    requires Placing(m, content, parts) && !block.ThinkingBlock?
    requires after == parts || (|after| == |parts| + 1 && after[..|parts|] == parts && !after[|parts|].Reasoning?)
    ensures Placing(m, content + [block], after)
  {
    forall k: nat
      ensures ShownText(after, k) == ShownText(parts, k)
    {
      if after != parts {
        assert after == parts + [after[|parts|]];
        ShownSnoc(parts, after[|parts|], k);
      }
    }
    forall k: nat | ShownText(after, k).Some?
      ensures Owned(m, content + [block], k, ShownText(after, k).value)
    {
      OwnedStays(m, m, content, block, k, ShownText(after, k).value);
    }
    forall i: nat
      ensures Shown(m, content + [block], after, i)
    {
      assert Shown(m, content, parts, i);
    }
  }

  function ThinkingShows(m: Mapper, parts: seq<Part>, fleet: nat, thinking: Option<string>, k: nat): Option<string> {
    if ShownText(parts, k).Some? then ShownText(parts, k)
    else if k < fleet && k in m.reasoningText then Some(m.reasoningText[k])
    else if k == fleet then KnownText(m, fleet, thinking)
    else None
  }

  lemma {:induction false} ThinkingShown(d: Draft, contentIndex: nat, thinking: Option<string>, k: nat)
    ensures var m := Routed(d.m, contentIndex);
            ShownText(PlaceThinking(d, contentIndex, thinking).parts, k)
            == ThinkingShows(m, d.parts, m.fleetByRuntime[contentIndex], thinking, k)
  {
    var m := Routed(d.m, contentIndex);
    var fleet := m.fleetByRuntime[contentIndex];
    var keys := SortedKeys(m.reasoningText.Keys);
    PushStreamedShows(d.parts, m.reasoningText, keys, Some(fleet), k);
    var text := KnownText(m, fleet, thinking);
    if text.Some? {
      AddShown(PushStreamed(d.parts, m.reasoningText, keys, Some(fleet)), fleet, text.value, k);
    }
  }

  // The new block's index shows the text the block ends up with.
  lemma {:induction false} NewBlockShown(m: Mapper, content: seq<Block>, parts: seq<Part>, after: Mapper,
                                         thinking: Option<string>)
    requires Placing(m, content, parts) && after == Routed(m, |content|)
    ensures var fleet := after.fleetByRuntime[|content|];
            KnownText(after, fleet, thinking).Some? ==>
              ThinkingShows(after, parts, fleet, thinking, fleet) == KnownText(after, fleet, thinking)
  {
    RoutedKeeps(m, |content|);
    var fleet := after.fleetByRuntime[|content|];
    if ShownText(parts, fleet).Some? {
      assert Owned(m, content, fleet, ShownText(parts, fleet).value);
    }
  }

  lemma {:induction false} NewOwned(m: Mapper, content: seq<Block>, parts: seq<Part>, after: Mapper,
                                    thinking: Option<string>, k: nat)
    requires Placing(m, content, parts) && after == Routed(m, |content|)
    ensures var shown := ThinkingShows(after, parts, after.fleetByRuntime[|content|], thinking, k);
            shown.Some? ==> Owned(after, content + [ThinkingBlock(thinking)], k, shown.value)
  {
    RoutedKeeps(m, |content|);
    var all := content + [ThinkingBlock(thinking)];
    assert IsThinking(all, |content|) && all[|content|].thinking == thinking;
    if ShownText(parts, k).Some? {
      OwnedStays(m, after, content, ThinkingBlock(thinking), k, ShownText(parts, k).value);
    }
  }

  lemma {:induction false} OldShown(m: Mapper, content: seq<Block>, parts: seq<Part>, after: Mapper,
                                    thinking: Option<string>, i: nat)
    requires Placing(m, content, parts) && after == Routed(m, |content|)
    requires i < |content| && IsThinking(content, i)
    ensures i in after.fleetByRuntime
    ensures var k := after.fleetByRuntime[i];
            KnownText(after, k, content[i].thinking).Some? ==>
              ThinkingShows(after, parts, after.fleetByRuntime[|content|], thinking, k)
                  == KnownText(after, k, content[i].thinking)
  {
    RoutedKeeps(m, |content|);
    assert Shown(m, content, parts, i);
  }

  lemma {:induction false} PlacingThinking(d: Draft, content: seq<Block>, thinking: Option<string>)
    requires Placing(d.m, content, d.parts)
    ensures var after := PlaceThinking(d, |content|, thinking);
            Placing(after.m, content + [ThinkingBlock(thinking)], after.parts)
  {
    var after := PlaceThinking(d, |content|, thinking);
    var all := content + [ThinkingBlock(thinking)];
    RoutedKeeps(d.m, |content|);
    ThinkingAdds(d, |content|, thinking);
    forall k: nat | ShownText(after.parts, k).Some?
      ensures Owned(after.m, all, k, ShownText(after.parts, k).value)
    {
      ThinkingShown(d, |content|, thinking, k);
      NewOwned(d.m, content, d.parts, after.m, thinking, k);
    }
    forall i: nat
      ensures Shown(after.m, all, after.parts, i)
    {
      if i < |content| && IsThinking(content, i) {
        OldShown(d.m, content, d.parts, after.m, thinking, i);
        ThinkingShown(d, |content|, thinking, after.m.fleetByRuntime[i]);
      } else if i == |content| {
        NewBlockShown(d.m, content, d.parts, after.m, thinking);
        ThinkingShown(d, |content|, thinking, after.m.fleetByRuntime[i]);
      }
    }
  }

  lemma {:induction false} PlacingBlocks(m: Mapper, content: seq<Block>)
    requires Indexes(m) && Routes(m)
    ensures Placing(PlaceBlocks(m, content).m, content, PlaceBlocks(m, content).parts)
  {
    if content == [] {
      assert PlaceBlocks(m, content) == Draft(m, [], {});
      assert forall k: nat :: ShownText([], k).None?;
      assert forall i: nat :: Shown(m, content, [], i);
    } else {
      var front, block := content[..|content| - 1], content[|content| - 1];
      assert content == front + [block];
      PlacingBlocks(m, front);
      var d := PlaceBlocks(m, front);
      if block.ThinkingBlock? {
        PlacingThinking(d, front, block.thinking);
      } else {
        PlacingOther(d.m, front, d.parts, block, PlaceBlock(d, |front|, block).parts);
      }
    }
  }

  lemma {:induction false} DistinctAppend(parts: seq<Part>, more: seq<Part>)
    requires DistinctReasoning(parts) && forall i :: 0 <= i < |more| ==> !more[i].Reasoning?
    ensures DistinctReasoning(parts + more)
  {
  }

  // After the blocks, the streamed texts that no block showed.
  lemma {:induction false} SettledShows(d: Draft, k: nat)
    ensures ShownText(Settled(d), k)
            == if ShownText(d.parts, k).None? && k in d.m.reasoningText then Some(d.m.reasoningText[k])
                else ShownText(d.parts, k)
  {
    ShownSnoc(d.parts, Text(d.m.text), k);
    PushStreamedShows(WithText(d.m, d.parts), d.m.reasoningText, SortedKeys(d.m.reasoningText.Keys), None, k);
  }

  lemma {:induction false} SettledDistinct(d: Draft)
    requires DistinctReasoning(d.parts)
    ensures DistinctReasoning(Settled(d))
  {
    DistinctAppend(d.parts, [Text(d.m.text)]);
    PushStreamedAdds(WithText(d.m, d.parts), d.m.reasoningText, SortedKeys(d.m.reasoningText.Keys), None);
  }

  lemma {:induction false} FinalDistinct(m: Mapper)
    requires DistinctReasoning(Settled(PlaceBlocks(m, m.content)))
    ensures DistinctReasoning(Finalized(m).1)
  {
    var d := PlaceBlocks(m, m.content);
    var tools, images, errors := AsTools(RestTools(d.m.tools, d.emitted)), AsImages(d.m.images), AsErrors(d.m.errors);
    DistinctAppend(Settled(d), tools);
    DistinctAppend(Settled(d) + tools, images);
    DistinctAppend(Settled(d) + tools + images, errors);
  }

  // The reasoning parts have distinct indexes and hold every text that is kept under its index, every
  // thinking block's text under the index the block is routed to, and nothing else.
  lemma {:induction false} ReasoningIsConserved(m: Mapper)
    requires Indexes(m) && Routes(m)
    ensures var (after, parts) := Finalized(m);
            && DistinctReasoning(parts)
            && (forall k: nat :: k in m.reasoningText ==> ShownText(parts, k) == Some(m.reasoningText[k]))
            && (forall i: nat :: Shown(after, m.content, parts, i))
            && (forall k: nat :: ShownText(parts, k).Some? ==> Owned(after, m.content, k, ShownText(parts, k).value))
            && Routes(after)
  {
    var d := PlaceBlocks(m, m.content);
    var parts := Finalized(m).1;
    PlacingBlocks(m, m.content);
    BlocksKeepBase(m, m.content);
    FinalParts(m);
    SettledDistinct(d);
    FinalDistinct(m);
    forall k: nat
      ensures ShownText(parts, k) == if ShownText(d.parts, k).None?
              && k in m.reasoningText then Some(m.reasoningText[k])
                                     else ShownText(d.parts, k)
      ensures ShownText(parts, k).Some? ==> Owned(d.m, m.content, k, ShownText(parts, k).value)
      ensures k in m.reasoningText ==> ShownText(parts, k) == Some(m.reasoningText[k])
    {
      SettledShows(d, k);
      if ShownText(d.parts, k).Some? {
        assert Owned(d.m, m.content, k, ShownText(d.parts, k).value);
      }
    }
    forall i: nat
      ensures Shown(d.m, m.content, parts, i)
    {
      assert Shown(d.m, m.content, d.parts, i);
    }
  }

  // ----- over runs

  // Tool parts keep their places, their ids and the first input that was known.
  predicate Extends(before: seq<ToolPart>, after: seq<ToolPart>) {
    && |before| <= |after|
    && forall i :: 0 <= i < |before| ==>
         after[i].toolCallId == before[i].toolCallId && (before[i].input.Some? ==> after[i].input == before[i].input)
  }

  lemma {:induction false} UpsertKeeps(tools: seq<ToolPart>, next: ToolPart)
    requires DistinctIds(tools)
    ensures DistinctIds(Upsert(tools, next)) && Extends(tools, Upsert(tools, next))
    ensures next.toolCallId != "" ==> FindTool(Upsert(tools, next), next.toolCallId) >= 0
  {
    var i := FindTool(tools, next.toolCallId);
    var after := Upsert(tools, next);
    if next.toolCallId == "" || i < 0 {
      assert after[|tools|] == next;
    } else {
      assert after[i].toolCallId == next.toolCallId;
    }
  }

  lemma {:induction false} UpsertCallsKeeps(tools: seq<ToolPart>, content: seq<Block>)
    requires DistinctIds(tools)
    ensures DistinctIds(UpsertCalls(tools, content)) && Extends(tools, UpsertCalls(tools, content))
  {
    if content != [] {
      var before, block := UpsertCalls(tools, content[..|content| - 1]), content[|content| - 1];
      UpsertCallsKeeps(tools, content[..|content| - 1]);
      if block.ToolCallBlock? {
        UpsertKeeps(before, CallPart(before, block));
      }
    }
  }

  lemma {:induction false} FinalTextAppended(text: string, finalText: string)
    ensures var r := AppendFinalText(text, finalText);
            && text <= r && EndsWith(r, finalText)
            && AppendFinalText(r, finalText) == r
  {
    assert (text + finalText)[|text|..] == finalText;
    assert finalText[|finalText| - |finalText|..] == finalText;
  }

  // An event keeps the tool parts and the text it finds, and the indexes apart.
  ghost predicate Tidy(m: Mapper) {
    DistinctIds(m.tools) && Routes(m)
  }

  lemma {:induction false} BeginRoutes(m: Mapper, runtime: nat)
    requires Indexes(m) && Routes(m)
    ensures Routes(Begin(m, runtime))
  {
    SearchIsIdle(m, runtime);
  }

  lemma {:induction false} StreamRoutes(m: Mapper, event: StreamEvent)
    requires Indexes(m) && Routes(m)
    ensures Routes(OnStreamEvent(m, event).0)
  {
    match event
    case ThinkingStart(index) =>
      var m1 := WithMessage(m);
      var m2 := m1.(active := Without(m1.active, RuntimeIndex(m, index)));
      WithoutIndexes(m1, RuntimeIndex(m, index));
      BeginRoutes(m2, RuntimeIndex(m, index));
    case ThinkingDelta(index, delta) => BeginRoutes(m, RuntimeIndex(m, index));
    case ThinkingEnd(index, finalText) => BeginRoutes(m, RuntimeIndex(m, index));
    case _ =>
  }

  lemma {:induction false} WithoutIndexes(m: Mapper, runtime: nat)
    requires Indexes(m)
    ensures Indexes(m.(active := Without(m.active, runtime)))
  {
    if IsActive(m.active, runtime) {
      var i := ActivePlace(m, runtime);
      RestDistinct(m.active, i);
    } else {
      WithoutIdle(m.active, runtime);
    }
  }

  lemma {:induction false} CloseAllKeepsContent(m: Mapper)
    ensures CloseAll(m).0.tools == m.tools && CloseAll(m).0.text == m.text
  {}

  lemma {:induction false} RememberGrows(m: Mapper, content: seq<Block>, errors: seq<string>)
    requires DistinctIds(m.tools)
    ensures var after := Remember(m, content, errors);
            DistinctIds(after.tools) && Extends(m.tools, after.tools) && m.text <= after.text
  {
    UpsertCallsKeeps(m.tools, content);
    FinalTextAppended(m.text, TextOfContent(content));
  }

  lemma {:induction false} StreamGrows(m: Mapper, event: StreamEvent)
    requires DistinctIds(m.tools)
    ensures var after := OnStreamEvent(m, event).0;
            DistinctIds(after.tools) && Extends(m.tools, after.tools) && m.text <= after.text
  {
    hide FleetIndex, Remember, CloseAll;
    match event
    case TextStart => CloseAllKeepsContent(m);
    case ToolcallStart => CloseAllKeepsContent(m);
    case TextArrives(delta) => CloseAllKeepsContent(m);
    case MessageDone(content, errors) => RememberGrows(m, content, errors);
    case ThinkingStart(index) =>
    case ThinkingDelta(index, delta) =>
    case ThinkingEnd(index, finalText) =>
    case _ =>
  }

  lemma {:induction false} EventKeeps(m: Mapper, event: RunEvent)
    requires Indexes(m) && Tidy(m)
    ensures var after := OnRunEvent(m, event).0;
            Tidy(after) && Extends(m.tools, after.tools) && m.text <= after.text
  {
    match event
    case MessageStarted(content) =>
    case MessageUpdated(content, e) =>
      StreamRoutes(m.(content := content), e);
      StreamGrows(m.(content := content), e);
    case MessageSnapshot(content, errors) => RememberGrows(m, content, errors);
    case ToolStarted(part) => UpsertKeeps(m.tools, part);
    case ToolEvent(part) => UpsertKeeps(m.tools, part);
  }

  lemma {:induction false} RunsStayTidy(events: seq<RunEvent>)
    ensures Tidy(RunOf(events).0)
  {
    if events != [] {
      var front := events[..|events| - 1];
      RunsStayTidy(front);
      RunsKeep(front);
      EventKeeps(RunOf(front).0, events[|events| - 1]);
    }
  }

  // ----- which reasoning is shown

  // Indexes that placing blocks added were not claimed before.
  ghost predicate RoutedFresh(m: Mapper, after: Mapper) {
    && m.claimed <= after.claimed
    && forall r :: r in after.fleetByRuntime ==>
         after.fleetByRuntime[r] !in m.claimed
         || (r in m.fleetByRuntime && m.fleetByRuntime[r] == after.fleetByRuntime[r])
  }

  lemma {:induction false} RouteIsFresh(m: Mapper, d: Mapper, contentIndex: nat)
    requires RoutedFresh(m, d) && Indexes(d)
    ensures RoutedFresh(m, Routed(d, contentIndex))
  {
    SearchIsIdle(d, contentIndex);
    hide FleetIndex;
  }

  lemma {:induction false} BlocksRouteFresh(m: Mapper, content: seq<Block>)
    requires Indexes(m) && Routes(m)
    ensures RoutedFresh(m, PlaceBlocks(m, content).m)
  {
    if content != [] {
      var front, block := content[..|content| - 1], content[|content| - 1];
      BlocksRouteFresh(m, front);
      PlacingBlocks(m, front);
      RouteIsFresh(m, PlaceBlocks(m, front).m, |front|);
      hide RoutedFresh, Routed, Placing;
      assert block.ThinkingBlock? || PlaceBlock(PlaceBlocks(m, front), |front|, block).m == PlaceBlocks(m, front).m;
    }
  }

  lemma {:induction false} DroppedIsNotOwned(m: Mapper, after: Mapper, before: set<nat>, k: nat, text: string)
    requires Scope(m, before) && k in before && k !in m.reasoningText
    requires RoutedFresh(m, after) && after.reasoningText == m.reasoningText
    ensures !Owned(after, m.content, k, text)
  {}

  // Reasoning that was streamed for the current message is shown as the browser was told it; what
  // earlier messages of the run streamed is not shown.
  lemma {:induction false} StreamedReasoningIsScoped(events: seq<RunEvent>, k: nat)
    requires Streamed(RunOf(events).1, k)
    ensures ShownText(Finalized(RunOf(events).0).1, k)
            == if k in ClaimedBefore(events) then None else Said(RunOf(events).1, k)
  {
    var (m, frames) := RunOf(events);
    RunsAreScoped(events);
    RunsStayTidy(events);
    RunsKeep(events);
    ReasoningIsConserved(m);
    hide Said, Streamed, RunOf, ShownText, Sound;
    if k in ClaimedBefore(events) {
      BlocksRouteFresh(m, m.content);
      BlocksKeepBase(m, m.content);
      var shown := ShownText(Finalized(m).1, k);
      if shown.Some? {
        DroppedIsNotOwned(m, Finalized(m).0, ClaimedBefore(events), k, shown.value);
        assert false;
      }
    }
  }

  // One delta of a new run, under index 0.
  lemma {:induction false} FirstThought(text: string)
    ensures var (m, frames) := OnRunEvent(NEW_RUN, MessageUpdated([], ThinkingDelta(Some(0), text)));
            && 0 in m.claimed
            && frames == [ReasoningText(Start, 0, "", Some(0))] + [ReasoningText(Delta, 0, text, Some(0))]
  {
    assert "" + text == text;
  }

  lemma {:induction false} SaidThought(text: string, id: Option<nat>)
    ensures var frames := [ReasoningText(Start, 0, "", id)] + [ReasoningText(Delta, 0, text, id)];
            Streamed(frames, 0) && Said(frames, 0) == Some(text)
  {
    var start, delta := ReasoningText(Start, 0, "", id), ReasoningText(Delta, 0, text, id);
    SaidSnoc([], start, 0);
    SaidSnoc([start], delta, 0);
    assert [] + [start] == [start] && "" + text == text;
  }

  lemma {:induction false} RunOfTwo(one: RunEvent, two: RunEvent)
    ensures var (m, frames) := OnRunEvent(NEW_RUN, one); var (after, more) := OnRunEvent(m, two);
            && RunOf([one, two]) == (after, frames + more)
            && (IsStart(two) ==> ClaimedBefore([one, two]) == m.claimed)
  {
    hide OnRunEvent;
    var events := [one, two];
    assert events[..1] == [one] && [one][..0] == [];
    assert RunOf([]) == (NEW_RUN, []);
    var (m, frames) := OnRunEvent(NEW_RUN, one);
    assert [] + frames == frames;
    assert RunOf([one]) == (m, frames);
  }

  // A thought of an earlier message: the browser saw it, the settled message does not have it.
  lemma {:induction false} EarlierReasoningIsDropped(text: string)
    ensures var events := [MessageUpdated([], ThinkingDelta(Some(0), text)), MessageUpdated([], MessageStart)];
            && Streamed(RunOf(events).1, 0) && Said(RunOf(events).1, 0) == Some(text)
            && ShownText(Finalized(RunOf(events).0).1, 0) == None
  {
    var one, two := MessageUpdated([], ThinkingDelta(Some(0), text)), MessageUpdated([], MessageStart);
    var (m, frames) := OnRunEvent(NEW_RUN, one);
    FirstThought(text);
    assert OnRunEvent(m, two).1 == [] && frames + [] == frames;
    SaidThought(text, Some(0));
    RunOfTwo(one, two);
    hide OnRunEvent, Said, Streamed, Finalized, ShownText, RunOf, ClaimedBefore;
    StreamedReasoningIsScoped([one, two], 0);
  }

  // The message of any run: no tool part is lost, and none is repeated unless the message itself
  // calls one twice; one text part at most, the accumulated text. Reasoning is that of the newest
  // message: an index with a start or a delta is shown, with the text the browser was told, if and only
  // if it was claimed after the newest start; every thinking block's text is under its own index.
  // Images and errors are those of the newest message remembered.
  lemma {:induction false} TerminalMessageIsComplete(events: seq<RunEvent>)
    ensures var (m, frames) := RunOf(events);
            var (after, parts) := Finalized(m);
            && multiset(m.tools) <= multiset(ToolsOf(parts))
            && (multiset(ToolsOf(parts)) == multiset(m.tools) <==> NoRepeat(CalledIds(m.tools, m.content)))
            && DistinctIds(m.tools)
            && (m.text != "" ==> TextsOf(parts) == [m.text]) && |TextsOf(parts)| <= 1
            && DistinctReasoning(parts)
            && (forall k: nat :: Streamed(frames, k) ==>
                  ShownText(parts, k) == if k in ClaimedBefore(events) then None else Said(frames, k))
            && (forall k: nat :: k in m.reasoningText ==> ShownText(parts, k) == Some(m.reasoningText[k]))
            && (forall i: nat :: Shown(after, m.content, parts, i))
            && (forall k: nat :: ShownText(parts, k).Some? ==> Owned(after, m.content, k, ShownText(parts, k).value))
            && m.images == ImagesOf(Newest(events).0) && m.errors == Newest(events).1
            && EndsIn(parts, AsImages(m.images) + AsErrors(m.errors))
  {
    var m := RunOf(events).0;
    RunsStayTidy(events);
    RunsKeep(events);
    ToolsAreConserved(m);
    OneText(m);
    ReasoningIsConserved(m);
    ImagesAreNewest(events);
    FinalImages(m);
    forall k: nat | Streamed(RunOf(events).1, k)
      ensures ShownText(Finalized(m).1, k) == if k in ClaimedBefore(events) then None else Said(RunOf(events).1, k)
    {
      StreamedReasoningIsScoped(events, k);
    }
    hide RunOf, Finalized, Streamed, Said, ShownText, Shown, Owned, Sound, Tidy, Routes, Indexes, EndsIn;
  }

  predicate EndsIn(parts: seq<Part>, tail: seq<Part>) {
    |tail| <= |parts| && parts[|parts| - |tail|..] == tail
  }

  lemma {:induction false} FinalImages(m: Mapper)
    ensures EndsIn(Finalized(m).1, AsImages(m.images) + AsErrors(m.errors))
  {
    var d := PlaceBlocks(m, m.content);
    BlocksKeepBase(m, m.content);
    var front, tail := Settled(d) + AsTools(RestTools(d.m.tools, d.emitted)), AsImages(m.images) + AsErrors(m.errors);
    assert Finalized(m).1 == front + tail;
  }

  // A message that names one call twice repeats that part.
  lemma {:induction false} RepeatedCallRepeatsPart(part: ToolPart, name: string)
    requires part.toolCallId != ""
    ensures var call := ToolCallBlock(part.toolCallId, name, None);
            var m := RunOf([ToolEvent(part), MessageUpdated([call, call], Ignored)]).0;
            m.tools == [part] && multiset(ToolsOf(Finalized(m).1)) != multiset(m.tools)
  {
    var call := ToolCallBlock(part.toolCallId, name, None);
    var one, two := [call], [call, call];
    var events := [ToolEvent(part), MessageUpdated(two, Ignored)];
    assert events[..1] == [ToolEvent(part)] && events[..1][..0] == [];
    assert RunOf(events[..1]).0 == NEW_RUN.(tools := [part]);
    var m := NEW_RUN.(tools := [part], content := two);
    assert RunOf(events).0 == m;
    assert two[..1] == one && one[..0] == [];
    assert CalledIds([part], one) == [] + [part.toolCallId] == [part.toolCallId];
    assert CalledIds([part], two) == [part.toolCallId] + [part.toolCallId];
    assert !NoRepeat(CalledIds([part], two)) by {
      assert CalledIds([part], two)[0] == CalledIds([part], two)[1];
    }
    ToolsAreConserved(m);
  }
}
