/** The order of the terminal message's parts: the order of its blocks, then what no block accounted for. */
module PartOrder {
  import opened Wrappers
  import opened EventMapper
  import opened TerminalMessage

  // ----- text and tools

  predicate IsPlain(part: Part) {
    part.Text? || part.Tool?
  }

  // The text and tool parts among some.
  function Plain(parts: seq<Part>): seq<Part> {
    if parts == [] then []
    else Plain(parts[..|parts| - 1]) + (if IsPlain(parts[|parts| - 1]) then [parts[|parts| - 1]] else [])
  }

  lemma {:induction false} PlainSnoc(parts: seq<Part>, part: Part)
    ensures Plain(parts + [part]) == Plain(parts) + (if IsPlain(part) then [part] else [])
  {
    assert (parts + [part])[..|parts|] == parts;
  }

  lemma {:induction false} PlainConcat(a: seq<Part>, b: seq<Part>)
    ensures Plain(a + b) == Plain(a) + Plain(b)
  {
    hide IsPlain;
    if b == [] {
      assert a + b == a && Plain(a) + [] == Plain(a);
    } else {
      var front, last := b[..|b| - 1], b[|b| - 1];
      PlainConcat(a, front);
      assert a + front + [last] == a + b && front + [last] == b;
      PlainSnoc(a + front, last);
      PlainSnoc(front, last);
      var more := if IsPlain(last) then [last] else [];
      assert Plain(a) + Plain(front) + more == Plain(a) + (Plain(front) + more);
    }
  }

  lemma {:induction false} PlainHasText(parts: seq<Part>)
    ensures HasText(Plain(parts)) <==> HasText(parts)
  {
    if parts != [] {
      var front, last := parts[..|parts| - 1], parts[|parts| - 1];
      PlainHasText(front);
      HasTextSnoc(front, last);
      assert front + [last] == parts;
      if IsPlain(last) {
        HasTextSnoc(Plain(front), last);
      } else {
        assert Plain(front) + [] == Plain(front);
      }
    }
  }

  lemma {:induction false} HasTextSnoc(parts: seq<Part>, part: Part)
    ensures HasText(parts + [part]) <==> HasText(parts) || part.Text?
  {
    var all := parts + [part];
    assert all[|parts|] == part && forall i :: 0 <= i < |parts| ==> all[i] == parts[i];
  }

  // ----- the outline of a message

  // What a block shows of text and tools, given what came before it: the first text block that is not
  // empty shows the run's text, or its own if the run has none; a call block shows its call's part.
  function ShownBy(m: Mapper, before: seq<Part>, block: Block): seq<Part> {
    match block
    case TextBlock(text) =>
      if text == "" || HasText(before) then [] else [Text(if m.text != "" then m.text else text)]
    case ToolCallBlock(id, _, _) =>
      if id != "" && FindTool(m.tools, id) >= 0 then [Tool(m.tools[FindTool(m.tools, id)])] else []
    case _ => []
  }

  function Outline(m: Mapper, content: seq<Block>): seq<Part> {
    if content == [] then []
    else
      var before := Outline(m, content[..|content| - 1]);
      before + ShownBy(m, before, content[|content| - 1])
  }

  predicate IsCalled(content: seq<Block>, id: string) {
    exists i :: 0 <= i < |content| && content[i].ToolCallBlock? && content[i].id == id
  }

  // The tools that no block of the message calls.
  function Uncalled(tools: seq<ToolPart>, content: seq<Block>): seq<Part> {
    if tools == [] then []
    else
      var last := tools[|tools| - 1];
      Uncalled(tools[..|tools| - 1], content)
      + (if last.toolCallId == "" || !IsCalled(content, last.toolCallId) then [Tool(last)] else [])
  }

  // ----- placing blocks

  // Reasoning leaves the text and tool parts alone, and nothing that was placed moves.
  ghost predicate Grows(before: seq<Part>, after: seq<Part>, more: seq<Part>) {
    before <= after && Plain(after) == Plain(before) + more
  }

  lemma {:induction false} PushGrows(parts: seq<Part>, index: nat, text: string)
    ensures Grows(parts, PushReasoning(parts, index, text), [])
  {
    PlainSnoc(parts, Reasoning(index, text));
    assert Plain(parts) + [] == Plain(parts);
  }

  lemma {:induction false} StreamedGrows(parts: seq<Part>, texts: map<nat, string>, keys: seq<nat>, limit: Option<nat>)
    requires forall k :: k in keys ==> k in texts
    ensures Grows(parts, PushStreamed(parts, texts, keys, limit), [])
    decreases |keys|
  {
    assert Plain(parts) + [] == Plain(parts);
    if !(keys == [] || (limit.Some? && keys[0] >= limit.value)) {
      var pushed := PushReasoning(parts, keys[0], texts[keys[0]]);
      PushGrows(parts, keys[0], texts[keys[0]]);
      assert Plain(pushed) + [] == Plain(pushed);
      hide PushReasoning, Plain;
      StreamedGrows(pushed, texts, keys[1..], limit);
    }
  }

  lemma {:induction false} ThinkingGrows(d: Draft, contentIndex: nat, thinking: Option<string>)
    ensures var after := PlaceThinking(d, contentIndex, thinking);
            && Grows(d.parts, after.parts, []) && after.emitted == d.emitted
            && Keeps(d.m, after.m) && contentIndex in after.m.fleetByRuntime
            && var fleet := after.m.fleetByRuntime[contentIndex];
               KnownText(after.m, fleet, thinking).Some? ==> HasReasoning(after.parts, fleet)
  {
    var m := Routed(d.m, contentIndex);
    var fleet := m.fleetByRuntime[contentIndex];
    var keys := SortedKeys(m.reasoningText.Keys);
    var parts := PushStreamed(d.parts, m.reasoningText, keys, Some(fleet));
    StreamedGrows(d.parts, m.reasoningText, keys, Some(fleet));
    RoutedKeeps(d.m, contentIndex);
    var text := KnownText(m, fleet, thinking);
    if text.Some? {
      PushGrows(parts, fleet, text.value);
      PushHas(parts, fleet, text.value);
      assert Plain(d.parts) + [] + [] == Plain(d.parts) + [];
    }
    hide PushStreamed, PushReasoning, Plain, HasReasoning, FleetIndex, Routed, SortedKeys;
  }

  lemma {:induction false} PushHas(parts: seq<Part>, index: nat, text: string)
    ensures HasReasoning(PushReasoning(parts, index, text), index)
  {
    if !HasReasoning(parts, index) {
      assert (parts + [Reasoning(index, text)])[|parts|] == Reasoning(index, text);
    }
  }

  // Text, tools and streamed texts stay, and no block changes its index.
  predicate Keeps(m: Mapper, after: Mapper) {
    && after.text == m.text && after.tools == m.tools && after.reasoningText == m.reasoningText
    && forall r :: r in m.fleetByRuntime ==> r in after.fleetByRuntime && after.fleetByRuntime[r] == m.fleetByRuntime[r]
  }

  lemma {:induction false} RoutedKeeps(m: Mapper, contentIndex: nat)
    ensures Keeps(m, Routed(m, contentIndex))
  {
    hide FleetIndex;
  }

  lemma {:induction false} TextGrows(d: Draft, text: string)
    ensures var after := PlaceText(d, text);
            && Grows(d.parts, after.parts, ShownBy(d.m, Plain(d.parts), TextBlock(text)))
            && after.m == d.m && after.emitted == d.emitted
  {
    var shown := Text(if d.m.text != "" then d.m.text else text);
    PlainHasText(d.parts);
    PlainSnoc(d.parts, shown);
    assert Plain(d.parts) + [] == Plain(d.parts);
    hide Plain, HasText;
  }

  // A call block accounts for the part of its call.
  function Emits(m: Mapper, block: Block): set<string> {
    if block.ToolCallBlock? && block.id != "" && FindTool(m.tools, block.id) >= 0 then {block.id} else {}
  }

  lemma {:induction false} CallGrows(d: Draft, block: Block)
    requires block.ToolCallBlock?
    ensures var after := PlaceCall(d, block.id);
            && Grows(d.parts, after.parts, ShownBy(d.m, Plain(d.parts), block)) && after.m == d.m
            && after.emitted == d.emitted + Emits(d.m, block)
  {
    assert Plain(d.parts) + [] == Plain(d.parts);
    if FindTool(d.m.tools, block.id) >= 0 {
      PlainSnoc(d.parts, Tool(d.m.tools[FindTool(d.m.tools, block.id)]));
    }
    hide Plain, FindTool;
  }

  lemma {:induction false} KeepsSelf(m: Mapper, parts: seq<Part>)
    ensures Keeps(m, m) && Grows(parts, parts, [])
  {
    assert Plain(parts) + [] == Plain(parts);
  }

  lemma {:induction false} BlockGrows(d: Draft, contentIndex: nat, block: Block)
    ensures var after := PlaceBlock(d, contentIndex, block);
            Grows(d.parts, after.parts, ShownBy(d.m, Plain(d.parts), block)) && Keeps(d.m, after.m)
  {
    hide Grows, Plain, Keeps, PlaceText, PlaceThinking, PlaceCall, HasText, FindTool;
    KeepsSelf(d.m, d.parts);
    match block
    case TextBlock(text) => TextGrows(d, text);
    case ThinkingBlock(thinking) => ThinkingGrows(d, contentIndex, thinking);
    case ToolCallBlock(id, _, _) => CallGrows(d, block);
    case _ =>
  }

  lemma {:induction false} BlocksOutline(m: Mapper, content: seq<Block>)
    ensures Plain(PlaceBlocks(m, content).parts) == Outline(m, content) && Keeps(m, PlaceBlocks(m, content).m)
  {
    if content != [] {
      var front, block := content[..|content| - 1], content[|content| - 1];
      var d := PlaceBlocks(m, front);
      BlocksOutline(m, front);
      BlockGrows(d, |front|, block);
      SameShown(m, d.m, Plain(d.parts), block);
      hide PlaceBlock, Plain, ShownBy;
    }
  }

  lemma {:induction false} SameShown(m: Mapper, other: Mapper, before: seq<Part>, block: Block)
    requires Keeps(m, other)
    ensures ShownBy(m, before, block) == ShownBy(other, before, block)
  {}

  lemma {:induction false} KeepsOn(a: Draft, b: Draft, c: Draft)
    requires a.parts <= b.parts <= c.parts && Keeps(a.m, b.m) && Keeps(b.m, c.m)
    ensures a.parts <= c.parts && Keeps(a.m, c.m)
  {}

  // Nothing that was placed is moved.
  ghost predicate Stays(a: Draft, b: Draft) {
    a.parts <= b.parts && Keeps(a.m, b.m)
  }

  lemma {:induction false} StaysSelf(a: Draft)
    ensures Stays(a, a)
  {}

  lemma {:induction false} BlockStays(m: Mapper, content: seq<Block>)
    requires content != []
    ensures Stays(PlaceBlocks(m, content[..|content| - 1]), PlaceBlocks(m, content))
  {
    var front := content[..|content| - 1];
    var d := PlaceBlocks(m, front);
    assert PlaceBlocks(m, content) == PlaceBlock(d, |front|, content[|content| - 1]);
    hide PlaceBlocks, PlaceBlock, Plain, ShownBy, Keeps;
    BlockGrows(d, |front|, content[|content| - 1]);
  }

  // What is placed for the first blocks is not moved by the others.
  lemma {:induction false} BlocksGrow(m: Mapper, content: seq<Block>, j: nat)
    requires j <= |content|
    ensures Stays(PlaceBlocks(m, content[..j]), PlaceBlocks(m, content))
    decreases |content|
  {
    hide PlaceBlocks, Stays;
    if j == |content| {
      assert content[..j] == content;
      StaysSelf(PlaceBlocks(m, content));
    } else {
      var front := content[..|content| - 1];
      assert front[..j] == content[..j];
      BlockStays(m, content);
      BlocksGrow(m, front, j);
      StaysOn(PlaceBlocks(m, content[..j]), PlaceBlocks(m, front), PlaceBlocks(m, content));
    }
  }

  lemma {:induction false} StaysOn(a: Draft, b: Draft, c: Draft)
    requires Stays(a, b) && Stays(b, c)
    ensures Stays(a, c)
  {
    KeepsOn(a, b, c);
  }

  // ----- what no block accounted for

  lemma {:induction false} BlockEmits(d: Draft, contentIndex: nat, block: Block)
    ensures PlaceBlock(d, contentIndex, block).emitted
            == d.emitted + Emits(d.m, block)
  {
    hide Plain, PlaceText, PlaceThinking, PlaceCall, HasText, FindTool, Grows, Keeps;
    match block
    case TextBlock(text) => TextGrows(d, text);
    case ThinkingBlock(thinking) => ThinkingGrows(d, contentIndex, thinking);
    case ToolCallBlock(id, _, _) => CallGrows(d, block);
    case _ =>
  }

  lemma {:induction false} BlocksEmit(m: Mapper, content: seq<Block>, id: string)
    ensures id in PlaceBlocks(m, content).emitted
            <==> id != "" && FindTool(m.tools, id) >= 0 && IsCalled(content, id)
  {
    if content != [] {
      var front, block := content[..|content| - 1], content[|content| - 1];
      var d := PlaceBlocks(m, front);
      BlocksEmit(m, front, id);
      BlocksOutline(m, front);
      assert d.m.tools == m.tools;
      assert PlaceBlocks(m, content) == PlaceBlock(d, |front|, block);
      hide IsCalled, PlaceBlock, PlaceBlocks, Outline, Plain, Keeps, FindTool;
      IsCalledSnoc(front, block, id);
      assert front + [block] == content;
      BlockEmits(d, |front|, block);
    }
  }

  lemma {:induction false} IsCalledSnoc(content: seq<Block>, block: Block, id: string)
    ensures IsCalled(content + [block], id) <==> IsCalled(content, id) || (block.ToolCallBlock? && block.id == id)
  {
    var all := content + [block];
    assert all[|content|] == block && forall i :: 0 <= i < |content| ==> all[i] == content[i];
  }

  lemma {:induction false} RestIsUncalled(tools: seq<ToolPart>, content: seq<Block>, emitted: set<string>)
    requires forall i :: 0 <= i < |tools| && tools[i].toolCallId != "" ==>
               (tools[i].toolCallId in emitted <==> IsCalled(content, tools[i].toolCallId))
    ensures AsTools(RestTools(tools, emitted)) == Uncalled(tools, content)
  {
    hide IsCalled;
    if tools != [] {
      var front, last := tools[..|tools| - 1], tools[|tools| - 1];
      RestIsUncalled(front, content, emitted);
      AsToolsSnoc(RestTools(front, emitted), last);
    }
  }

  lemma {:induction false} AsToolsSnoc(tools: seq<ToolPart>, tool: ToolPart)
    ensures AsTools(tools + [tool]) == AsTools(tools) + [Tool(tool)] && AsTools(tools + []) == AsTools(tools) + []
  {
    assert tools + [] == tools;
  }

  lemma {:induction false} UncalledIsPlain(tools: seq<ToolPart>, content: seq<Block>)
    ensures Plain(Uncalled(tools, content)) == Uncalled(tools, content)
  {
    hide IsCalled;
    if tools != [] {
      UncalledIsPlain(tools[..|tools| - 1], content);
      PlainSnoc(Uncalled(tools[..|tools| - 1], content), Tool(tools[|tools| - 1]));
      var front := Uncalled(tools[..|tools| - 1], content);
      assert front + [] == front;
    }
  }

  lemma {:induction false} NotPlain(parts: seq<Part>)
    requires forall i :: 0 <= i < |parts| ==> !IsPlain(parts[i])
    ensures Plain(parts) == []
  {
    if parts != [] {
      NotPlain(parts[..|parts| - 1]);
    }
  }

  function RestText(m: Mapper, outline: seq<Part>): seq<Part> {
    if m.text != "" && !HasText(outline) then [Text(m.text)] else []
  }

  lemma {:induction false} SettledPlain(m: Mapper)
    ensures var outline := Outline(m, m.content);
            Plain(Settled(PlaceBlocks(m, m.content))) == outline + RestText(m, outline)
    ensures PlaceBlocks(m, m.content).parts <= Settled(PlaceBlocks(m, m.content))
  {
    var d := PlaceBlocks(m, m.content);
    BlocksOutline(m, m.content);
    PlainHasText(d.parts);
    PlainSnoc(d.parts, Text(d.m.text));
    assert Plain(d.parts) + [] == Plain(d.parts);
    var parts := WithText(d.m, d.parts);
    assert Plain(parts) == Plain(d.parts) + RestText(m, Plain(d.parts));
    StreamedGrows(parts, d.m.reasoningText, SortedKeys(d.m.reasoningText.Keys), None);
    assert Plain(parts) + [] == Plain(parts);
    hide PushStreamed, Plain, Outline, PlaceBlocks, HasText;
  }

  // The text and tool parts come in the order of the blocks that show them, then the run's text if no
  // block showed it, then the tools that no block called, in the order they came up.
  lemma {:induction false} PartsInOrder(m: Mapper)
    ensures var outline := Outline(m, m.content);
            Plain(Finalized(m).1) == outline + RestText(m, outline) + Uncalled(m.tools, m.content)
  {
    var d := PlaceBlocks(m, m.content);
    SettledPlain(m);
    BlocksOutline(m, m.content);
    forall i | 0 <= i < |m.tools| && m.tools[i].toolCallId != ""
      ensures m.tools[i].toolCallId in d.emitted <==> IsCalled(m.content, m.tools[i].toolCallId)
    {
      BlocksEmit(m, m.content, m.tools[i].toolCallId);
    }
    RestIsUncalled(m.tools, m.content, d.emitted);
    UncalledIsPlain(m.tools, m.content);
    var images, errors := AsImages(d.m.images), AsErrors(d.m.errors);
    NotPlain(images);
    NotPlain(errors);
    var settled, rest := Settled(d), Uncalled(m.tools, m.content);
    hide Plain, Outline, PlaceBlocks, HasText, Settled, Uncalled, IsCalled;
    PlainConcat(settled, rest);
    PlainConcat(settled + rest, images);
    PlainConcat(settled + rest + images, errors);
    assert Plain(settled) + Plain(rest) + [] + [] == Plain(settled) + Plain(rest);
  }

  // ----- reasoning

  lemma {:induction false} PlainPrefix(parts: seq<Part>, p: nat)
    requires p <= |parts|
    ensures |Plain(parts[..p])| <= |Plain(parts)|
  {
    assert parts == parts[..p] + parts[p..];
    PlainConcat(parts[..p], parts[p..]);
  }

  lemma {:induction false} FinalPrefix(m: Mapper)
    ensures PlaceBlocks(m, m.content).parts <= Finalized(m).1 && PlaceBlocks(m, m.content).m == Finalized(m).0
  {
    SettledPlain(m);
    hide PlaceBlocks, Settled, RestTools;
  }

  // Right after the i-th block: its reasoning is there, and no text or tool part of a later block.
  lemma {:induction false} ThinkingPlaced(m: Mapper, content: seq<Block>)
    requires content != [] && content[|content| - 1].ThinkingBlock?
    ensures var i := |content| - 1; var here := PlaceBlocks(m, content);
            && i in here.m.fleetByRuntime && |Plain(here.parts)| == |Outline(m, content[..i])|
            && var fleet := here.m.fleetByRuntime[i];
               KnownText(here.m, fleet, content[i].thinking).Some? ==> HasReasoning(here.parts, fleet)
  {
    var i := |content| - 1;
    var d := PlaceBlocks(m, content[..i]);
    ThinkingGrows(d, i, content[i].thinking);
    BlocksOutline(m, content[..i]);
    assert PlaceBlocks(m, content) == PlaceThinking(d, i, content[i].thinking);
    hide PlaceThinking, Plain, Outline, PlaceBlocks;
  }

  // A thinking block's part stands before the text and tool parts of all later blocks.
  lemma {:induction false} ThinkingInOrder(m: Mapper, i: nat) returns (p: nat)
    requires i < |m.content| && m.content[i].ThinkingBlock?
    ensures i in Finalized(m).0.fleetByRuntime
    ensures var (after, parts) := Finalized(m); var fleet := after.fleetByRuntime[i];
            KnownText(after, fleet, m.content[i].thinking).Some? ==>
              && p < |parts| && parts[p].Reasoning? && parts[p].contentIndex == fleet
              && |Plain(parts[..p])| <= |Outline(m, m.content[..i])|
  {
    var content := m.content[..i + 1];
    assert content[..i] == m.content[..i] && content[i] == m.content[i];
    hide PlaceBlocks, Plain, Outline, Finalized, HasReasoning, KnownText;
    ThinkingPlaced(m, content);
    BlocksGrow(m, m.content, i + 1);
    FinalPrefix(m);
    var here := PlaceBlocks(m, content);
    var fleet := here.m.fleetByRuntime[i];
    KnownAlike(here.m, Finalized(m).0, fleet, content[i].thinking);
    p := 0;
    if KnownText(here.m, fleet, content[i].thinking).Some? {
      p := FindReasoning(here.parts, Finalized(m).1, fleet);
    }
  }

  lemma {:induction false} KnownAlike(m: Mapper, other: Mapper, fleet: nat, thinking: Option<string>)
    requires Keeps(m, other)
    ensures KnownText(m, fleet, thinking) == KnownText(other, fleet, thinking)
  {}

  lemma {:induction false} FindReasoning(before: seq<Part>, parts: seq<Part>, fleet: nat) returns (p: nat)
    requires before <= parts && HasReasoning(before, fleet)
    ensures p < |parts| && parts[p].Reasoning? && parts[p].contentIndex == fleet
    ensures |Plain(parts[..p])| <= |Plain(before)|
  {
    p :| 0 <= p < |before| && before[p].Reasoning? && before[p].contentIndex == fleet;
    assert parts[..p] == before[..p];
    hide Plain;
    PlainPrefix(before, p);
  }
}
