/** The message assembled when a run settles: the blocks in order, then what no block accounted for. */
module TerminalMessage {
  import opened Wrappers
  import opened EventMapper

  // ----- sorted keys

  predicate Least(keys: set<nat>, k: nat) {
    k in keys && forall j :: j in keys ==> k <= j
  }

  lemma {:induction false} LeastExists(keys: set<nat>)
    requires keys != {}
    ensures exists k :: Least(keys, k)
  {
    var k :| k in keys;
    if keys == {k} {
      assert Least(keys, k);
    } else {
      var rest := keys - {k};
      LeastExists(rest);
      var l :| Least(rest, l);
      forall j | j in keys
        ensures (if k < l then k else l) <= j
      {
        assert j == k || j in rest;
      }
      assert Least(keys, if k < l then k else l);
    }
  }

  predicate Ascending(keys: seq<nat>) {
    forall i, j :: 0 <= i < j < |keys| ==> keys[i] < keys[j]
  }

  function SortedKeys(keys: set<nat>): (r: seq<nat>)
    ensures forall k :: k in r <==> k in keys
    ensures Ascending(r)
  {
    if keys == {} then []
    else
      LeastExists(keys);
      var k :| Least(keys, k);
      var rest := SortedKeys(keys - {k});
      AscendingCons(k, rest);
      [k] + rest
  }

  lemma {:induction false} AscendingCons(k: nat, rest: seq<nat>)
    requires Ascending(rest) && forall j :: j in rest ==> k < j
    ensures Ascending([k] + rest)
  {
    assert forall i :: 0 <= i < |rest| ==> rest[i] in rest;
  }

  // ----- the parts pushed so far

  predicate HasText(parts: seq<Part>) {
    exists i :: 0 <= i < |parts| && parts[i].Text?
  }

  predicate HasReasoning(parts: seq<Part>, index: nat) {
    exists i :: 0 <= i < |parts| && parts[i].Reasoning? && parts[i].contentIndex == index
  }

  function PushReasoning(parts: seq<Part>, index: nat, text: string): seq<Part> {
    if HasReasoning(parts, index) then parts else parts + [Reasoning(index, text)]
  }

  // The streamed texts in index order, up to a limit, that are not there yet.
  function PushStreamed(parts: seq<Part>, texts: map<nat, string>, keys: seq<nat>, limit: Option<nat>): seq<Part>
    requires forall k :: k in keys ==> k in texts
    decreases |keys|
  {
    if keys == [] || (limit.Some? && keys[0] >= limit.value) then parts
    else PushStreamed(PushReasoning(parts, keys[0], texts[keys[0]]), texts, keys[1..], limit)
  }

  datatype Draft = Draft(m: Mapper, parts: seq<Part>, emitted: set<string>)

  function PlaceText(d: Draft, text: string): Draft {
    if text != "" && !HasText(d.parts) then d.(parts := d.parts + [Text(if d.m.text != "" then d.m.text else text)])
        else d
  }

  // The index a thinking block of the message is shown under.
  function Routed(m: Mapper, contentIndex: nat): (r: Mapper)
    ensures contentIndex in r.fleetByRuntime
  {
    if contentIndex in m.fleetByRuntime then m else Claim(m, contentIndex)
  }

  function KnownText(m: Mapper, fleet: nat, thinking: Option<string>): Option<string> {
    if fleet in m.reasoningText then Some(m.reasoningText[fleet]) else thinking
  }

  function PlaceThinking(d: Draft, contentIndex: nat, thinking: Option<string>): Draft {
    var m := Routed(d.m, contentIndex);
    var fleet := m.fleetByRuntime[contentIndex];
    var parts := PushStreamed(d.parts, m.reasoningText, SortedKeys(m.reasoningText.Keys), Some(fleet));
    var text := KnownText(m, fleet, thinking);
    Draft(m, if text.Some? then PushReasoning(parts, fleet, text.value) else parts, d.emitted)
  }

  function PlaceCall(d: Draft, id: string): Draft {
    var i := FindTool(d.m.tools, id);
    if id != "" && i >= 0 then d.(parts := d.parts + [Tool(d.m.tools[i])], emitted := d.emitted + {id}) else d
  }

  function PlaceBlock(d: Draft, contentIndex: nat, block: Block): Draft {
    match block
    case TextBlock(text) => PlaceText(d, text)
    case ThinkingBlock(thinking) => PlaceThinking(d, contentIndex, thinking)
    case ToolCallBlock(id, _, _) => PlaceCall(d, id)
    case _ => d
  }

  function PlaceBlocks(m: Mapper, content: seq<Block>): Draft {
    if content == [] then Draft(m, [], {})
    else PlaceBlock(PlaceBlocks(m, content[..|content| - 1]), |content| - 1, content[|content| - 1])
  }

  function RestTools(tools: seq<ToolPart>, emitted: set<string>): seq<ToolPart> {
    if tools == [] then []
    else
      var last := tools[|tools| - 1];
      RestTools(tools[..|tools| - 1], emitted)
      + (if last.toolCallId == "" || last.toolCallId !in emitted then [last] else [])
  }

  function AsTools(tools: seq<ToolPart>): (r: seq<Part>) {
    seq(|tools|, i requires 0 <= i < |tools| => Tool(tools[i]))
  }

  function AsImages(images: seq<string>): (r: seq<Part>) {
    seq(|images|, i requires 0 <= i < |images| => Image(images[i]))
  }

  function AsErrors(errors: seq<string>): (r: seq<Part>) {
    seq(|errors|, i requires 0 <= i < |errors| => Error(errors[i]))
  }

  function WithText(m: Mapper, parts: seq<Part>): seq<Part> {
    if m.text != "" && !HasText(parts) then parts + [Text(m.text)] else parts
  }

  // Blocks in message order, then text, reasoning and tools that no block accounted for.
  function Settled(d: Draft): seq<Part> {
    PushStreamed(WithText(d.m, d.parts), d.m.reasoningText, SortedKeys(d.m.reasoningText.Keys), None)
  }

  function Finalized(m: Mapper): (Mapper, seq<Part>) {
    var d := PlaceBlocks(m, m.content);
    (d.m, Settled(d) + AsTools(RestTools(d.m.tools, d.emitted)) + AsImages(d.m.images) + AsErrors(d.m.errors))
  }

  // ----- the procedure

  method PushStreamedReasoning(before: seq<Part>, texts: map<nat, string>, limit: Option<nat>)
    returns (parts: seq<Part>)
    ensures parts == PushStreamed(before, texts, SortedKeys(texts.Keys), limit)
  {
    hide SortedKeys;
    parts := before;
    var keys := SortedKeys(texts.Keys);
    ghost var rest := keys;
    var i := 0;
    while i < |keys|
      invariant 0 <= i <= |keys| && rest == keys[i..]
      invariant forall k :: k in rest ==> k in texts
      invariant PushStreamed(parts, texts, rest, limit) == PushStreamed(before, texts, keys, limit)
    {
      if limit.Some? && keys[i] >= limit.value { break; }
      if !HasReasoning(parts, keys[i]) {
        parts := parts + [Reasoning(keys[i], texts[keys[i]])];
      }
      assert rest[1..] == keys[i + 1..];
      rest := rest[1..];
      i := i + 1;
    }
  }

  method ThinkingPart(s: State, parts: seq<Part>, contentIndex: nat, thinking: Option<string>) returns (r: seq<Part>)
    modifies s`claimed, s`episodeSeq, s`fleetByRuntime
    ensures forall emitted :: PlaceThinking(Draft(old(s.Value()), parts, emitted), contentIndex, thinking)
                              == Draft(s.Value(), r, emitted)
  {
    var fleet;
    if contentIndex in s.fleetByRuntime {
      fleet := s.fleetByRuntime[contentIndex];
    } else {
      fleet := s.ClaimIndex(contentIndex);
    }
    r := PushStreamedReasoning(parts, s.reasoningText, Some(fleet));
    var text := if fleet in s.reasoningText then Some(s.reasoningText[fleet]) else thinking;
    if text.Some? && !HasReasoning(r, fleet) {
      r := r + [Reasoning(fleet, text.value)];
    }
  }

  method PlaceOne(s: State, parts: seq<Part>, emitted: set<string>, contentIndex: nat, block: Block)
    returns (r: seq<Part>, emitted': set<string>)
    modifies s`claimed, s`episodeSeq, s`fleetByRuntime
    ensures Draft(s.Value(), r, emitted') == PlaceBlock(Draft(old(s.Value()), parts, emitted), contentIndex, block)
  {
    r, emitted' := parts, emitted;
    match block
    case TextBlock(text) =>
      if text != "" && !HasText(parts) {
        r := parts + [Text(if s.text != "" then s.text else text)];
      }
    case ThinkingBlock(thinking) =>
      r := ThinkingPart(s, parts, contentIndex, thinking);
    case ToolCallBlock(id, _, _) =>
      var i := FindTool(s.tools, id);
      if id != "" && i >= 0 {
        r, emitted' := parts + [Tool(s.tools[i])], emitted + {id};
      }
    case _ =>
  }

  method RemainingTools(tools: seq<ToolPart>, emitted: set<string>) returns (rest: seq<ToolPart>)
    ensures rest == RestTools(tools, emitted)
  {
    rest := [];
    ghost var done: seq<ToolPart> := [];
    for i := 0 to |tools|
      invariant done == tools[..i] && rest == RestTools(done, emitted)
    {
      assert (done + [tools[i]])[..i] == done;
      done := done + [tools[i]];
      if tools[i].toolCallId == "" || tools[i].toolCallId !in emitted {
        rest := rest + [tools[i]];
      }
    }
    assert done == tools;
  }

  method FinalizeAssistantMessage(s: State) returns (parts: seq<Part>, id: nat)
    modifies s`claimed, s`episodeSeq, s`fleetByRuntime
    ensures (s.Value(), parts) == Finalized(old(s.Value()))
    ensures id == if s.messageId.Some? then s.messageId.value else s.messageSeq
  {
    ghost var m := s.Value();
    var content := s.content;
    var emitted: set<string> := {};
    parts := [];
    ghost var done: seq<Block> := [];
    for i := 0 to |content|
      invariant done == content[..i] && Draft(s.Value(), parts, emitted) == PlaceBlocks(m, done)
    {
      assert (done + [content[i]])[..i] == done;
      done := done + [content[i]];
      parts, emitted := PlaceOne(s, parts, emitted, i, content[i]);
    }
    assert done == content;
    if s.text != "" && !HasText(parts) {
      parts := parts + [Text(s.text)];
    }
    parts := PushStreamedReasoning(parts, s.reasoningText, None);
    var rest := RemainingTools(s.tools, emitted);
    parts := parts + AsTools(rest) + AsImages(s.images) + AsErrors(s.errors);
    id := if s.messageId.Some? then s.messageId.value else s.messageSeq;
  }
}
