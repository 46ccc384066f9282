/**
 The per-session event mapper: reasoning episodes with run-unique indexes, tool parts kept by
 call id, accumulated text, and the message assembled when the run settles.
 */
module EventMapper {
  import opened Wrappers

  // ----- frames and blocks

  datatype Phase = Start | Delta | End

  datatype Frame =
    | ReasoningText(phase: Phase, contentIndex: nat, text: string, messageId: Option<nat>)
    | TextDelta(delta: string, messageId: Option<nat>)

  datatype Block =
    | TextBlock(text: string)
    | ThinkingBlock(thinking: Option<string>)
    | ToolCallBlock(id: string, name: string, arguments: Option<string>)
    | ImageBlock(image: string)
    | OtherBlock

  // An empty call id is a missing one. A part may carry no result, or one that is undefined.
  datatype ToolPart =
    ToolPart(toolCallId: string, input: Option<string>, state: ToolState, result: Option<Option<string>>)

  datatype ToolState = InputStreaming | OutputAvailable | OutputError

  datatype Part =
    | Text(text: string)
    | Reasoning(contentIndex: nat, text: string)
    | Tool(tool: ToolPart)
    | Image(image: string)
    | Error(message: string)

  // Which runtime episode is open, under which index it is shown.
  datatype Active = Active(runtime: nat, fleet: nat)

  datatype Mapper = Mapper(
    messageSeq: nat,
    messageId: Option<nat>,
    text: string,
    reasoningText: map<nat, string>,
    claimed: set<nat>,
    episodeSeq: nat,
    active: seq<Active>,                   // a Map, in insertion order
    fleetByRuntime: map<nat, nat>,
    content: seq<Block>,                   // of the current assistant message
    images: seq<string>,
    errors: seq<string>,
    tools: seq<ToolPart>)

  // resetRun
  const NEW_RUN := Mapper(0, None, "", map[], {}, 0, [], map[], [], [], [], [])

  function Max(a: nat, b: nat): nat {
    if a < b then b else a
  }

  function TextOf(m: Mapper, index: nat): string {
    if index in m.reasoningText then m.reasoningText[index] else ""
  }

  function WithMessage(m: Mapper): Mapper {
    if m.messageId.Some? then m else m.(messageId := Some(m.messageSeq), messageSeq := m.messageSeq + 1)
  }

  // ----- reasoning episodes

  predicate IsActive(active: seq<Active>, runtime: nat) {
    exists i :: 0 <= i < |active| && active[i].runtime == runtime
  }

  function FleetOf(active: seq<Active>, runtime: nat): (r: nat)
    requires IsActive(active, runtime)
    ensures Active(runtime, r) in active
  {
    if active[0].runtime == runtime then active[0].fleet
    else
      assert forall i :: 1 <= i < |active| ==> active[1..][i - 1] == active[i];
      FleetOf(active[1..], runtime)
  }

  function Without(active: seq<Active>, runtime: nat): (r: seq<Active>)
    ensures forall a :: a in r <==> a in active && a.runtime != runtime
  {
    if active == [] then []
    else (if active[0].runtime == runtime then [] else [active[0]]) + Without(active[1..], runtime)
  }

  function AtLeast(claimed: set<nat>, from: nat): set<nat> {
    set c | c in claimed && c >= from
  }

  lemma {:induction false} AtLeastShrinks(claimed: set<nat>, from: nat)
    requires from in claimed
    ensures AtLeast(claimed, from + 1) < AtLeast(claimed, from)
  {
    assert from in AtLeast(claimed, from) && from !in AtLeast(claimed, from + 1);
    assert AtLeast(claimed, from + 1) <= AtLeast(claimed, from);
  }

  // The first index from `from` on that no episode of the run has used.
  function FirstUnclaimed(claimed: set<nat>, from: nat): (r: nat)
    ensures r >= from && r !in claimed
    ensures forall k :: from <= k < r ==> k in claimed
    decreases AtLeast(claimed, from)
  {
    if from in claimed then
      AtLeastShrinks(claimed, from);
      FirstUnclaimed(claimed, from + 1)
    else from
  }

  // The runtime's own index when it is free, else one past everything used.
  function FleetIndex(m: Mapper, runtime: nat): nat {
    if runtime in m.claimed then FirstUnclaimed(m.claimed, Max(m.episodeSeq, runtime + 1)) else runtime
  }

  function Claim(m: Mapper, runtime: nat): Mapper {
    var fleet := FleetIndex(m, runtime);
    m.(claimed := m.claimed + {fleet}, episodeSeq := Max(m.episodeSeq, fleet + 1),
       fleetByRuntime := m.fleetByRuntime[runtime := fleet])
  }

  function Begin(m: Mapper, runtime: nat): Mapper {
    Claim(m, runtime).(active := Without(m.active, runtime) + [Active(runtime, FleetIndex(m, runtime))])
  }

  function EndFrames(m: Mapper, active: seq<Active>): seq<Frame> {
    if active == [] then []
    else EndFrames(m, active[..|active| - 1])
         + [ReasoningText(End, active[|active| - 1].fleet, TextOf(m, active[|active| - 1].fleet), m.messageId)]
  }

  // Close every open episode.
  function CloseAll(m: Mapper): (Mapper, seq<Frame>) {
    if m.active == [] then (m, [])
    else
      var m1 := WithMessage(m);
      (m1.(active := []), EndFrames(m1, m1.active))
  }

  // The index of an event without one falls back to the episode opened last.
  function RuntimeIndex(m: Mapper, index: Option<nat>): nat {
    if index.Some? then index.value else if m.active != [] then m.active[|m.active| - 1].runtime else 0
  }

  datatype StreamEvent =
    | MessageStart
    | TextStart
    | TextArrives(delta: string)
    | ToolcallStart
    | ThinkingStart(index: Option<nat>)
    | ThinkingDelta(index: Option<nat>, delta: string)
    | ThinkingEnd(index: Option<nat>, finalText: Option<string>)
    | MessageDone(content: seq<Block>, errors: seq<string>)
    | Ignored

  function OnThinkingStart(m: Mapper, index: Option<nat>): (Mapper, seq<Frame>) {
    var runtime := RuntimeIndex(m, index);
    var m1 := WithMessage(m);
    var closed :=
      if IsActive(m1.active, runtime) then
        [ReasoningText(End, FleetOf(m1.active, runtime), TextOf(m1, FleetOf(m1.active, runtime)), m1.messageId)]
      else [];
    var m2 := m1.(active := Without(m1.active, runtime));
    var fleet := FleetIndex(m2, runtime);
    (Begin(m2, runtime).(reasoningText := m2.reasoningText[fleet := ""]),
     closed + [ReasoningText(Start, fleet, "", m1.messageId)])
  }

  function OnThinkingDelta(m: Mapper, index: Option<nat>, delta: string): (Mapper, seq<Frame>) {
    var runtime := RuntimeIndex(m, index);
    var hadActive := IsActive(m.active, runtime);
    var fleet := if hadActive then FleetOf(m.active, runtime) else FleetIndex(m, runtime);
    var m1 := WithMessage(if hadActive then m else Begin(m, runtime));
    (m1.(reasoningText := m1.reasoningText[fleet := TextOf(m1, fleet) + delta]),
     (if hadActive then [] else [ReasoningText(Start, fleet, "", m1.messageId)])
     + [ReasoningText(Delta, fleet, delta, m1.messageId)])
  }

  function OnThinkingEnd(m: Mapper, index: Option<nat>, finalText: Option<string>): (Mapper, seq<Frame>) {
    var runtime := RuntimeIndex(m, index);
    var hadActive := IsActive(m.active, runtime);
    var fleet := if hadActive then FleetOf(m.active, runtime) else FleetIndex(m, runtime);
    var m1 := if hadActive then m else Begin(m, runtime);
    var m2 := if finalText.Some? then m1.(reasoningText := m1.reasoningText[fleet := finalText.value]) else m1;
    (m2.(active := Without(m2.active, runtime)), [ReasoningText(End, fleet, TextOf(m2, fleet), m2.messageId)])
  }

  function OnStreamEvent(m: Mapper, event: StreamEvent): (Mapper, seq<Frame>) {
    match event
    case MessageStart => (WithMessage(m).(reasoningText := map[], active := [], fleetByRuntime := map[]), [])
    case TextStart => CloseAll(m)
    case ToolcallStart => CloseAll(m)
    case TextArrives(delta) =>
      var closed := CloseAll(m);
      var m1 := WithMessage(closed.0);
      (m1.(text := m1.text + delta), closed.1 + [TextDelta(delta, m1.messageId)])
    case ThinkingStart(index) => OnThinkingStart(m, index)
    case ThinkingDelta(index, delta) => OnThinkingDelta(m, index, delta)
    case ThinkingEnd(index, finalText) => OnThinkingEnd(m, index, finalText)
    case MessageDone(content, errors) => (Remember(m, content, errors), [])
    case Ignored => (m, [])
  }

  // ----- tool parts and text

  function FindTool(tools: seq<ToolPart>, id: string): (i: int)
    ensures -1 <= i < |tools|
    ensures i >= 0 ==> tools[i].toolCallId == id && forall j :: 0 <= j < i ==> tools[j].toolCallId != id
    ensures i < 0 ==> forall j :: 0 <= j < |tools| ==> tools[j].toolCallId != id
  {
    if tools == [] then -1
    else if tools[0].toolCallId == id then 0
    else
      var i := FindTool(tools[1..], id);
      if i < 0 then -1 else i + 1
  }

  // The later part wins, except that the first known input stays.
  function Merge(existing: ToolPart, next: ToolPart): ToolPart {
    ToolPart(next.toolCallId, if existing.input.Some? then existing.input else next.input, next.state,
             if next.result.Some? then next.result else existing.result)
  }

  function Upsert(tools: seq<ToolPart>, next: ToolPart): seq<ToolPart> {
    var i := FindTool(tools, next.toolCallId);
    if next.toolCallId == "" || i < 0 then tools + [next]
    else tools[i := Merge(tools[i], next)]
  }

  predicate EndsWith(s: string, suffix: string) {
    |suffix| <= |s| && s[|s| - |suffix|..] == suffix
  }

  function AppendFinalText(text: string, finalText: string): string {
    if finalText == "" || EndsWith(text, finalText) then text
    else if text <= finalText then finalText
    else text + finalText
  }

  function TextOfContent(content: seq<Block>): string {
    if content == [] then ""
    else TextOfContent(content[..|content| - 1])
         + (if content[|content| - 1].TextBlock? then content[|content| - 1].text else "")
  }

  function ImagesOf(content: seq<Block>): seq<string> {
    if content == [] then []
    else ImagesOf(content[..|content| - 1])
         + (if content[|content| - 1].ImageBlock? then [content[|content| - 1].image] else [])
  }

  // A call block carries no result; a failure that was already recorded stays.
  function CallPart(tools: seq<ToolPart>, block: Block): ToolPart
    requires block.ToolCallBlock?
  {
    var i := FindTool(tools, block.id);
    ToolPart(block.id, block.arguments,
             if i >= 0 && tools[i].state == OutputError then OutputError else OutputAvailable, None)
  }

  function UpsertCalls(tools: seq<ToolPart>, content: seq<Block>): seq<ToolPart> {
    if content == [] then tools
    else
      var before := UpsertCalls(tools, content[..|content| - 1]);
      var block := content[|content| - 1];
      if block.ToolCallBlock? && block.id != "" && block.name != ""
      then Upsert(before, CallPart(before, block))
      else before
  }

  function Remember(m: Mapper, content: seq<Block>, errors: seq<string>): Mapper {
    WithMessage(m).(content := content, text := AppendFinalText(m.text, TextOfContent(content)),
                    tools := UpsertCalls(m.tools, content), images := ImagesOf(content), errors := errors)
  }

  // A message begins: it becomes the current one, nothing of it is remembered yet.
  function Started(m: Mapper, content: seq<Block>): Mapper {
    WithMessage(m).(content := content)
  }

  // An update replaces the current message before its stream event is mapped.
  function OnMessageUpdate(m: Mapper, content: seq<Block>, event: StreamEvent): (Mapper, seq<Frame>) {
    OnStreamEvent(m.(content := content), event)
  }

  function OnToolStart(m: Mapper, part: ToolPart): (Mapper, seq<Frame>) {
    var (closed, frames) := CloseAll(m);
    (closed.(tools := Upsert(m.tools, part)), frames)
  }

  // ----- the mapper object

  class State {
    var messageSeq: nat
    var messageId: Option<nat>
    var text: string
    var reasoningText: map<nat, string>
    var claimed: set<nat>
    var episodeSeq: nat
    var active: seq<Active>
    var fleetByRuntime: map<nat, nat>
    var content: seq<Block>
    var images: seq<string>
    var errors: seq<string>
    var tools: seq<ToolPart>

    ghost function Value(): Mapper
      reads this
    {
      Mapper(messageSeq, messageId, text, reasoningText, claimed, episodeSeq, active, fleetByRuntime,
             content, images, errors, tools)
    }

    constructor ()
      ensures Value() == NEW_RUN
    {
      messageSeq, messageId, text, reasoningText, claimed, episodeSeq := 0, None, "", map[], {}, 0;
      active, fleetByRuntime, content, images, errors, tools := [], map[], [], [], [], [];
    }

    method ResetRun()
      modifies this
      ensures Value() == NEW_RUN
    {
      messageSeq, messageId, text, reasoningText, claimed, episodeSeq := 0, None, "", map[], {}, 0;
      active, fleetByRuntime, content, images, errors, tools := [], map[], [], [], [], [];
    }

    method EnsureMessage()
      modifies this`messageSeq, this`messageId
      ensures Value() == WithMessage(old(Value()))
    {
      if messageId.None? {
        messageId := Some(messageSeq);
        messageSeq := messageSeq + 1;
      }
    }

    // Take the runtime's index, or the first free one past everything used.
    method ClaimIndex(runtime: nat) returns (fleet: nat)
      modifies this`claimed, this`episodeSeq, this`fleetByRuntime
      ensures fleet == FleetIndex(old(Value()), runtime) && Value() == Claim(old(Value()), runtime)
    {
      fleet := runtime;
      if fleet in claimed {
        fleet := Max(episodeSeq, runtime + 1);
        ghost var from := fleet;
        while fleet in claimed
          invariant Value() == old(Value())
          invariant from <= fleet && forall k :: from <= k < fleet ==> k in claimed
          decreases AtLeast(claimed, fleet)
        {
          AtLeastShrinks(claimed, fleet);
          fleet := fleet + 1;
        }
        assert fleet == FirstUnclaimed(claimed, from);
      }
      claimed := claimed + {fleet};
      episodeSeq := Max(episodeSeq, fleet + 1);
      fleetByRuntime := fleetByRuntime[runtime := fleet];
    }

    method BeginReasoningEpisode(runtime: nat) returns (fleet: nat)
      modifies this`claimed, this`episodeSeq, this`fleetByRuntime, this`active
      ensures fleet == FleetIndex(old(Value()), runtime) && Value() == Begin(old(Value()), runtime)
    {
      fleet := ClaimIndex(runtime);
      active := Without(active, runtime) + [Active(runtime, fleet)];
    }

    method CloseActiveReasoningEpisodes() returns (frames: seq<Frame>)
      modifies this`messageSeq, this`messageId, this`active
      ensures (Value(), frames) == CloseAll(old(Value()))
    {
      frames := [];
      if active == [] { return; }
      EnsureMessage();
      ghost var m := Value();
      ghost var done: seq<Active> := [];
      var open := active;
      for i := 0 to |open|
        invariant done == open[..i] && frames == EndFrames(m, done)
        invariant Value() == m
      {
        var index := open[i].fleet;
        var ended := if index in reasoningText then reasoningText[index] else "";
        frames := frames + [ReasoningText(End, index, ended, messageId)];
        assert (done + [open[i]])[..i] == done;
        done := done + [open[i]];
      }
      assert done == open;
      active := [];
    }

    method MapThinkingStart(index: Option<nat>) returns (frames: seq<Frame>)
      modifies this
      ensures (Value(), frames) == OnThinkingStart(old(Value()), index)
    {
      var runtime := if index.Some? then index.value else if active != [] then active[|active| - 1].runtime else 0;
      EnsureMessage();
      frames := [];
      if IsActive(active, runtime) {
        var previous := FleetOf(active, runtime);
        var ended := if previous in reasoningText then reasoningText[previous] else "";
        frames := [ReasoningText(End, previous, ended, messageId)];
        active := Without(active, runtime);
      } else {
        WithoutIdle(active, runtime);
      }
      var fleet := BeginReasoningEpisode(runtime);
      reasoningText := reasoningText[fleet := ""];
      frames := frames + [ReasoningText(Start, fleet, "", messageId)];
    }

    method MapThinkingDelta(index: Option<nat>, delta: string) returns (frames: seq<Frame>)
      modifies this
      ensures (Value(), frames) == OnThinkingDelta(old(Value()), index, delta)
    {
      var runtime := if index.Some? then index.value else if active != [] then active[|active| - 1].runtime else 0;
      var hadActive := IsActive(active, runtime);
      var fleet;
      if hadActive {
        fleet := FleetOf(active, runtime);
      } else {
        fleet := BeginReasoningEpisode(runtime);
      }
      EnsureMessage();
      reasoningText := reasoningText[fleet := (if fleet in reasoningText then reasoningText[fleet] else "") + delta];
      frames := if hadActive then [] else [ReasoningText(Start, fleet, "", messageId)];
      frames := frames + [ReasoningText(Delta, fleet, delta, messageId)];
    }

    method MapThinkingEnd(index: Option<nat>, finalText: Option<string>) returns (frames: seq<Frame>)
      modifies this
      ensures (Value(), frames) == OnThinkingEnd(old(Value()), index, finalText)
    {
      var runtime := if index.Some? then index.value else if active != [] then active[|active| - 1].runtime else 0;
      var fleet;
      if IsActive(active, runtime) {
        fleet := FleetOf(active, runtime);
      } else {
        fleet := BeginReasoningEpisode(runtime);
      }
      if finalText.Some? {
        reasoningText := reasoningText[fleet := finalText.value];
      }
      active := Without(active, runtime);
      frames := [ReasoningText(End, fleet, if fleet in reasoningText then reasoningText[fleet] else "", messageId)];
    }

    method MapAssistantStreamEvent(event: StreamEvent) returns (frames: seq<Frame>)
      modifies this
      ensures (Value(), frames) == OnStreamEvent(old(Value()), event)
    {
      frames := [];
      match event
      case MessageStart =>
        EnsureMessage();
        reasoningText, active, fleetByRuntime := map[], [], map[];
      case TextStart =>
        frames := CloseActiveReasoningEpisodes();
      case ToolcallStart =>
        frames := CloseActiveReasoningEpisodes();
      case TextArrives(delta) =>
        frames := CloseActiveReasoningEpisodes();
        EnsureMessage();
        text := text + delta;
        frames := frames + [TextDelta(delta, messageId)];
      case ThinkingStart(index) =>
        frames := MapThinkingStart(index);
      case ThinkingDelta(index, delta) =>
        frames := MapThinkingDelta(index, delta);
      case ThinkingEnd(index, finalText) =>
        frames := MapThinkingEnd(index, finalText);
      case MessageDone(message, messageErrors) =>
        RememberAssistantMessage(message, messageErrors);
      case Ignored =>
    }

    method MapMessageStart(message: seq<Block>)
      modifies this`content, this`messageSeq, this`messageId
      ensures Value() == Started(old(Value()), message)
    {
      content := message;
      EnsureMessage();
    }

    method MapMessageUpdate(message: seq<Block>, event: StreamEvent) returns (frames: seq<Frame>)
      modifies this
      ensures (Value(), frames) == OnMessageUpdate(old(Value()), message, event)
    {
      content := message;
      frames := MapAssistantStreamEvent(event);
    }

    method MapToolExecutionStart(part: ToolPart) returns (frames: seq<Frame>)
      modifies this
      ensures (Value(), frames) == OnToolStart(old(Value()), part)
    {
      frames := CloseActiveReasoningEpisodes();
      var shown := UpsertCurrentToolPart(part);
    }

    method UpsertCurrentToolPart(next: ToolPart) returns (part: ToolPart)
      modifies this`tools
      ensures tools == Upsert(old(tools), next) && part in tools
      ensures part.toolCallId == next.toolCallId && part.state == next.state
      ensures next.result.Some? ==> part.result == next.result
    {
      var existing := FindTool(tools, next.toolCallId);
      if next.toolCallId == "" || existing < 0 {
        tools := tools + [next];
        return next;
      }
      part := ToolPart(next.toolCallId,
                       if tools[existing].input.Some? then tools[existing].input else next.input,
                       next.state, if next.result.Some? then next.result else tools[existing].result);
      tools := tools[existing := part];
      assert tools[existing] == part;
    }

    method UpsertCallsOf(message: seq<Block>)
      modifies this`tools
      ensures tools == UpsertCalls(old(tools), message)
    {
      ghost var done: seq<Block> := [];
      for i := 0 to |message|
        invariant done == message[..i] && tools == UpsertCalls(old(tools), done)
      {
        var block := message[i];
        assert (done + [block])[..i] == done;
        done := done + [block];
        if block.ToolCallBlock? && block.id != "" && block.name != "" {
          var settled := FindTool(tools, block.id);
          var state := if settled >= 0 && tools[settled].state == OutputError then OutputError else OutputAvailable;
          var part := UpsertCurrentToolPart(ToolPart(block.id, block.arguments, state, None));
        }
      }
      assert done == message;
    }

    method RememberAssistantMessage(message: seq<Block>, messageErrors: seq<string>)
      modifies this
      ensures Value() == Remember(old(Value()), message, messageErrors)
    {
      content := message;
      EnsureMessage();
      var finalText := TextOfContent(message);
      if !(finalText == "" || EndsWith(text, finalText)) {
        text := if text <= finalText then finalText else text + finalText;
      }
      UpsertCallsOf(message);
      images := ImagesOf(message);
      errors := messageErrors;
    }
  }

  lemma {:induction false} WithoutIdle(active: seq<Active>, runtime: nat)
    requires !IsActive(active, runtime)
    ensures Without(active, runtime) == active
  {
    if active != [] {
      assert active[0].runtime != runtime;
      assert !IsActive(active[1..], runtime) by {
        assert forall i :: 0 <= i < |active[1..]| ==> active[1..][i] == active[i + 1];
      }
      WithoutIdle(active[1..], runtime);
    }
  }
}
