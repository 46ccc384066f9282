/**
 What the browser has been told about each index of reasoning, and that the mapper keeps exactly that
 for the current message: the stream event `start` drops what earlier messages of the run streamed.
 */
module MessageScope {
  import opened Wrappers
  import opened EventMapper
  import opened ReasoningEpisodes

  // ----- what the browser has been told

  // The text the frames leave an index with: the deltas since its start, or what its end said.
  function Said(frames: seq<Frame>, index: nat): Option<string> {
    if frames == [] then None
    else SaidNext(Said(frames[..|frames| - 1], index), frames[|frames| - 1], index)
  }

  function SaidNext(before: Option<string>, frame: Frame, index: nat): Option<string> {
    if !frame.ReasoningText? || frame.contentIndex != index then before
    else
      match frame.phase
      case Start => Some("")
      case Delta => Some(before.GetOr("") + frame.text)
      case End => Some(frame.text)
  }

  predicate Streams(frame: Frame, index: nat) {
    frame.ReasoningText? && frame.contentIndex == index && frame.phase != End
  }

  // The index has a start or a delta.
  predicate Streamed(frames: seq<Frame>, index: nat) {
    exists i :: 0 <= i < |frames| && Streams(frames[i], index)
  }

  lemma {:induction false} SaidSnoc(frames: seq<Frame>, frame: Frame, index: nat)
    ensures Said(frames + [frame], index) == SaidNext(Said(frames, index), frame, index)
    ensures Streamed(frames + [frame], index) <==> Streamed(frames, index) || Streams(frame, index)
  {
    var all := frames + [frame];
    assert all[..|frames|] == frames && all[|frames|] == frame;
    hide SaidNext, Streams;
    assert forall i :: 0 <= i < |frames| ==> all[i] == frames[i];
  }

  // An index without frames has been told nothing.
  lemma {:induction false} Untold(frames: seq<Frame>, index: nat)
    requires PhasesOf(frames, index) == []
    ensures Said(frames, index) == None && !Streamed(frames, index)
  {
    if frames != [] {
      var front := frames[..|frames| - 1];
      Untold(front, index);
      SaidSnoc(front, frames[|frames| - 1], index);
      assert front + [frames[|frames| - 1]] == frames;
    }
  }

  // ----- what belongs to the current message

  predicate IsStart(event: RunEvent) {
    event.MessageUpdated? && event.event.MessageStart?
  }

  // The indexes claimed before the newest start of a message.
  function ClaimedBefore(events: seq<RunEvent>): set<nat> {
    if events == [] then {}
    else
      var front := events[..|events| - 1];
      if IsStart(events[|events| - 1]) then RunOf(front).0.claimed else ClaimedBefore(front)
  }

  // The texts kept are of this message and are what was said; every streamed index of this message
  // has one.
  ghost predicate Texts(texts: map<nat, string>, frames: seq<Frame>, before: set<nat>) {
    && (forall k :: k in texts ==> k !in before && Said(frames, k) == Some(texts[k]))
    && (forall k: nat :: Streamed(frames, k) && k !in before ==> k in texts)
  }

  // Open episodes and routed blocks are of this message too.
  ghost predicate Scope(m: Mapper, before: set<nat>) {
    && before <= m.claimed
    && (forall a :: a in m.active ==> a.fleet !in before && a.fleet in m.reasoningText)
    && (forall r :: r in m.fleetByRuntime ==> m.fleetByRuntime[r] !in before)
  }

  ghost predicate Scoped(m: Mapper, frames: seq<Frame>, before: set<nat>) {
    Texts(m.reasoningText, frames, before) && Scope(m, before)
  }

  // ----- one frame at a time

  // The frame's text is the one kept.
  lemma {:induction false} TextSaid(texts: map<nat, string>, frames: seq<Frame>, frame: Frame, before: set<nat>)
    requires Texts(texts, frames, before) && frame.ReasoningText? && frame.contentIndex !in before
    ensures var k := frame.contentIndex; var said := SaidNext(Said(frames, k), frame, k);
            said.Some? && Texts(texts[k := said.value], frames + [frame], before)
  {
    forall k: nat
      ensures Said(frames + [frame], k) == SaidNext(Said(frames, k), frame, k)
      ensures Streamed(frames + [frame], k) <==> Streamed(frames, k) || Streams(frame, k)
    {
      SaidSnoc(frames, frame, k);
    }
    hide Said, Streamed;
  }

  // An end for an index that streamed nothing and keeps no text.
  lemma {:induction false} LoneEndSaid(texts: map<nat, string>, frames: seq<Frame>, frame: Frame, before: set<nat>)
    requires Texts(texts, frames, before) && frame.ReasoningText? && frame.phase == End && frame.contentIndex !in texts
    ensures Texts(texts, frames + [frame], before)
  {
    forall k: nat
      ensures Said(frames + [frame], k) == SaidNext(Said(frames, k), frame, k)
      ensures Streamed(frames + [frame], k) <==> Streamed(frames, k) || Streams(frame, k)
    {
      SaidSnoc(frames, frame, k);
    }
    hide Said, Streamed;
  }

  lemma {:induction false} OtherSaid(texts: map<nat, string>, frames: seq<Frame>, frame: Frame, before: set<nat>)
    requires Texts(texts, frames, before) && frame.TextDelta?
    ensures Texts(texts, frames + [frame], before)
  {
    forall k: nat
      ensures Said(frames + [frame], k) == Said(frames, k)
      ensures Streamed(frames + [frame], k) <==> Streamed(frames, k)
    {
      SaidSnoc(frames, frame, k);
    }
    hide Said, Streamed;
  }

  // ----- the events

  // Ending an open episode repeats the text that is kept.
  lemma {:induction false} EndOpenSaid(m: Mapper, frames: seq<Frame>, fleet: nat, id: Option<nat>, before: set<nat>)
    requires Texts(m.reasoningText, frames, before) && fleet in m.reasoningText
    ensures Texts(m.reasoningText, frames + [ReasoningText(End, fleet, TextOf(m, fleet), id)], before)
  {
    TextSaid(m.reasoningText, frames, ReasoningText(End, fleet, TextOf(m, fleet), id), before);
    assert m.reasoningText[fleet := TextOf(m, fleet)] == m.reasoningText;
  }

  lemma {:induction false} EndFramesSaid(m: Mapper, frames: seq<Frame>, active: seq<Active>, before: set<nat>)
    requires Texts(m.reasoningText, frames, before) && forall a :: a in active ==> a.fleet in m.reasoningText
    ensures Texts(m.reasoningText, frames + EndFrames(m, active), before)
  {
    if active == [] {
      assert frames + [] == frames;
    } else {
      hide Texts;
      var front, last := active[..|active| - 1], active[|active| - 1];
      EndFramesSaid(m, frames, front, before);
      EndOpenSaid(m, frames + EndFrames(m, front), last.fleet, m.messageId, before);
      var end := ReasoningText(End, last.fleet, TextOf(m, last.fleet), m.messageId);
      assert frames + EndFrames(m, front) + [end] == frames + (EndFrames(m, front) + [end]);
    }
  }

  lemma {:induction false} CloseAllScoped(m: Mapper, frames: seq<Frame>, before: set<nat>)
    requires Scoped(m, frames, before)
    ensures Scoped(CloseAll(m).0, frames + CloseAll(m).1, before)
  {
    if m.active == [] {
      assert frames + [] == frames;
    } else {
      EndFramesSaid(WithMessage(m), frames, m.active, before);
      hide Texts;
    }
  }

  lemma {:induction false} BeginScope(m: Mapper, runtime: nat, before: set<nat>)
    requires Scope(m, before) && Indexes(m)
    ensures FleetIndex(m, runtime) !in m.claimed && FleetIndex(m, runtime) !in before
    ensures Scope(Begin(m, runtime).(reasoningText := m.reasoningText[FleetIndex(m, runtime) := ""]), before)
  {
    SearchIsIdle(m, runtime);
    hide FleetIndex;
  }

  // A fresh index has been told nothing.
  lemma {:induction false} FreshIsUntold(m: Mapper, frames: seq<Frame>, index: nat)
    requires Sound(m, frames) && index !in m.claimed
    ensures Said(frames, index) == None && !Streamed(frames, index) && index !in m.reasoningText
  {
    assert Faithful(m, frames, index);
    Untold(frames, index);
  }

  // Starting a fresh index keeps an empty text for it.
  lemma {:induction false} StartScoped(m: Mapper, frames: seq<Frame>, runtime: nat, id: Option<nat>, before: set<nat>)
    requires Scoped(m, frames, before) && Indexes(m)
    ensures var fleet := FleetIndex(m, runtime);
            Scoped(Begin(m, runtime).(reasoningText := m.reasoningText[fleet := ""]),
                   frames + [ReasoningText(Start, fleet, "", id)], before)
  {
    BeginScope(m, runtime, before);
    TextSaid(m.reasoningText, frames, ReasoningText(Start, FleetIndex(m, runtime), "", id), before);
    hide Texts, Scope, FleetIndex;
  }

  // A repeated start ends the episode before.
  lemma {:induction false} PreviousScoped(m: Mapper, frames: seq<Frame>, runtime: nat, before: set<nat>)
    requires Scoped(m, frames, before) && IsActive(m.active, runtime)
    ensures var fleet := FleetOf(m.active, runtime);
            Scoped(m.(active := Without(m.active, runtime)),
                   frames + [ReasoningText(End, fleet, TextOf(m, fleet), m.messageId)], before)
  {
    EndOpenSaid(m, frames, FleetOf(m.active, runtime), m.messageId, before);
    hide Texts;
  }

  lemma {:induction false} BegunScoped(m: Mapper, frames: seq<Frame>, runtime: nat, before: set<nat>)
    requires Indexes(m) && Scoped(m, frames, before)
    ensures var m2 := m.(active := Without(m.active, runtime));
            var fleet := FleetIndex(m2, runtime);
            Scoped(Begin(m2, runtime).(reasoningText := m.reasoningText[fleet := ""]),
                   frames + Replaced(m, runtime) + [ReasoningText(Start, fleet, "", m.messageId)], before)
  {
    WithoutKeepsIndexes(m, runtime);
    var m2 := m.(active := Without(m.active, runtime));
    if IsActive(m.active, runtime) {
      PreviousScoped(m, frames, runtime, before);
    } else {
      WithoutIdle(m.active, runtime);
      assert m2 == m && frames + [] == frames;
    }
    hide Scoped, FleetIndex, Begin, Indexes;
    StartScoped(m2, frames + Replaced(m, runtime), runtime, m.messageId, before);
  }

  // The end of the open episode of a runtime index, if there is one.
  function Replaced(m: Mapper, runtime: nat): seq<Frame> {
    if IsActive(m.active, runtime) then
      [ReasoningText(End, FleetOf(m.active, runtime), TextOf(m, FleetOf(m.active, runtime)), m.messageId)]
    else []
  }

  lemma {:induction false} ThinkingStartScoped(m: Mapper, frames: seq<Frame>, index: Option<nat>, before: set<nat>)
    requires Sound(m, frames) && Scoped(m, frames, before)
    ensures Scoped(OnThinkingStart(m, index).0, frames + OnThinkingStart(m, index).1, before)
  {
    var runtime, m1 := RuntimeIndex(m, index), WithMessage(m);
    assert Scoped(m1, frames, before) && Indexes(m1);
    hide Scoped, FleetIndex, Begin, Indexes, Sound;
    BegunScoped(m1, frames, runtime, before);
    var m2 := m1.(active := Without(m1.active, runtime));
    var start := ReasoningText(Start, FleetIndex(m2, runtime), "", m1.messageId);
    assert frames + Replaced(m1, runtime) + [start] == frames + (Replaced(m1, runtime) + [start]);
  }

  lemma {:induction false} WithoutKeepsIndexes(m: Mapper, runtime: nat)
    requires Indexes(m)
    ensures Indexes(m.(active := Without(m.active, runtime)))
  {
    if IsActive(m.active, runtime) {
      var i := ActivePlace(m, runtime);
      RestDistinct(m.active, i);
    } else {
      WithoutIdle(m.active, runtime);
    }
  }

  // A delta of an open episode extends its text.
  lemma {:induction false} DeltaScoped(m: Mapper, frames: seq<Frame>, fleet: nat, delta: string, id: Option<nat>,
                                       before: set<nat>)
    requires Scoped(m, frames, before) && fleet in m.reasoningText
    ensures Scoped(m.(reasoningText := m.reasoningText[fleet := TextOf(m, fleet) + delta]),
                   frames + [ReasoningText(Delta, fleet, delta, id)], before)
  {
    TextSaid(m.reasoningText, frames, ReasoningText(Delta, fleet, delta, id), before);
    hide Said, Streamed;
  }

  // A delta without an open episode begins one.
  lemma {:induction false} FirstDeltaScoped(m: Mapper, frames: seq<Frame>, runtime: nat, delta: string, id: Option<nat>,
                                            before: set<nat>)
    requires Indexes(m) && Scoped(m, frames, before)
    ensures var fleet := FleetIndex(m, runtime);
            Scoped(Begin(m, runtime).(reasoningText := m.reasoningText[fleet := delta]),
                   frames + [ReasoningText(Start, fleet, "", id)] + [ReasoningText(Delta, fleet, delta, id)], before)
  {
    var fleet := FleetIndex(m, runtime);
    var started := Begin(m, runtime).(reasoningText := m.reasoningText[fleet := ""]);
    StartScoped(m, frames, runtime, id, before);
    assert "" + delta == delta;
    assert started.reasoningText[fleet := delta] == m.reasoningText[fleet := delta];
    hide Scoped, FleetIndex, Begin, Indexes;
    DeltaScoped(started, frames + [ReasoningText(Start, fleet, "", id)], fleet, delta, id, before);
  }

  lemma {:induction false} FirstDeltaIs(m: Mapper, index: Option<nat>, delta: string)
    requires Indexes(m) && !IsActive(m.active, RuntimeIndex(m, index))
    ensures var runtime, m1 := RuntimeIndex(m, index), WithMessage(m);
            var fleet := FleetIndex(m1, runtime);
            OnThinkingDelta(m, index, delta)
            == (Begin(m1, runtime).(reasoningText := m1.reasoningText[fleet := delta]),
                [ReasoningText(Start, fleet, "", m1.messageId)] + [ReasoningText(Delta, fleet, delta, m1.messageId)])
  {
    SearchIsIdle(m, RuntimeIndex(m, index));
    assert "" + delta == delta;
    hide FleetIndex, Without;
  }

  lemma {:induction false} OpenDeltaIs(m: Mapper, index: Option<nat>, delta: string)
    requires IsActive(m.active, RuntimeIndex(m, index))
    ensures var m1, fleet := WithMessage(m), FleetOf(m.active, RuntimeIndex(m, index));
            OnThinkingDelta(m, index, delta)
            == (m1.(reasoningText := m1.reasoningText[fleet := TextOf(m1, fleet) + delta]),
                [ReasoningText(Delta, fleet, delta, m1.messageId)])
  {
    var m1, fleet := WithMessage(m), FleetOf(m.active, RuntimeIndex(m, index));
    var frame := ReasoningText(Delta, fleet, delta, m1.messageId);
    assert [] + [frame] == [frame];
    hide FleetOf;
  }

  lemma {:induction false} ThinkingDeltaScoped(m: Mapper, frames: seq<Frame>, index: Option<nat>, delta: string,
                                               before: set<nat>)
    requires Sound(m, frames) && Scoped(m, frames, before)
    ensures Scoped(OnThinkingDelta(m, index, delta).0, frames + OnThinkingDelta(m, index, delta).1, before)
  {
    var runtime, m1 := RuntimeIndex(m, index), WithMessage(m);
    assert Scoped(m1, frames, before) && Indexes(m1) && Indexes(m);
    if IsActive(m.active, runtime) {
      var fleet := FleetOf(m.active, runtime);
      assert fleet in m.reasoningText;
      hide Scoped, Sound, OnThinkingDelta, FleetOf, TextOf;
      OpenDeltaIs(m, index, delta);
      DeltaScoped(m1, frames, fleet, delta, m1.messageId, before);
    } else {
      hide Scoped, Sound, OnThinkingDelta, FleetIndex, Begin, Indexes;
      FirstDeltaIs(m, index, delta);
      FirstDeltaScoped(m1, frames, runtime, delta, m1.messageId, before);
      var fleet := FleetIndex(m1, runtime);
      var start := ReasoningText(Start, fleet, "", m1.messageId);
      var frame := ReasoningText(Delta, fleet, delta, m1.messageId);
      assert frames + [start] + [frame] == frames + ([start] + [frame]);
    }
  }

  // The end of an open episode keeps the text it says.
  lemma {:induction false} EndScoped(m: Mapper, after: Mapper, frames: seq<Frame>, end: Frame, before: set<nat>)
    requires Scoped(m, frames, before) && end.ReasoningText? && end.phase == End && end.contentIndex !in before
    requires after == m.(active := after.active, reasoningText := m.reasoningText[end.contentIndex := end.text])
    requires forall a :: a in after.active ==> a in m.active
    ensures Scoped(after, frames + [end], before)
  {
    TextSaid(m.reasoningText, frames, end, before);
    hide Texts;
  }

  function EndedText(m: Mapper, fleet: nat, finalText: Option<string>): map<nat, string> {
    if finalText.Some? then m.reasoningText[fleet := finalText.value] else m.reasoningText
  }

  lemma {:induction false} LoneEndTexts(m: Mapper, frames: seq<Frame>, fleet: nat, finalText: Option<string>,
                                        id: Option<nat>, before: set<nat>)
    requires Sound(m, frames) && Scoped(m, frames, before) && fleet !in m.claimed
    ensures Texts(EndedText(m, fleet, finalText), frames + [ReasoningText(End, fleet, finalText.GetOr(""), id)], before)
  {
    var end := ReasoningText(End, fleet, finalText.GetOr(""), id);
    FreshIsUntold(m, frames, fleet);
    if finalText.Some? {
      TextSaid(m.reasoningText, frames, end, before);
    } else {
      LoneEndSaid(m.reasoningText, frames, end, before);
    }
    hide Texts, Sound;
  }

  lemma {:induction false} LoneEndScope(m: Mapper, runtime: nat, finalText: Option<string>, before: set<nat>)
    requires Indexes(m) && Scope(m, before)
    ensures var begun, fleet := Begin(m, runtime), FleetIndex(m, runtime);
            Scope(begun.(reasoningText := EndedText(m, fleet, finalText), active := Without(begun.active, runtime)),
                  before)
  {
    SearchIsIdle(m, runtime);
    hide FleetIndex;
  }

  // An episode that ends without having begun takes an index of its own.
  lemma {:induction false} LoneEndScoped(m: Mapper, frames: seq<Frame>, runtime: nat, finalText: Option<string>,
                                         id: Option<nat>, before: set<nat>)
    requires Sound(m, frames) && Scoped(m, frames, before)
    ensures var begun, fleet := Begin(m, runtime), FleetIndex(m, runtime);
            Scoped(begun.(reasoningText := EndedText(m, fleet, finalText), active := Without(begun.active, runtime)),
                   frames + [ReasoningText(End, fleet, finalText.GetOr(""), id)], before)
  {
    SearchIsIdle(m, runtime);
    LoneEndTexts(m, frames, FleetIndex(m, runtime), finalText, id, before);
    LoneEndScope(m, runtime, finalText, before);
    hide Texts, Scope, FleetIndex, Sound, EndedText, Begin;
  }

  lemma {:induction false} ThinkingEndScoped(m: Mapper, frames: seq<Frame>, index: Option<nat>,
                                             finalText: Option<string>, before: set<nat>)
    requires Sound(m, frames) && Scoped(m, frames, before)
    ensures Scoped(OnThinkingEnd(m, index, finalText).0, frames + OnThinkingEnd(m, index, finalText).1, before)
  {
    var runtime := RuntimeIndex(m, index);
    var (after, emitted) := OnThinkingEnd(m, index, finalText);
    if IsActive(m.active, runtime) {
      var fleet := FleetOf(m.active, runtime);
      assert emitted == [ReasoningText(End, fleet, TextOf(after, fleet), m.messageId)];
      assert after.reasoningText == m.reasoningText[fleet := emitted[0].text];
      EndScoped(m, after, frames, emitted[0], before);
    } else {
      FreshIsUntoldAt(m, frames, runtime);
      LoneEndScoped(m, frames, runtime, finalText, m.messageId, before);
    }
    hide Scoped, Sound, FleetIndex, Without;
  }

  lemma {:induction false} FreshIsUntoldAt(m: Mapper, frames: seq<Frame>, runtime: nat)
    requires Sound(m, frames)
    ensures FleetIndex(m, runtime) !in m.reasoningText
  {
    SearchIsIdle(m, runtime);
  }

  // A new message: nothing that was claimed belongs to it.
  lemma {:induction false} MessageStartScoped(m: Mapper, frames: seq<Frame>)
    requires Sound(m, frames)
    ensures Scoped(OnStreamEvent(m, MessageStart).0, frames, m.claimed)
  {
    forall k: nat | k !in m.claimed
      ensures !Streamed(frames, k)
    {
      FreshIsUntold(m, frames, k);
    }
    hide Said, Streamed;
  }

  lemma {:induction false} SameScoped(m: Mapper, after: Mapper, frames: seq<Frame>, before: set<nat>)
    requires Scoped(m, frames, before)
    requires after.claimed == m.claimed && after.active == m.active && after.reasoningText == m.reasoningText
    requires after.fleetByRuntime == m.fleetByRuntime
    ensures Scoped(after, frames + [], before)
  {
    assert frames + [] == frames;
  }

  lemma {:induction false} TextArrivesScoped(m: Mapper, frames: seq<Frame>, delta: string, before: set<nat>)
    requires Scoped(m, frames, before)
    ensures var (after, emitted) := OnStreamEvent(m, TextArrives(delta)); Scoped(after, frames + emitted, before)
  {
    CloseAllScoped(m, frames, before);
    var (m1, closed) := CloseAll(m);
    var shown := TextDelta(delta, WithMessage(m1).messageId);
    OtherSaid(m1.reasoningText, frames + closed, shown, before);
    assert frames + closed + [shown] == frames + (closed + [shown]);
    hide Texts, CloseAll;
  }

  lemma {:induction false} StreamEventScoped(m: Mapper, frames: seq<Frame>, event: StreamEvent, before: set<nat>)
    requires Sound(m, frames) && Scoped(m, frames, before) && !event.MessageStart?
    ensures var (after, emitted) := OnStreamEvent(m, event); Scoped(after, frames + emitted, before)
  {
    hide Scoped, Sound, CloseAll, OnThinkingStart, OnThinkingDelta, OnThinkingEnd, UpsertCalls, AppendFinalText;
    match event
    case TextStart => CloseAllScoped(m, frames, before);
    case ToolcallStart => CloseAllScoped(m, frames, before);
    case TextArrives(delta) => TextArrivesScoped(m, frames, delta, before);
    case ThinkingStart(index) => ThinkingStartScoped(m, frames, index, before);
    case ThinkingDelta(index, delta) => ThinkingDeltaScoped(m, frames, index, delta, before);
    case ThinkingEnd(index, finalText) => ThinkingEndScoped(m, frames, index, finalText, before);
    case MessageDone(content, errors) => SameScoped(m, Remember(m, content, errors), frames, before);
    case Ignored => SameScoped(m, m, frames, before);
  }

  lemma {:induction false} UpdateScoped(m: Mapper, frames: seq<Frame>, content: seq<Block>, event: StreamEvent,
                                        before: set<nat>)
    requires Sound(m, frames) && Scoped(m, frames, before)
    ensures var (after, emitted) := OnMessageUpdate(m, content, event);
            Scoped(after, frames + emitted, if event.MessageStart? then m.claimed else before)
  {
    var m1 := m.(content := content);
    SameScoped(m, m1, frames, before);
    SameReasoning(m, m1, frames);
    assert frames + [] == frames;
    hide Scoped, Sound;
    if event.MessageStart? {
      MessageStartScoped(m1, frames);
    } else {
      StreamEventScoped(m1, frames, event, before);
    }
  }

  lemma {:induction false} EventScoped(m: Mapper, frames: seq<Frame>, event: RunEvent, before: set<nat>)
    requires Sound(m, frames) && Scoped(m, frames, before)
    ensures var (after, emitted) := OnRunEvent(m, event);
            Scoped(after, frames + emitted, if IsStart(event) then m.claimed else before)
  {
    hide Scoped, Sound, Upsert, UpsertCalls, AppendFinalText, OnMessageUpdate, CloseAll;
    match event
    case MessageStarted(content) => SameScoped(m, Started(m, content), frames, before);
    case MessageUpdated(content, e) => UpdateScoped(m, frames, content, e, before);
    case MessageSnapshot(content, errors) => SameScoped(m, Remember(m, content, errors), frames, before);
    case ToolStarted(part) =>
      CloseAllScoped(m, frames, before);
      var (closed, emitted) := CloseAll(m);
      SameScoped(closed, OnToolStart(m, part).0, frames + emitted, before);
      assert frames + emitted + [] == frames + emitted;
    case ToolEvent(part) => SameScoped(m, m.(tools := Upsert(m.tools, part)), frames, before);
  }

  // Over every run the mapper keeps exactly what was said about the current message.
  lemma {:induction false} RunsAreScoped(events: seq<RunEvent>)
    ensures Scoped(RunOf(events).0, RunOf(events).1, ClaimedBefore(events))
  {
    if events != [] {
      var front := events[..|events| - 1];
      RunsAreScoped(front);
      RunsKeep(front);
      hide Scoped, Sound, OnRunEvent, IsStart;
      EventScoped(RunOf(front).0, RunOf(front).1, events[|events| - 1], ClaimedBefore(front));
    }
  }

  // ----- images and errors

  // The newest message that was remembered.
  function Newest(events: seq<RunEvent>): (seq<Block>, seq<string>) {
    if events == [] then ([], [])
    else
      var last := events[|events| - 1];
      if last.MessageSnapshot? then (last.content, last.errors)
      else if last.MessageUpdated? && last.event.MessageDone? then (last.event.content, last.event.errors)
      else Newest(events[..|events| - 1])
  }

  // Images and errors are those of the newest remembered message.
  lemma {:induction false} ImagesAreNewest(events: seq<RunEvent>)
    ensures RunOf(events).0.images == ImagesOf(Newest(events).0) && RunOf(events).0.errors == Newest(events).1
  {
    if events != [] {
      var front, last := events[..|events| - 1], events[|events| - 1];
      ImagesAreNewest(front);
      EventImages(RunOf(front).0, last);
    }
  }

  lemma {:induction false} StreamImages(m: Mapper, event: StreamEvent)
    requires !event.MessageDone?
    ensures OnStreamEvent(m, event).0.images == m.images && OnStreamEvent(m, event).0.errors == m.errors
  {
    hide FleetIndex, FleetOf, Without, EndFrames, TextOf;
  }

  lemma {:induction false} EventImages(m: Mapper, event: RunEvent)
    ensures var after := OnRunEvent(m, event).0;
            if event.MessageSnapshot? then after.images == ImagesOf(event.content) && after.errors == event.errors
            else if event.MessageUpdated? && event.event.MessageDone?
            then after.images == ImagesOf(event.event.content) && after.errors == event.event.errors
            else after.images == m.images && after.errors == m.errors
  {
    hide Upsert, UpsertCalls, FleetIndex, OnThinkingStart, OnThinkingDelta, OnThinkingEnd, ImagesOf, AppendFinalText;
    if event.MessageUpdated? && !event.event.MessageDone? {
      StreamImages(m.(content := event.content), event.event);
      hide OnStreamEvent;
    }
  }

  // ----- what is open is known to be

  // Every index of this message that has a start and no end yet is held open.
  ghost predicate OpenShows(active: seq<Active>, frames: seq<Frame>, before: set<nat>) {
    forall k: nat :: k !in before && Open(PhasesOf(frames, k)) ==> Shows(active, k)
  }

  lemma {:induction false} PhasesSnoc(frames: seq<Frame>, frame: Frame, k: nat)
    ensures PhasesOf(frames + [frame], k)
            == if frame.ReasoningText? && frame.contentIndex == k then PhasesOf(frames, k) + [frame.phase]
               else PhasesOf(frames, k)
  {
    assert (frames + [frame])[..|frames|] == frames;
  }

  // An end closes its index, whatever else stays open.
  lemma {:induction false} EndCloses(active: seq<Active>, rest: seq<Active>, frames: seq<Frame>, end: Frame,
                                     before: set<nat>)
    requires OpenShows(active, frames, before) && end.ReasoningText? && end.phase == End
    requires forall k: nat :: Shows(active, k) && k != end.contentIndex ==> Shows(rest, k)
    ensures OpenShows(rest, frames + [end], before)
  {
    forall k: nat | k !in before && Open(PhasesOf(frames + [end], k))
      ensures Shows(rest, k)
    {
      PhasesSnoc(frames, end, k);
      EndIsNotOpen(PhasesOf(frames, k));
    }
  }

  lemma {:induction false} EndIsNotOpen(phases: seq<Phase>)
    ensures !Open(phases + [End])
  {
    assert (phases + [End])[|phases|] == End;
  }

  // Any other frame can only open an index that is held open.
  lemma {:induction false} OtherOpens(active: seq<Active>, more: seq<Active>, frames: seq<Frame>, frame: Frame,
                                      before: set<nat>)
    requires OpenShows(active, frames, before)
    requires forall k: nat :: Shows(active, k) ==> Shows(more, k)
    requires frame.ReasoningText? ==> Shows(more, frame.contentIndex)
    ensures OpenShows(more, frames + [frame], before)
  {
    forall k: nat | k !in before && Open(PhasesOf(frames + [frame], k))
      ensures Shows(more, k)
    {
      PhasesSnoc(frames, frame, k);
    }
  }

  lemma {:induction false} ShowsTail(last: Active, rest: seq<Active>, k: nat)
    ensures Shows([last] + rest, k) <==> k == last.fleet || Shows(rest, k)
  {
    var all := [last] + rest;
    assert all[0] == last && forall i :: 0 <= i < |rest| ==> all[i + 1] == rest[i];
  }

  lemma {:induction false} EndFramesClose(m: Mapper, frames: seq<Frame>, done: seq<Active>, rest: seq<Active>,
                                          before: set<nat>)
    requires OpenShows(done + rest, frames, before)
    ensures OpenShows(rest, frames + EndFrames(m, done), before)
  {
    hide OpenShows, Shows;
    if done == [] {
      assert done + rest == rest && frames + [] == frames;
    } else {
      var front, last := done[..|done| - 1], done[|done| - 1];
      assert done + rest == front + ([last] + rest);
      EndFramesClose(m, frames, front, [last] + rest, before);
      var end := ReasoningText(End, last.fleet, TextOf(m, last.fleet), m.messageId);
      forall k: nat | Shows([last] + rest, k) && k != end.contentIndex
        ensures Shows(rest, k)
      {
        ShowsTail(last, rest, k);
      }
      EndCloses([last] + rest, rest, frames + EndFrames(m, front), end, before);
      assert frames + EndFrames(m, front) + [end] == frames + (EndFrames(m, front) + [end]);
    }
  }

  lemma {:induction false} CloseAllCloses(m: Mapper, frames: seq<Frame>, before: set<nat>)
    requires OpenShows(m.active, frames, before)
    ensures OpenShows([], frames + CloseAll(m).1, before) && CloseAll(m).0.active == []
  {
    assert m.active + [] == m.active;
    if m.active == [] {
      assert frames + [] == frames;
    } else {
      EndFramesClose(WithMessage(m), frames, m.active, [], before);
    }
    hide OpenShows, EndFrames;
  }

  // Removing a runtime's episode leaves the others.
  lemma {:induction false} WithoutShows(active: seq<Active>, runtime: nat, k: nat)
    requires Distinct(active) && IsActive(active, runtime) && Shows(active, k) && k != FleetOf(active, runtime)
    ensures Shows(Without(active, runtime), k)
  {
    var i :| 0 <= i < |active| && active[i].fleet == k;
    var a := Active(runtime, FleetOf(active, runtime));
    var j :| 0 <= j < |active| && active[j] == a;
    assert active[i].runtime != runtime;
    assert active[i] in Without(active, runtime);
    var p :| 0 <= p < |Without(active, runtime)| && Without(active, runtime)[p] == active[i];
  }

  lemma {:induction false} ReplacedCloses(m: Mapper, frames: seq<Frame>, runtime: nat, before: set<nat>)
    requires Distinct(m.active) && OpenShows(m.active, frames, before)
    ensures OpenShows(Without(m.active, runtime), frames + Replaced(m, runtime), before)
  {
    var rest := Without(m.active, runtime);
    if IsActive(m.active, runtime) {
      var fleet := FleetOf(m.active, runtime);
      forall k: nat | Shows(m.active, k) && k != fleet
        ensures Shows(rest, k)
      {
        WithoutShows(m.active, runtime, k);
      }
      hide OpenShows, Shows;
      EndCloses(m.active, rest, frames, ReasoningText(End, fleet, TextOf(m, fleet), m.messageId), before);
    } else {
      WithoutIdle(m.active, runtime);
      assert frames + [] == frames;
    }
  }

  lemma {:induction false} StartOpens(active: seq<Active>, frames: seq<Frame>, added: Active, id: Option<nat>,
                                      before: set<nat>)
    requires OpenShows(active, frames, before)
    ensures OpenShows(active + [added], frames + [ReasoningText(Start, added.fleet, "", id)], before)
  {
    var more := active + [added];
    assert more[|active|] == added && forall i :: 0 <= i < |active| ==> more[i] == active[i];
    hide OpenShows;
    OtherOpens(active, more, frames, ReasoningText(Start, added.fleet, "", id), before);
  }

  lemma {:induction false} ThinkingStartOpens(m: Mapper, frames: seq<Frame>, index: Option<nat>, before: set<nat>)
    requires Indexes(m) && OpenShows(m.active, frames, before)
    ensures OpenShows(OnThinkingStart(m, index).0.active, frames + OnThinkingStart(m, index).1, before)
  {
    var runtime, m1 := RuntimeIndex(m, index), WithMessage(m);
    var m2 := m1.(active := Without(m1.active, runtime));
    var fleet := FleetIndex(m2, runtime);
    var start := ReasoningText(Start, fleet, "", m1.messageId);
    ReplacedCloses(m1, frames, runtime, before);
    StartOpens(m2.active, frames + Replaced(m1, runtime), Active(runtime, fleet), m1.messageId, before);
    assert frames + Replaced(m1, runtime) + [start] == frames + (Replaced(m1, runtime) + [start]);
    WithoutTwice(m1.active, runtime);
    hide OpenShows, FleetIndex, Without;
  }

  lemma {:induction false} WithoutTwice(active: seq<Active>, runtime: nat)
    ensures Without(Without(active, runtime), runtime) == Without(active, runtime)
  {
    var rest := Without(active, runtime);
    assert !IsActive(rest, runtime) by {
      assert forall i :: 0 <= i < |rest| ==> rest[i] in rest;
    }
    WithoutIdle(rest, runtime);
  }

  lemma {:induction false} ThinkingDeltaOpens(m: Mapper, frames: seq<Frame>, index: Option<nat>, delta: string,
                                              before: set<nat>)
    requires Indexes(m) && OpenShows(m.active, frames, before)
    ensures OpenShows(OnThinkingDelta(m, index, delta).0.active, frames + OnThinkingDelta(m, index, delta).1, before)
  {
    var runtime, m1 := RuntimeIndex(m, index), WithMessage(m);
    if IsActive(m.active, runtime) {
      var fleet := FleetOf(m.active, runtime);
      var frame := ReasoningText(Delta, fleet, delta, m1.messageId);
      OpenDeltaIs(m, index, delta);
      FleetShows(m.active, runtime);
      hide OpenShows, OnThinkingDelta, FleetOf, Shows;
      OtherOpens(m.active, m.active, frames, frame, before);
    } else {
      var fleet := FleetIndex(m1, runtime);
      var added := Active(runtime, fleet);
      FirstDeltaIs(m, index, delta);
      WithoutIdle(m.active, runtime);
      hide OpenShows, OnThinkingDelta, FleetIndex;
      StartOpens(m.active, frames, added, m1.messageId, before);
      var start := ReasoningText(Start, fleet, "", m1.messageId);
      var frame := ReasoningText(Delta, fleet, delta, m1.messageId);
      assert (m.active + [added])[|m.active|].fleet == fleet;
      OtherOpens(m.active + [added], m.active + [added], frames + [start], frame, before);
      assert frames + [start] + [frame] == frames + ([start] + [frame]);
    }
  }

  lemma {:induction false} FleetShows(active: seq<Active>, runtime: nat)
    requires IsActive(active, runtime)
    ensures Shows(active, FleetOf(active, runtime))
  {
    var a := Active(runtime, FleetOf(active, runtime));
    var j :| 0 <= j < |active| && active[j] == a;
  }

  lemma {:induction false} ThinkingEndCloses(m: Mapper, frames: seq<Frame>, index: Option<nat>,
                                             finalText: Option<string>, before: set<nat>)
    requires Indexes(m) && OpenShows(m.active, frames, before)
    ensures var (after, emitted) := OnThinkingEnd(m, index, finalText);
            OpenShows(after.active, frames + emitted, before)
  {
    var runtime := RuntimeIndex(m, index);
    var (after, emitted) := OnThinkingEnd(m, index, finalText);
    if IsActive(m.active, runtime) {
      assert after.active == Without(m.active, runtime) && emitted[0].contentIndex == FleetOf(m.active, runtime);
      forall k: nat | Shows(m.active, k) && k != emitted[0].contentIndex
        ensures Shows(after.active, k)
      {
        WithoutShows(m.active, runtime, k);
      }
    } else {
      WithoutIdle(m.active, runtime);
      var added := Active(runtime, FleetIndex(m, runtime));
      WithoutSplit(m.active, added, []);
      assert m.active + [added] + [] == m.active + [added];
      assert after.active == m.active by { assert m.active + [] == m.active; }
    }
    assert emitted == [emitted[0]];
    hide OpenShows, OnThinkingEnd, Shows;
    EndCloses(m.active, after.active, frames, emitted[0], before);
  }

  lemma {:induction false} StreamEventOpens(m: Mapper, frames: seq<Frame>, event: StreamEvent, before: set<nat>)
    requires Indexes(m) && OpenShows(m.active, frames, before) && !event.MessageStart?
    ensures var (after, emitted) := OnStreamEvent(m, event); OpenShows(after.active, frames + emitted, before)
    ensures event.TextStart? || event.ToolcallStart? || event.TextArrives? ==> OnStreamEvent(m, event).0.active == []
  {
    hide OpenShows, CloseAll, OnThinkingStart, OnThinkingDelta, OnThinkingEnd, UpsertCalls, AppendFinalText, ImagesOf;
    assert frames + [] == frames;
    match event
    case TextStart => CloseAllCloses(m, frames, before);
    case ToolcallStart => CloseAllCloses(m, frames, before);
    case TextArrives(delta) =>
      CloseAllCloses(m, frames, before);
      var (m1, closed) := CloseAll(m);
      var shown := TextDelta(delta, WithMessage(m1).messageId);
      OtherOpens([], [], frames + closed, shown, before);
      assert frames + closed + [shown] == frames + (closed + [shown]);
    case ThinkingStart(index) => ThinkingStartOpens(m, frames, index, before);
    case ThinkingDelta(index, delta) => ThinkingDeltaOpens(m, frames, index, delta, before);
    case ThinkingEnd(index, finalText) => ThinkingEndCloses(m, frames, index, finalText, before);
    case _ =>
  }

  lemma {:induction false} FreshIsClosed(m: Mapper, frames: seq<Frame>, active: seq<Active>)
    requires Sound(m, frames)
    ensures OpenShows(active, frames, m.claimed)
  {
    forall k: nat | k !in m.claimed
      ensures !Open(PhasesOf(frames, k))
    {
      assert Faithful(m, frames, k);
    }
  }

  // These begin something else than thinking.
  predicate Interrupts(event: RunEvent) {
    event.ToolStarted?
    || (event.MessageUpdated? && (event.event.TextStart? || event.event.ToolcallStart? || event.event.TextArrives?))
  }

  lemma {:induction false} EventOpens(m: Mapper, frames: seq<Frame>, event: RunEvent, before: set<nat>)
    requires Sound(m, frames) && OpenShows(m.active, frames, before)
    ensures var (after, emitted) := OnRunEvent(m, event);
            && OpenShows(after.active, frames + emitted, if IsStart(event) then m.claimed else before)
            && (Interrupts(event) ==> after.active == [])
  {
    hide OpenShows, CloseAll, Upsert, UpsertCalls, AppendFinalText, ImagesOf, OnStreamEvent;
    assert frames + [] == frames;
    match event
    case MessageStarted(content) =>
    case MessageUpdated(content, e) =>
      var m1 := m.(content := content);
      if e.MessageStart? {
        FreshIsClosed(m, frames, OnStreamEvent(m1, e).0.active);
        assert OnStreamEvent(m1, e).1 == [] by { StartIsSilent(m1); }
      } else {
        StreamEventOpens(m1, frames, e, before);
      }
    case MessageSnapshot(content, errors) =>
    case ToolStarted(part) => CloseAllCloses(m, frames, before);
    case ToolEvent(part) =>
  }

  lemma {:induction false} StartIsSilent(m: Mapper)
    ensures OnStreamEvent(m, MessageStart).1 == []
  {}

  lemma {:induction false} RunsHoldOpen(events: seq<RunEvent>)
    ensures OpenShows(RunOf(events).0.active, RunOf(events).1, ClaimedBefore(events))
  {
    if events != [] {
      var front, last := events[..|events| - 1], events[|events| - 1];
      RunsHoldOpen(front);
      RunsKeep(front);
      hide OpenShows, OnRunEvent, Sound, IsStart;
      EventOpens(RunOf(front).0, RunOf(front).1, last, ClaimedBefore(front));
    }
  }

  lemma {:induction false} InterruptedIsIdle(events: seq<RunEvent>)
    requires events != [] && Interrupts(events[|events| - 1])
    ensures RunOf(events).0.active == []
  {
    var front, last := events[..|events| - 1], events[|events| - 1];
    hide OnRunEvent, OpenShows, Sound, Interrupts, IsStart, ClaimedBefore;
    RunsHoldOpen(front);
    RunsKeep(front);
    EventOpens(RunOf(front).0, RunOf(front).1, last, ClaimedBefore(front));
  }

  lemma {:induction false} IdleIsClosed(m: Mapper, frames: seq<Frame>, before: set<nat>, k: nat)
    requires Sound(m, frames) && m.active == [] && OpenShows(m.active, frames, before) && k !in before
    ensures var phases := PhasesOf(frames, k); phases == [] || phases[|phases| - 1] == End
  {
    assert Faithful(m, frames, k);
    hide PhasesOf, Indexes;
  }

  // Over every run: once text, a tool call or a tool begins, no thought of the message is open any
  // more: each has been told its end.
  lemma {:induction false} NothingStaysOpen(events: seq<RunEvent>, k: nat)
    requires events != [] && Interrupts(events[|events| - 1]) && k !in ClaimedBefore(events)
    ensures var phases := PhasesOf(RunOf(events).1, k);
            phases == [] || phases[|phases| - 1] == End
  {
    hide OpenShows, Sound, RunOf, ClaimedBefore, PhasesOf, Interrupts;
    RunsHoldOpen(events);
    RunsKeep(events);
    InterruptedIsIdle(events);
    IdleIsClosed(RunOf(events).0, RunOf(events).1, ClaimedBefore(events), k);
  }

  // A delta that names no index goes to the episode opened last.
  lemma {:induction false} UnnamedGoesToNewest(m: Mapper, index: Option<nat>, delta: string)
    requires Indexes(m)
    ensures var (m1, started) := OnThinkingStart(m, index);
            var (_, emitted) := OnThinkingDelta(m1, None, delta);
            && started != [] && started[|started| - 1].phase == Start
            && emitted == [ReasoningText(Delta, started[|started| - 1].contentIndex, delta, m1.messageId)]
  {
    var m1 := OnThinkingStart(m, index).0;
    var runtime := RuntimeIndex(m, index);
    var last := m1.active[|m1.active| - 1];
    assert last.runtime == runtime;
    assert m1.active[|m1.active| - 1] in m1.active && IsActive(m1.active, runtime);
    NewestIsFound(Without(Without(m.active, runtime), runtime), last);
    OpenDeltaIs(m1, None, delta);
    hide Without, FleetIndex, OnThinkingDelta, FleetOf;
  }

  lemma {:induction false} NewestIsFound(rest: seq<Active>, last: Active)
    requires forall a :: a in rest ==> a.runtime != last.runtime
    ensures IsActive(rest + [last], last.runtime) && FleetOf(rest + [last], last.runtime) == last.fleet
  {
    var all := rest + [last];
    assert all[|rest|] == last;
    var found := Active(last.runtime, FleetOf(all, last.runtime));
    assert found in all ==> found in rest || found == last;
  }
}
