/** What the browser sees of reasoning: one index per episode, well-formed phases, faithful text. */
module ReasoningEpisodes {
  import opened Wrappers
  import opened EventMapper

  // ----- what the frames so far say about an index

  function PhasesOf(frames: seq<Frame>, index: nat): seq<Phase> {
    if frames == [] then []
    else
      var before, last := PhasesOf(frames[..|frames| - 1], index), frames[|frames| - 1];
      if last.ReasoningText? && last.contentIndex == index then before + [last.phase] else before
  }

  // The concatenation of the deltas emitted for an index.
  function DeltasOf(frames: seq<Frame>, index: nat): string {
    if frames == [] then ""
    else
      var before, last := DeltasOf(frames[..|frames| - 1], index), frames[|frames| - 1];
      if last.ReasoningText? && last.contentIndex == index && last.phase == Delta then before + last.text else before
  }

  // A start and nothing but deltas after it.
  predicate Open(phases: seq<Phase>) {
    phases != [] && phases[0] == Start && forall i :: 1 <= i < |phases| ==> phases[i] == Delta
  }

  // A prefix of start, deltas, end; or an end alone.
  predicate WellFormed(phases: seq<Phase>) {
    phases == [] || Open(phases) || phases == [End]
    || (phases[|phases| - 1] == End && Open(phases[..|phases| - 1]))
  }

  // ----- the invariant of a run

  predicate Shows(active: seq<Active>, index: nat) {
    exists i :: 0 <= i < |active| && active[i].fleet == index
  }

  predicate Distinct(active: seq<Active>) {
    forall i, j :: 0 <= i < j < |active| ==>
          active[i].fleet != active[j].fleet && active[i].runtime != active[j].runtime
  }

  // Every claimed index is below the sequence number; open episodes are claimed and distinct.
  ghost predicate Indexes(m: Mapper) {
    && (forall c :: c in m.claimed ==> c < m.episodeSeq)
    && m.reasoningText.Keys <= m.claimed
    && (forall i :: 0 <= i < |m.active| ==> m.active[i].fleet in m.claimed)
    && Distinct(m.active)
  }

  // An unclaimed index has no frame; an open one has a start and only deltas, and its text is
  // exactly these deltas; no index has a frame out of place.
  ghost predicate Faithful(m: Mapper, frames: seq<Frame>, index: nat) {
    && WellFormed(PhasesOf(frames, index))
    && (index !in m.claimed ==> PhasesOf(frames, index) == [] && DeltasOf(frames, index) == "")
    && (Shows(m.active, index) ==> Open(PhasesOf(frames, index)) && TextOf(m, index) == DeltasOf(frames, index))
  }

  ghost predicate Sound(m: Mapper, frames: seq<Frame>) {
    Indexes(m) && forall index: nat :: Faithful(m, frames, index)
  }

  // The sequence number is past everything claimed, so the search for a free index never runs.
  lemma {:induction false} SearchIsIdle(m: Mapper, runtime: nat)
    requires Indexes(m)
    ensures FleetIndex(m, runtime) == if runtime in m.claimed then Max(m.episodeSeq, runtime + 1) else runtime
    ensures FleetIndex(m, runtime) !in m.claimed
  {
    assert runtime in m.claimed ==> Max(m.episodeSeq, runtime + 1) !in m.claimed;
  }

  // ----- removing an episode from the open ones

  lemma {:induction false} WithoutConcat(xs: seq<Active>, ys: seq<Active>, runtime: nat)
    ensures Without(xs + ys, runtime) == Without(xs, runtime) + Without(ys, runtime)
  {
    if xs == [] {
      assert xs + ys == ys;
    } else {
      assert (xs + ys)[1..] == xs[1..] + ys && (xs + ys)[0] == xs[0];
      WithoutConcat(xs[1..], ys, runtime);
    }
  }

  lemma {:induction false} WithoutSplit(before: seq<Active>, a: Active, after: seq<Active>)
    requires !IsActive(before, a.runtime) && !IsActive(after, a.runtime)
    ensures Without(before + [a] + after, a.runtime) == before + after
  {
    WithoutConcat(before + [a], after, a.runtime);
    WithoutConcat(before, [a], a.runtime);
    WithoutIdle(before, a.runtime);
    WithoutIdle(after, a.runtime);
    assert Without([a], a.runtime) == [];
    assert before + [] == before;
  }

  lemma {:induction false} RestDistinct(active: seq<Active>, i: nat)
    requires Distinct(active) && i < |active|
    ensures Distinct(active[..i] + active[i + 1..])
    ensures forall k: nat :: Shows(active[..i] + active[i + 1..], k) ==> k != active[i].fleet && Shows(active, k)
  {
    var rest := active[..i] + active[i + 1..];
    assert forall p :: 0 <= p < |rest| ==> rest[p] == active[if p < i then p else p + 1];
    forall k: nat | Shows(rest, k)
      ensures k != active[i].fleet && Shows(active, k)
    {
      var p :| 0 <= p < |rest| && rest[p].fleet == k;
      assert active[if p < i then p else p + 1].fleet == k;
    }
  }

  // The episode at a place: the lookup finds it, and removing it leaves the others.
  lemma {:induction false} OpenAt(active: seq<Active>, i: nat)
    requires Distinct(active) && i < |active|
    ensures IsActive(active, active[i].runtime) && FleetOf(active, active[i].runtime) == active[i].fleet
    ensures Without(active, active[i].runtime) == active[..i] + active[i + 1..]
  {
    var a := active[i];
    var j :| 0 <= j < |active| && active[j] == Active(a.runtime, FleetOf(active, a.runtime));
    assert active == active[..i] + [a] + active[i + 1..];
    var later := active[i + 1..];
    forall p | 0 <= p < |later|
      ensures later[p].runtime != a.runtime
    {
      assert later[p] == active[i + 1 + p];
    }
    WithoutSplit(active[..i], a, active[i + 1..]);
  }

  // ----- one frame at a time

  // Ending an open episode, under any text.
  lemma {:induction false} EndOne(m: Mapper, after: Mapper, frames: seq<Frame>, frame: Frame, i: nat)
    requires Sound(m, frames) && i < |m.active|
    requires frame.ReasoningText? && frame.phase == End && frame.contentIndex == m.active[i].fleet
    requires after.claimed == m.claimed && after.episodeSeq == m.episodeSeq && after.reasoningText.Keys <= m.claimed
    requires forall k: nat :: k != frame.contentIndex ==> TextOf(after, k) == TextOf(m, k)
    requires after.active == m.active[..i] + m.active[i + 1..]
    ensures Sound(after, frames + [frame])
  {
    RestDistinct(m.active, i);
    forall k: nat
      ensures Faithful(after, frames + [frame], k)
    {
      assert Faithful(m, frames, k);
      if k == frame.contentIndex {
        assert Shows(m.active, k);
        var phases := PhasesOf(frames, k);
        assert (phases + [End])[..|phases|] == phases;
      }
    }
  }

  // Starting one under a fresh index, with empty text.
  lemma {:induction false} StartOne(m: Mapper, after: Mapper, frames: seq<Frame>, frame: Frame, runtime: nat)
    requires Sound(m, frames) && !IsActive(m.active, runtime)
    requires frame.ReasoningText? && frame.phase == Start && frame.contentIndex !in m.claimed
    requires after.claimed == m.claimed + {frame.contentIndex}
             && after.episodeSeq == Max(m.episodeSeq, frame.contentIndex + 1)
    requires after.reasoningText.Keys <= after.claimed && TextOf(after, frame.contentIndex) == ""
    requires forall k: nat :: k != frame.contentIndex ==> TextOf(after, k) == TextOf(m, k)
    requires after.active == m.active + [Active(runtime, frame.contentIndex)]
    ensures Sound(after, frames + [frame])
  {
    forall k: nat
      ensures Faithful(after, frames + [frame], k)
    {
      assert Faithful(m, frames, k);
      if k != frame.contentIndex && Shows(after.active, k) {
        assert Shows(m.active, k);
      }
    }
  }

  // One more delta of an open one.
  lemma {:induction false} DeltaOne(m: Mapper, after: Mapper, frames: seq<Frame>, frame: Frame)
    requires Sound(m, frames) && frame.ReasoningText? && frame.phase == Delta && Shows(m.active, frame.contentIndex)
    requires after.claimed == m.claimed && after.episodeSeq == m.episodeSeq && after.active == m.active
    requires after.reasoningText == m.reasoningText[frame.contentIndex := TextOf(m, frame.contentIndex) + frame.text]
    ensures Sound(after, frames + [frame])
  {
    assert Faithful(m, frames, frame.contentIndex);
    forall k: nat
      ensures Faithful(after, frames + [frame], k)
    {
      assert Faithful(m, frames, k);
      if k == frame.contentIndex {
        assert Open(PhasesOf(frames, k) + [Delta]);
      }
    }
  }

  // An end for an episode that was never started: its own index, and nothing else for it.
  lemma {:induction false} LoneEnd(m: Mapper, after: Mapper, frames: seq<Frame>, frame: Frame)
    requires Sound(m, frames)
    requires frame.ReasoningText? && frame.phase == End && frame.contentIndex !in m.claimed
    requires after.claimed == m.claimed + {frame.contentIndex}
             && after.episodeSeq == Max(m.episodeSeq, frame.contentIndex + 1)
    requires after.reasoningText.Keys <= after.claimed && after.active == m.active
    requires forall k: nat :: k != frame.contentIndex ==> TextOf(after, k) == TextOf(m, k)
    ensures Sound(after, frames + [frame])
  {
    forall k: nat
      ensures Faithful(after, frames + [frame], k)
    {
      assert Faithful(m, frames, k);
    }
  }

  // Frames about text, and changes outside the reasoning fields, leave everything as it was.
  lemma {:induction false} OtherFrame(m: Mapper, after: Mapper, frames: seq<Frame>, frame: Frame)
    requires Sound(m, frames) && frame.TextDelta?
    requires after.claimed == m.claimed && after.episodeSeq == m.episodeSeq && after.active == m.active
    requires after.reasoningText == m.reasoningText
    ensures Sound(after, frames + [frame])
  {
    forall k: nat
      ensures Faithful(after, frames + [frame], k)
    {
      assert Faithful(m, frames, k);
    }
  }

  lemma {:induction false} SameReasoning(m: Mapper, after: Mapper, frames: seq<Frame>)
    requires Sound(m, frames)
    requires after.claimed == m.claimed && after.episodeSeq == m.episodeSeq
    requires (after.active == m.active && after.reasoningText == m.reasoningText)
             || (after.active == [] && after.reasoningText == map[])
    ensures Sound(after, frames + [])
  {
    assert frames + [] == frames;
    forall k: nat
      ensures Faithful(after, frames, k)
    {
      assert Faithful(m, frames, k);
    }
  }

  // ----- the events

  // Closing the open episodes one by one, each with the text it streamed.
  ghost predicate EndsFaithfully(frames: seq<Frame>, ended: seq<Frame>) {
    forall i :: 0 <= i < |ended| && ended[i].ReasoningText? && ended[i].phase == End ==>
      ended[i].text == DeltasOf(frames, ended[i].contentIndex)
  }

  lemma {:induction false} EndsSnoc(frames: seq<Frame>, ended: seq<Frame>, frame: Frame)
    requires EndsFaithfully(frames, ended)
    requires frame.ReasoningText? && (frame.phase == End ==> frame.text == DeltasOf(frames, frame.contentIndex))
    ensures EndsFaithfully(frames, ended + [frame])
  {
    var all := ended + [frame];
    forall i | 0 <= i < |all| && all[i].ReasoningText? && all[i].phase == End
      ensures all[i].text == DeltasOf(frames, all[i].contentIndex)
    {
      assert all[i] == if i < |ended| then ended[i] else frame;
    }
  }

  // The first of the open episodes that are left.
  lemma {:induction false} CloseFirst(m: Mapper, frames: seq<Frame>, last: Active, rest: seq<Active>)
    requires Sound(m, frames) && m.active == [last] + rest
    ensures Sound(m.(active := rest), frames + [ReasoningText(End, last.fleet, TextOf(m, last.fleet), m.messageId)])
  {
    assert m.active[..0] + m.active[1..] == rest;
    EndOne(m, m.(active := rest), frames, ReasoningText(End, last.fleet, TextOf(m, last.fleet), m.messageId), 0);
  }

  lemma {:induction false} CloseSome(m: Mapper, frames: seq<Frame>, done: seq<Active>, rest: seq<Active>)
    requires Sound(m, frames) && m.active == done + rest
    ensures Sound(m.(active := rest), frames + EndFrames(m, done))
    ensures EndsFaithfully(frames, EndFrames(m, done))
  {
    if done == [] {
      assert done + rest == rest;
      assert m.(active := rest) == m;
      assert frames + [] == frames;
    } else {
      var front, last := done[..|done| - 1], done[|done| - 1];
      assert done + rest == front + ([last] + rest);
      CloseSome(m, frames, front, [last] + rest);
      var frame := ReasoningText(End, last.fleet, TextOf(m, last.fleet), m.messageId);
      var ended := EndFrames(m, front);
      CloseFirst(m.(active := [last] + rest), frames + ended, last, rest);
      assert EndFrames(m, done) == ended + [frame];
      assert frames + ended + [frame] == frames + (ended + [frame]);
      assert m.active[|front|] == last;
      assert Faithful(m, frames, last.fleet);
      EndsSnoc(frames, ended, frame);
    }
  }

  lemma {:induction false} CloseAllKeeps(m: Mapper, frames: seq<Frame>)
    requires Sound(m, frames)
    ensures Sound(CloseAll(m).0, frames + CloseAll(m).1) && EndsFaithfully(frames, CloseAll(m).1)
    ensures CloseAll(m).0.active == []
  {
    SameReasoning(m, WithMessage(m), frames);
    assert frames + [] == frames;
    if m.active != [] {
      assert m.active == m.active + [];
      CloseSome(WithMessage(m), frames, m.active, []);
    }
  }

  lemma {:induction false} ActivePlace(m: Mapper, runtime: nat) returns (i: nat)
    requires Indexes(m) && IsActive(m.active, runtime)
    ensures i < |m.active| && m.active[i] == Active(runtime, FleetOf(m.active, runtime))
    ensures Without(m.active, runtime) == m.active[..i] + m.active[i + 1..]
    ensures Shows(m.active, m.active[i].fleet) && !IsActive(Without(m.active, runtime), runtime)
  {
    i :| 0 <= i < |m.active| && m.active[i].runtime == runtime;
    OpenAt(m.active, i);
    forall j | 0 <= j < |Without(m.active, runtime)|
      ensures Without(m.active, runtime)[j].runtime != runtime
    {
      assert Without(m.active, runtime)[j] in Without(m.active, runtime);
    }
  }

  // The episode that a repeated start implicitly ends.
  lemma {:induction false} ClosePrevious(m: Mapper, frames: seq<Frame>, runtime: nat)
    requires Sound(m, frames) && IsActive(m.active, runtime)
    ensures var fleet := FleetOf(m.active, runtime);
            && Sound(m.(active := Without(m.active, runtime)),
                     frames + [ReasoningText(End, fleet, TextOf(m, fleet), m.messageId)])
            && TextOf(m, fleet) == DeltasOf(frames, fleet)
            && !IsActive(Without(m.active, runtime), runtime)
  {
    var i := ActivePlace(m, runtime);
    var fleet := FleetOf(m.active, runtime);
    EndOne(m, m.(active := Without(m.active, runtime)), frames,
        ReasoningText(End, fleet, TextOf(m, fleet), m.messageId), i);
    assert Faithful(m, frames, fleet);
  }

  lemma {:induction false} StartNext(m: Mapper, frames: seq<Frame>, runtime: nat, reset: bool, id: Option<nat>)
    requires Sound(m, frames) && !IsActive(m.active, runtime)
    ensures var fleet, begun := FleetIndex(m, runtime), Begin(m, runtime);
            && Sound(if reset then begun.(reasoningText := m.reasoningText[fleet := ""]) else begun,
                     frames + [ReasoningText(Start, fleet, "", id)])
            && Shows(begun.active, fleet) && fleet !in m.claimed
  {
    var fleet, begun := FleetIndex(m, runtime), Begin(m, runtime);
    SearchIsIdle(m, runtime);
    WithoutIdle(m.active, runtime);
    assert begun.active[|m.active|].fleet == fleet;
    StartOne(m, if reset then begun.(reasoningText := m.reasoningText[fleet := ""]) else begun, frames,
             ReasoningText(Start, fleet, "", id), runtime);
  }

  lemma {:induction false} RestartKeeps(m: Mapper, frames: seq<Frame>, runtime: nat)
    requires Sound(m, frames) && IsActive(m.active, runtime)
    ensures var previous, m2 := FleetOf(m.active, runtime), m.(active := Without(m.active, runtime));
            var fleet := FleetIndex(m2, runtime);
            var emitted := [ReasoningText(End, previous, TextOf(m, previous), m.messageId)]
                           + [ReasoningText(Start, fleet, "", m.messageId)];
            && Sound(Begin(m2, runtime).(reasoningText := m.reasoningText[fleet := ""]), frames + emitted)
            && EndsFaithfully(frames, emitted)
  {
    var previous, m2 := FleetOf(m.active, runtime), m.(active := Without(m.active, runtime));
    var closed := ReasoningText(End, previous, TextOf(m, previous), m.messageId);
    var start := ReasoningText(Start, FleetIndex(m2, runtime), "", m.messageId);
    ClosePrevious(m, frames, runtime);
    StartNext(m2, frames + [closed], runtime, true, m.messageId);
    assert frames + [closed] + [start] == frames + ([closed] + [start]);
    EndsSnoc(frames, [], closed);
    assert [] + [closed] == [closed];
    EndsSnoc(frames, [closed], start);
  }

  lemma {:induction false} ThinkingStartKeeps(m: Mapper, frames: seq<Frame>, index: Option<nat>)
    requires Sound(m, frames)
    ensures Sound(OnThinkingStart(m, index).0, frames + OnThinkingStart(m, index).1)
    ensures EndsFaithfully(frames, OnThinkingStart(m, index).1)
  {
    var runtime, m1 := RuntimeIndex(m, index), WithMessage(m);
    SameReasoning(m, m1, frames);
    assert frames + [] == frames;
    if IsActive(m1.active, runtime) {
      RestartKeeps(m1, frames, runtime);
    } else {
      WithoutIdle(m1.active, runtime);
      assert m1.(active := Without(m1.active, runtime)) == m1;
      StartNext(m1, frames, runtime, true, m1.messageId);
      var start := ReasoningText(Start, FleetIndex(m1, runtime), "", m1.messageId);
      assert OnThinkingStart(m, index).1 == [] + [start] == [start];
    }
  }

  lemma {:induction false} ThinkingDeltaKeeps(m: Mapper, frames: seq<Frame>, index: Option<nat>, delta: string)
    requires Sound(m, frames)
    ensures Sound(OnThinkingDelta(m, index, delta).0, frames + OnThinkingDelta(m, index, delta).1)
    ensures EndsFaithfully(frames, OnThinkingDelta(m, index, delta).1)
  {
    var runtime := RuntimeIndex(m, index);
    var after := OnThinkingDelta(m, index, delta).0;
    if IsActive(m.active, runtime) {
      var i := ActivePlace(m, runtime);
      var frame := ReasoningText(Delta, m.active[i].fleet, delta, WithMessage(m).messageId);
      assert OnThinkingDelta(m, index, delta).1 == [] + [frame] == [frame];
      DeltaOne(m, after, frames, frame);
    } else {
      var fleet, begun := FleetIndex(m, runtime), Begin(m, runtime);
      var id := WithMessage(begun).messageId;
      var start, frame := ReasoningText(Start, fleet, "", id), ReasoningText(Delta, fleet, delta, id);
      StartNext(m, frames, runtime, false, id);
      DeltaOne(begun, after, frames + [start], frame);
      assert frames + [start] + [frame] == frames + ([start] + [frame]);
      assert OnThinkingDelta(m, index, delta).1 == [start] + [frame];
    }
  }

  // An episode that was never opened is not open afterwards either.
  lemma {:induction false} BeginAndClose(m: Mapper, runtime: nat)
    requires !IsActive(m.active, runtime)
    ensures Without(Begin(m, runtime).active, runtime) == m.active
  {
    var added := Active(runtime, FleetIndex(m, runtime));
    WithoutIdle(m.active, runtime);
    assert m.active + [added] + [] == m.active + [added] && m.active + [] == m.active;
    WithoutSplit(m.active, added, []);
    hide FleetIndex, Without;
  }

  lemma {:induction false} EndUnstarted(m: Mapper, after: Mapper, frames: seq<Frame>, runtime: nat, text: string,
                                        id: Option<nat>)
    requires Sound(m, frames) && !IsActive(m.active, runtime)
    requires var begun, fleet := Begin(m, runtime), FleetIndex(m, runtime);
             && after.claimed == begun.claimed && after.episodeSeq == begun.episodeSeq
             && (after.reasoningText == m.reasoningText || after.reasoningText == m.reasoningText[fleet := text])
             && after.active == Without(begun.active, runtime)
    ensures Sound(after, frames + [ReasoningText(End, FleetIndex(m, runtime), text, id)])
  {
    SearchIsIdle(m, runtime);
    BeginAndClose(m, runtime);
    assert m.reasoningText.Keys <= m.claimed;
    hide FleetIndex, Without, Sound, IsActive;
    LoneEnd(m, after, frames, ReasoningText(End, FleetIndex(m, runtime), text, id));
  }

  lemma {:induction false} ThinkingEndKeeps(m: Mapper, frames: seq<Frame>, index: Option<nat>,
                                            finalText: Option<string>)
    requires Sound(m, frames)
    ensures Sound(OnThinkingEnd(m, index, finalText).0, frames + OnThinkingEnd(m, index, finalText).1)
  {
    var runtime := RuntimeIndex(m, index);
    var (after, emitted) := OnThinkingEnd(m, index, finalText);
    if IsActive(m.active, runtime) {
      var i := ActivePlace(m, runtime);
      EndOne(m, after, frames, emitted[0], i);
    } else {
      EndUnstarted(m, after, frames, runtime, emitted[0].text, emitted[0].messageId);
    }
  }

  // ----- runs

  // What can happen within a run.
  datatype RunEvent =
    | MessageStarted(content: seq<Block>)
    | MessageUpdated(content: seq<Block>, event: StreamEvent)
    | MessageSnapshot(content: seq<Block>, errors: seq<string>)
    | ToolStarted(part: ToolPart)
    | ToolEvent(part: ToolPart)

  function OnRunEvent(m: Mapper, event: RunEvent): (Mapper, seq<Frame>) {
    match event
    case MessageStarted(content) => (Started(m, content), [])
    case MessageUpdated(content, e) => OnMessageUpdate(m, content, e)
    case MessageSnapshot(content, errors) => (Remember(m, content, errors), [])
    case ToolStarted(part) => OnToolStart(m, part)
    case ToolEvent(part) => (m.(tools := Upsert(m.tools, part)), [])
  }

  function RunOf(events: seq<RunEvent>): (Mapper, seq<Frame>) {
    if events == [] then (NEW_RUN, [])
    else
      var before := RunOf(events[..|events| - 1]);
      var (after, emitted) := OnRunEvent(before.0, events[|events| - 1]);
      (after, before.1 + emitted)
  }

  lemma {:induction false} TextArrivesKeeps(m: Mapper, frames: seq<Frame>, delta: string)
    requires Sound(m, frames)
    ensures var (after, emitted) := OnStreamEvent(m, TextArrives(delta)); Sound(after, frames + emitted)
  {
    CloseAllKeeps(m, frames);
    var (m1, closed) := CloseAll(m);
    var shown := TextDelta(delta, WithMessage(m1).messageId);
    OtherFrame(m1, OnStreamEvent(m, TextArrives(delta)).0, frames + closed, shown);
    assert frames + closed + [shown] == frames + (closed + [shown]);
  }

  lemma {:induction false} StreamEventKeeps(m: Mapper, frames: seq<Frame>, event: StreamEvent)
    requires Sound(m, frames)
    ensures var (after, emitted) := OnStreamEvent(m, event); Sound(after, frames + emitted)
  {
    match event
    case MessageStart => SameReasoning(m, OnStreamEvent(m, event).0, frames);
    case TextStart => CloseAllKeeps(m, frames);
    case ToolcallStart => CloseAllKeeps(m, frames);
    case TextArrives(delta) => TextArrivesKeeps(m, frames, delta);
    case ThinkingStart(index) => ThinkingStartKeeps(m, frames, index);
    case ThinkingDelta(index, delta) => ThinkingDeltaKeeps(m, frames, index, delta);
    case ThinkingEnd(index, finalText) => ThinkingEndKeeps(m, frames, index, finalText);
    case MessageDone(content, errors) => SameReasoning(m, Remember(m, content, errors), frames);
    case Ignored => SameReasoning(m, m, frames);
  }

  lemma {:induction false} MessageUpdatedKeeps(m: Mapper, frames: seq<Frame>, content: seq<Block>, event: StreamEvent)
    requires Sound(m, frames)
    ensures var (after, emitted) := OnMessageUpdate(m, content, event); Sound(after, frames + emitted)
  {
    hide Sound, OnStreamEvent;
    SameReasoning(m, m.(content := content), frames);
    assert frames + [] == frames;
    StreamEventKeeps(m.(content := content), frames, event);
  }

  lemma {:induction false} ToolStartedKeeps(m: Mapper, frames: seq<Frame>, part: ToolPart)
    requires Sound(m, frames)
    ensures var (after, emitted) := OnToolStart(m, part); Sound(after, frames + emitted)
  {
    hide Sound, Upsert, CloseAll;
    CloseAllKeeps(m, frames);
    var (closed, emitted) := CloseAll(m);
    SameReasoning(closed, OnToolStart(m, part).0, frames + emitted);
    assert frames + emitted + [] == frames + emitted;
  }

  lemma {:induction false} RunEventKeeps(m: Mapper, frames: seq<Frame>, event: RunEvent)
    requires Sound(m, frames)
    ensures var (after, emitted) := OnRunEvent(m, event); Sound(after, frames + emitted)
  {
    hide Sound, Upsert, UpsertCalls, OnMessageUpdate, OnToolStart;
    match event
    case MessageStarted(content) => SameReasoning(m, Started(m, content), frames);
    case MessageUpdated(content, e) => MessageUpdatedKeeps(m, frames, content, e);
    case MessageSnapshot(content, errors) => SameReasoning(m, Remember(m, content, errors), frames);
    case ToolStarted(part) => ToolStartedKeeps(m, frames, part);
    case ToolEvent(part) => SameReasoning(m, m.(tools := Upsert(m.tools, part)), frames);
  }

  lemma {:induction false} RunsKeep(events: seq<RunEvent>)
    ensures Sound(RunOf(events).0, RunOf(events).1)
  {
    if events != [] {
      RunsKeep(events[..|events| - 1]);
      var (m, frames) := RunOf(events[..|events| - 1]);
      hide Sound, OnRunEvent;
      RunEventKeeps(m, frames, events[|events| - 1]);
    }
  }

  // In any run: each index's frames are a prefix of start, deltas, end, or an end alone; the
  // search loop for a free index never runs, and the next episode's index has no frame yet; and
  // an episode that is closed without its own end event ends with exactly the deltas it streamed.
  lemma {:induction false} EpisodesAreWellFormed(events: seq<RunEvent>, index: nat, runtime: nat)
    ensures var (m, frames) := RunOf(events);
            && WellFormed(PhasesOf(frames, index))
            && FleetIndex(m, runtime) == (if runtime in m.claimed then Max(m.episodeSeq, runtime + 1) else runtime)
            && PhasesOf(frames, FleetIndex(m, runtime)) == []
            && EndsFaithfully(frames, CloseAll(m).1)
            && EndsFaithfully(frames, OnThinkingStart(m, Some(runtime)).1)
  {
    RunsKeep(events);
    var (m, frames) := RunOf(events);
    assert Faithful(m, frames, index) && Faithful(m, frames, FleetIndex(m, runtime));
    SearchIsIdle(m, runtime);
    CloseAllKeeps(m, frames);
    ThinkingStartKeeps(m, frames, Some(runtime));
  }
}
