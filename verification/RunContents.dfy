/** What the tool parts, the text and the images of a run are, read off its events alone. */
module RunContents {
  import opened Wrappers
  import opened EventMapper
  import opened ReasoningEpisodes

  // What the run says about one call: a tool event's part, or a call block of a remembered message.
  datatype Update = Told(part: ToolPart) | Called(input: Option<string>)

  function CallsOf(content: seq<Block>, id: string): seq<Update> {
    if content == [] then []
    else
      var last := content[|content| - 1];
      CallsOf(content[..|content| - 1], id)
      + (if last.ToolCallBlock? && last.id == id && last.name != "" then [Called(last.arguments)] else [])
  }

  function UpdateOf(event: RunEvent, id: string): seq<Update> {
    match event
    case ToolStarted(part) => if part.toolCallId == id then [Told(part)] else []
    case ToolEvent(part) => if part.toolCallId == id then [Told(part)] else []
    case MessageSnapshot(content, _) => CallsOf(content, id)
    case MessageUpdated(_, e) => if e.MessageDone? then CallsOf(e.content, id) else []
    case MessageStarted(_) => []
  }

  function UpdatesOf(events: seq<RunEvent>, id: string): seq<Update> {
    if events == [] then [] else UpdatesOf(events[..|events| - 1], id) + UpdateOf(events[|events| - 1], id)
  }

  // The state of the newest update; a recorded failure stays under a call block.
  function LatestState(updates: seq<Update>): Option<ToolState> {
    if updates == [] then None
    else
      match updates[|updates| - 1]
      case Told(part) => Some(part.state)
      case Called(_) =>
        Some(if LatestState(updates[..|updates| - 1]) == Some(OutputError) then OutputError else OutputAvailable)
  }

  // The newest result that an event carried.
  function LatestResult(updates: seq<Update>): Option<Option<string>> {
    if updates == [] then None
    else
      var last := updates[|updates| - 1];
      if last.Told? && last.part.result.Some? then last.part.result else LatestResult(updates[..|updates| - 1])
  }

  function InputOf(update: Update): Option<string> {
    match update
    case Told(part) => part.input
    case Called(input) => input
  }

  // The first input that was known.
  function FirstInput(updates: seq<Update>): Option<string> {
    if updates == [] then None
    else
      var before := FirstInput(updates[..|updates| - 1]);
      if before.Some? then before else InputOf(updates[|updates| - 1])
  }

  function Settled(id: string, updates: seq<Update>): ToolPart
    requires updates != []
  {
    ToolPart(id, FirstInput(updates), LatestState(updates).GetOr(OutputAvailable), LatestResult(updates))
  }

  // The call has one part, as its updates say, or none without an update.
  ghost predicate Holds(tools: seq<ToolPart>, id: string, updates: seq<Update>) {
    if updates == [] then forall i :: 0 <= i < |tools| ==> tools[i].toolCallId != id
    else exists i :: IsOnly(tools, i, Settled(id, updates))
  }

  ghost predicate IsOnly(tools: seq<ToolPart>, i: int, part: ToolPart) {
    && 0 <= i < |tools| && tools[i] == part
    && forall j :: 0 <= j < |tools| && tools[j].toolCallId == part.toolCallId ==> j == i
  }

  lemma {:induction false} SettledSnoc(id: string, updates: seq<Update>, update: Update)
    ensures var after := Settled(id, updates + [update]);
            && after.toolCallId == id
            && after.input == (if FirstInput(updates).Some? then FirstInput(updates) else InputOf(update))
            && after.result == (if update.Told? && update.part.result.Some? then update.part.result
                                else LatestResult(updates))
            && after.state == (match update
                               case Told(part) => part.state
                               case Called(_) =>
                                 if LatestState(updates) == Some(OutputError) then OutputError else OutputAvailable)
  {
    assert (updates + [update])[..|updates|] == updates;
  }

  // What an update makes of the part.
  ghost predicate Follows(tools: seq<ToolPart>, next: ToolPart, update: Update) {
    match update
    case Told(part) => next == part
    case Called(input) =>
      && next.input == input && next.result.None?
      && next.state == (if exists i :: 0 <= i < |tools| && tools[i].toolCallId == next.toolCallId
                                      && tools[i].state == OutputError
                        then OutputError else OutputAvailable)
  }

  lemma {:induction false} FirstUpdate(tools: seq<ToolPart>, next: ToolPart, update: Update)
    requires next.toolCallId != "" && Holds(tools, next.toolCallId, []) && Follows(tools, next, update)
    ensures Holds(Upsert(tools, next), next.toolCallId, [update])
  {
    assert FindTool(tools, next.toolCallId) < 0;
    assert [] + [update] == [update];
    SettledSnoc(next.toolCallId, [], update);
    assert Settled(next.toolCallId, [update]) == next;
    assert IsOnly(Upsert(tools, next), |tools|, next);
  }

  lemma {:induction false} NextUpdate(tools: seq<ToolPart>, next: ToolPart, updates: seq<Update>, update: Update,
                                      i: nat)
    requires next.toolCallId != "" && updates != [] && LatestState(updates).Some?
    requires IsOnly(tools, i, Settled(next.toolCallId, updates)) && Follows(tools, next, update)
    ensures IsOnly(Upsert(tools, next), i, Settled(next.toolCallId, updates + [update]))
  {
    SettledSnoc(next.toolCallId, updates, update);
    assert FindTool(tools, next.toolCallId) == i;
    hide FirstInput, LatestState, LatestResult;
  }

  lemma {:induction false} HasState(updates: seq<Update>)
    requires updates != []
    ensures LatestState(updates).Some?
  {}

  lemma {:induction false} UpdateHolds(tools: seq<ToolPart>, next: ToolPart, updates: seq<Update>, update: Update)
    requires next.toolCallId != "" && Holds(tools, next.toolCallId, updates) && Follows(tools, next, update)
    ensures Holds(Upsert(tools, next), next.toolCallId, updates + [update])
  {
    if updates == [] {
      FirstUpdate(tools, next, update);
      assert updates + [update] == [update];
    } else {
      var i :| IsOnly(tools, i, Settled(next.toolCallId, updates));
      HasState(updates);
      NextUpdate(tools, next, updates, update, i);
    }
  }

  // An update of another call leaves this one alone.
  lemma {:induction false} OtherUpdateHolds(tools: seq<ToolPart>, next: ToolPart, id: string, updates: seq<Update>)
    requires id != "" && next.toolCallId != id && Holds(tools, id, updates)
    ensures Holds(Upsert(tools, next), id, updates)
  {
    if updates != [] {
      var i :| IsOnly(tools, i, Settled(id, updates));
      assert IsOnly(Upsert(tools, next), i, Settled(id, updates));
    }
  }

  lemma {:induction false} ToldHolds(tools: seq<ToolPart>, part: ToolPart, id: string, updates: seq<Update>)
    requires id != "" && Holds(tools, id, updates)
    ensures Holds(Upsert(tools, part), id, updates + if part.toolCallId == id then [Told(part)] else [])
  {
    hide Holds, Upsert;
    if part.toolCallId == id {
      UpdateHolds(tools, part, updates, Told(part));
    } else {
      OtherUpdateHolds(tools, part, id, updates);
      assert updates + [] == updates;
    }
  }

  lemma {:induction false} CallPartFollows(tools: seq<ToolPart>, block: Block, updates: seq<Update>)
    requires block.ToolCallBlock? && block.id != "" && Holds(tools, block.id, updates)
    ensures CallPart(tools, block).toolCallId == block.id
    ensures Follows(tools, CallPart(tools, block), Called(block.arguments))
  {
    var i := FindTool(tools, block.id);
    if updates != [] {
      var k :| IsOnly(tools, k, Settled(block.id, updates));
      assert i == k;
    }
  }

  lemma {:induction false} CallsHold(tools: seq<ToolPart>, content: seq<Block>, id: string, updates: seq<Update>)
    requires id != "" && Holds(tools, id, updates)
    ensures Holds(UpsertCalls(tools, content), id, updates + CallsOf(content, id))
  {
    if content == [] {
      assert updates + [] == updates;
    } else {
      hide Holds, Upsert, CallPart, Follows;
      var front, block := content[..|content| - 1], content[|content| - 1];
      CallsHold(tools, front, id, updates);
      var before, sofar := UpsertCalls(tools, front), updates + CallsOf(front, id);
      if block.ToolCallBlock? && block.id == id && block.name != "" {
        CallPartFollows(before, block, sofar);
        UpdateHolds(before, CallPart(before, block), sofar, Called(block.arguments));
        assert sofar + [Called(block.arguments)] == updates + (CallsOf(front, id) + [Called(block.arguments)]);
      } else {
        if block.ToolCallBlock? && block.id != "" && block.name != "" {
          CallPartIs(before, block);
          OtherUpdateHolds(before, CallPart(before, block), id, sofar);
        }
        assert CallsOf(front, id) + [] == CallsOf(front, id);
      }
    }
  }

  lemma {:induction false} CallPartIs(tools: seq<ToolPart>, block: Block)
    requires block.ToolCallBlock?
    ensures CallPart(tools, block).toolCallId == block.id
  {}

  lemma {:induction false} StreamKeepsTools(m: Mapper, event: StreamEvent)
    ensures OnStreamEvent(m, event).0.tools
            == if event.MessageDone? then UpsertCalls(m.tools, event.content) else m.tools
  {
    hide FleetIndex, FleetOf, Without, EndFrames, TextOf, UpsertCalls, AppendFinalText, ImagesOf;
  }

  lemma {:induction false} EventHolds(m: Mapper, event: RunEvent, id: string, updates: seq<Update>)
    requires id != "" && Holds(m.tools, id, updates)
    ensures Holds(OnRunEvent(m, event).0.tools, id, updates + UpdateOf(event, id))
  {
    hide Holds, Upsert, UpsertCalls, CallsOf, OnStreamEvent, AppendFinalText, ImagesOf;
    assert updates + [] == updates;
    match event
    case MessageStarted(content) =>
    case MessageUpdated(content, e) =>
      StreamKeepsTools(m.(content := content), e);
      if e.MessageDone? {
        CallsHold(m.tools, e.content, id, updates);
      }
    case MessageSnapshot(content, errors) => CallsHold(m.tools, content, id, updates);
    case ToolStarted(part) => ToldHolds(m.tools, part, id, updates);
    case ToolEvent(part) => ToldHolds(m.tools, part, id, updates);
  }

  // Over every run: a call has one tool part if an event or a remembered message named it, with the
  // state of the newest update, the newest result that was carried and the first input that was known.
  lemma {:induction false} ToolsAreLatest(events: seq<RunEvent>, id: string)
    requires id != ""
    ensures Holds(RunOf(events).0.tools, id, UpdatesOf(events, id))
  {
    if events != [] {
      var front := events[..|events| - 1];
      ToolsAreLatest(front, id);
      hide Holds, OnRunEvent, UpdateOf;
      EventHolds(RunOf(front).0, events[|events| - 1], id, UpdatesOf(front, id));
    }
  }

  // ----- parts without a call id

  function Anonymous(tools: seq<ToolPart>): seq<ToolPart> {
    if tools == [] then []
    else
      var last := tools[|tools| - 1];
      Anonymous(tools[..|tools| - 1]) + (if last.toolCallId == "" then [last] else [])
  }

  function AnonymousOf(events: seq<RunEvent>): seq<ToolPart> {
    if events == [] then []
    else
      var last := events[|events| - 1];
      AnonymousOf(events[..|events| - 1])
      + (if (last.ToolStarted? || last.ToolEvent?) && last.part.toolCallId == "" then [last.part] else [])
  }

  lemma {:induction false} AnonymousUpdate(tools: seq<ToolPart>, i: nat, part: ToolPart)
    requires i < |tools| && tools[i].toolCallId != "" && part.toolCallId != ""
    ensures Anonymous(tools[i := part]) == Anonymous(tools)
  {
    var front, after := tools[..|tools| - 1], tools[i := part];
    if i == |tools| - 1 {
      assert after[..|after| - 1] == front;
    } else {
      AnonymousUpdate(front, i, part);
      assert after[..|after| - 1] == front[i := part];
    }
  }

  lemma {:induction false} AnonymousUpsert(tools: seq<ToolPart>, next: ToolPart)
    ensures Anonymous(Upsert(tools, next)) == Anonymous(tools) + if next.toolCallId == "" then [next] else []
  {
    var i := FindTool(tools, next.toolCallId);
    if next.toolCallId == "" || i < 0 {
      assert (tools + [next])[..|tools|] == tools;
    } else {
      AnonymousUpdate(tools, i, Merge(tools[i], next));
    }
  }

  lemma {:induction false} AnonymousCalls(tools: seq<ToolPart>, content: seq<Block>)
    ensures Anonymous(UpsertCalls(tools, content)) == Anonymous(tools)
  {
    if content != [] {
      hide Upsert, CallPart, Anonymous;
      var before, block := UpsertCalls(tools, content[..|content| - 1]), content[|content| - 1];
      AnonymousCalls(tools, content[..|content| - 1]);
      if block.ToolCallBlock? && block.id != "" && block.name != "" {
        CallPartIs(before, block);
        AnonymousUpsert(before, CallPart(before, block));
      }
    }
  }

  // Parts without a call id are those of the events without one, as given and in order.
  lemma {:induction false} AnonymousAreKept(events: seq<RunEvent>)
    ensures Anonymous(RunOf(events).0.tools) == AnonymousOf(events)
  {
    if events != [] {
      var front, last := events[..|events| - 1], events[|events| - 1];
      AnonymousAreKept(front);
      AnonymousEvent(RunOf(front).0, last);
      hide OnRunEvent, Anonymous;
    }
  }

  lemma {:induction false} AnonymousEvent(m: Mapper, event: RunEvent)
    ensures Anonymous(OnRunEvent(m, event).0.tools)
            == Anonymous(m.tools)
               + (if (event.ToolStarted? || event.ToolEvent?) && event.part.toolCallId == "" then [event.part] else [])
  {
    hide Upsert, UpsertCalls, Anonymous, OnStreamEvent, AppendFinalText, ImagesOf;
    match event
    case MessageStarted(content) =>
    case MessageUpdated(content, e) =>
      StreamKeepsTools(m.(content := content), e);
      if e.MessageDone? {
        AnonymousCalls(m.tools, e.content);
      }
    case MessageSnapshot(content, errors) => AnonymousCalls(m.tools, content);
    case ToolStarted(part) => AnonymousUpsert(m.tools, part);
    case ToolEvent(part) => AnonymousUpsert(m.tools, part);
  }

  // ----- the text

  // What a run says: deltas in order, and a remembered message's text unless it was said already.
  function Spoken(events: seq<RunEvent>): string {
    if events == [] then ""
    else
      var before, last := Spoken(events[..|events| - 1]), events[|events| - 1];
      if last.MessageUpdated? && last.event.TextArrives? then before + last.event.delta
      else if last.MessageUpdated? && last.event.MessageDone? then Completed(before, Words(last.event.content))
      else if last.MessageSnapshot? then Completed(before, Words(last.content))
      else before
  }

  function Word(block: Block): string {
    if block.TextBlock? then block.text else ""
  }

  function Words(content: seq<Block>): string {
    if content == [] then "" else Word(content[0]) + Words(content[1..])
  }

  // Text that is already at the end is not said again, and a message that repeats everything so far
  // replaces it.
  function Completed(before: string, words: string): string {
    if exists k: nat :: k <= |before| && before[k..] == words then before
    else if |before| <= |words| && words[..|before|] == before then words
    else before + words
  }

  lemma {:induction false} Joined(a: string, b: string, c: string)
    ensures a + (b + c) == a + b + c
  {}

  lemma {:induction false} WordsAt(content: seq<Block>)
    requires content != []
    ensures Words(content) == Word(content[0]) + Words(content[1..])
  {}

  lemma {:induction false} WordsSnoc(content: seq<Block>, block: Block)
    ensures Words(content + [block]) == Words(content) + Word(block)
  {
    var all := content + [block];
    assert Words([]) == "";
    hide Words, Word;
    WordsAt(all);
    if content == [] {
      assert all[1..] == [] && Word(block) + "" == "" + Word(block);
    } else {
      assert all[0] == content[0] && all[1..] == content[1..] + [block];
      WordsSnoc(content[1..], block);
      WordsAt(content);
      Joined(Word(content[0]), Words(content[1..]), Word(block));
    }
  }

  lemma {:induction false} WordsAre(content: seq<Block>)
    ensures TextOfContent(content) == Words(content)
  {
    if content != [] {
      var front, last := content[..|content| - 1], content[|content| - 1];
      WordsAre(front);
      WordsSnoc(front, last);
      assert front + [last] == content;
    }
  }

  lemma {:induction false} CompletedIs(before: string, words: string)
    ensures AppendFinalText(before, words) == Completed(before, words)
  {
    if words == "" {
      assert before[|before|..] == words;
    }
    if k: nat :| k <= |before| && before[k..] == words {
      assert |before| - |words| == k;
    }
  }

  lemma {:induction false} StreamText(m: Mapper, event: StreamEvent)
    ensures OnStreamEvent(m, event).0.text
            == if event.TextArrives? then m.text + event.delta
               else if event.MessageDone? then AppendFinalText(m.text, TextOfContent(event.content)) else m.text
  {
    hide FleetIndex, FleetOf, Without, EndFrames, TextOf, UpsertCalls, AppendFinalText, ImagesOf;
  }

  // The text of a run is what it said.
  lemma {:induction false} TextIsSpoken(events: seq<RunEvent>)
    ensures RunOf(events).0.text == Spoken(events)
  {
    if events != [] {
      var front, last := events[..|events| - 1], events[|events| - 1];
      var m := RunOf(front).0;
      TextIsSpoken(front);
      if last.MessageUpdated? {
        StreamText(m.(content := last.content), last.event);
        if last.event.MessageDone? {
          WordsAre(last.event.content);
          CompletedIs(m.text, Words(last.event.content));
        }
      } else if last.MessageSnapshot? {
        WordsAre(last.content);
        CompletedIs(m.text, Words(last.content));
      }
      hide Upsert, UpsertCalls, OnStreamEvent, AppendFinalText, ImagesOf, Words, Completed, TextOfContent;
    }
  }

  // ----- images

  function Picture(block: Block): seq<string> {
    if block.ImageBlock? then [block.image] else []
  }

  function Pictures(content: seq<Block>): seq<string> {
    if content == [] then [] else Picture(content[0]) + Pictures(content[1..])
  }

  lemma {:induction false} JoinedAll(a: seq<string>, b: seq<string>, c: seq<string>)
    ensures a + (b + c) == a + b + c
  {}

  lemma {:induction false} PicturesAt(content: seq<Block>)
    requires content != []
    ensures Pictures(content) == Picture(content[0]) + Pictures(content[1..])
  {}

  lemma {:induction false} PicturesSnoc(content: seq<Block>, block: Block)
    ensures Pictures(content + [block]) == Pictures(content) + Picture(block)
  {
    var all := content + [block];
    assert Pictures([]) == [];
    hide Pictures, Picture;
    PicturesAt(all);
    if content == [] {
      assert all[1..] == [] && Picture(block) + [] == [] + Picture(block);
    } else {
      assert all[0] == content[0] && all[1..] == content[1..] + [block];
      PicturesSnoc(content[1..], block);
      PicturesAt(content);
      JoinedAll(Picture(content[0]), Pictures(content[1..]), Picture(block));
    }
  }

  lemma {:induction false} PicturesAre(content: seq<Block>)
    ensures ImagesOf(content) == Pictures(content)
  {
    if content != [] {
      var front, last := content[..|content| - 1], content[|content| - 1];
      PicturesAre(front);
      PicturesSnoc(front, last);
      assert front + [last] == content;
    }
  }

  // ----- message ids

  // The frame names this message; only the end of an episode that never began can name none.
  predicate Names(frame: Frame, id: Option<nat>) {
    && frame.messageId in {None, id}
    && (frame.TextDelta? || frame.phase != End ==> frame.messageId.Some?)
  }

  ghost predicate AllName(frames: seq<Frame>, id: Option<nat>) {
    forall f :: f in frames ==> Names(f, id)
  }

  predicate SameOrFirst(before: Option<nat>, after: Option<nat>) {
    before.Some? ==> after == before
  }

  lemma {:induction false} EndFramesName(m: Mapper, active: seq<Active>)
    ensures AllName(EndFrames(m, active), m.messageId)
  {
    if active != [] {
      EndFramesName(m, active[..|active| - 1]);
    }
  }

  lemma {:induction false} CloseAllNames(m: Mapper)
    ensures AllName(CloseAll(m).1, CloseAll(m).0.messageId) && SameOrFirst(m.messageId, CloseAll(m).0.messageId)
  {
    EndFramesName(WithMessage(m), m.active);
    hide EndFrames;
  }

  lemma {:induction false} StreamNames(m: Mapper, event: StreamEvent)
    ensures var (after, emitted) := OnStreamEvent(m, event);
            AllName(emitted, after.messageId) && SameOrFirst(m.messageId, after.messageId)
  {
    hide FleetIndex, FleetOf, Without, TextOf, UpsertCalls, AppendFinalText, ImagesOf, CloseAll, IsActive;
    CloseAllNames(m);
  }

  lemma {:induction false} EventNames(m: Mapper, event: RunEvent)
    ensures var (after, emitted) := OnRunEvent(m, event);
            AllName(emitted, after.messageId) && SameOrFirst(m.messageId, after.messageId)
  {
    hide Upsert, UpsertCalls, AppendFinalText, ImagesOf, CloseAll, OnStreamEvent;
    CloseAllNames(m);
    if event.MessageUpdated? {
      StreamNames(m.(content := event.content), event.event);
    }
  }

  // Over every run all frames name one message, the one that the run ends with.
  lemma {:induction false} FramesNameOneMessage(events: seq<RunEvent>)
    ensures AllName(RunOf(events).1, RunOf(events).0.messageId)
  {
    if events != [] {
      var front, last := events[..|events| - 1], events[|events| - 1];
      var (m, frames) := RunOf(front);
      FramesNameOneMessage(front);
      EventNames(m, last);
      hide OnRunEvent;
    }
  }
}
