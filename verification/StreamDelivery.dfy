/**
 The bridge's replay buffers by session, the resume decision, and the whole delivery protocol:
 one session's buffer, one event stream, and a client that counts what it applies.
 */
module StreamDelivery {
  import opened Wrappers
  import opened Whitespace
  import opened RingReplay

  datatype Resume = Resume(streamGeneration: Option<Generation>, lastEventId: int)

  datatype StreamGrant =
    StreamGrant(streamGeneration: Generation, resumeAccepted: bool, cursorReset: bool, replayFrom: nat)

  predicate Accepts(ch: Channel, capacity: nat, resume: Resume) {
    && resume.lastEventId > 0
    && (resume.streamGeneration.None? || resume.streamGeneration.value == ch.generation)
    && !Overflows(ch, capacity, resume.lastEventId)
  }

  function Grant(ch: Channel, capacity: nat, resume: Resume): StreamGrant {
    if Accepts(ch, capacity, resume) then
      StreamGrant(ch.generation, true, false, resume.lastEventId)
    else if resume.streamGeneration.Some? || resume.lastEventId > 0 then
      StreamGrant(ch.generation, false, true, |ch.log|)
    else
      StreamGrant(ch.generation, false, false, 0)
  }

  // A resume is accepted if and only if it names no generation or the buffer's, its number is one the
  // buffer has given out, and every later frame is still there.
  lemma {:induction false} ResumeIsExact(ch: Channel, capacity: nat, resume: Resume)
    requires capacity >= 1
    ensures var grant, n := Grant(ch, capacity, resume), resume.lastEventId;
            && grant.streamGeneration == ch.generation
            && (grant.resumeAccepted <==> resume.streamGeneration in {None, Some(ch.generation)}
                                          && 0 < n <= |ch.log| <= n + capacity)
            && (grant.cursorReset <==> !grant.resumeAccepted && (resume.streamGeneration.Some? || n > 0))
            && grant.replayFrom == (if grant.resumeAccepted then n else if grant.cursorReset then |ch.log| else 0)
  {}

  function WithBuffer(channels: map<string, Channel>, sessionId: string, uuid: Generation): map<string, Channel> {
    if sessionId in channels then channels else channels[sessionId := Channel(uuid, [])]
  }

  // A settled frame without a session id is given the session's own.
  function Addressed(frame: Frame, sessionId: string): Frame {
    if frame.kind.Done? && Trim(frame.sessionId) == "" then frame.(sessionId := sessionId) else frame
  }

  function Append(ch: Channel, frame: Frame): Channel {
    ch.(log := ch.log + [frame])
  }

  class Bridge {
    const capacity: nat
    var ringBuffers: map<string, RingBuffer>

    ghost predicate Valid()
      reads this, ringBuffers.Values
    {
      && capacity >= 1
      && (forall s :: s in ringBuffers ==> ringBuffers[s].Valid() && ringBuffers[s].capacity == capacity)
      && (forall s, t :: s in ringBuffers && t in ringBuffers && s != t ==> ringBuffers[s] != ringBuffers[t])
    }

    ghost function Channels(): map<string, Channel>
      reads this, ringBuffers.Values
    {
      map s | s in ringBuffers :: ringBuffers[s].State()
    }

    constructor (ringBufferCapacity: nat)
      requires ringBufferCapacity >= 1
      ensures Valid() && Channels() == map[] && capacity == ringBufferCapacity
    {
      capacity := ringBufferCapacity;
      ringBuffers := map[];
    }

    method RingBufferFor(sessionId: string, uuid: Generation) returns (buffer: RingBuffer)
      requires Valid()
      modifies this
      ensures Valid() && Channels() == WithBuffer(old(Channels()), sessionId, uuid)
      ensures sessionId in ringBuffers && buffer == ringBuffers[sessionId]
      ensures forall b :: b in ringBuffers.Values ==> b in old(ringBuffers.Values) || fresh(b)
    {
      hide RingBuffer.Valid;
      if sessionId in ringBuffers {
        buffer := ringBuffers[sessionId];
      } else {
        buffer := new RingBuffer(capacity, uuid);
        ringBuffers := ringBuffers[sessionId := buffer];
      }
    }

    method Dispatch(sessionId: string, frame: Frame, uuid: Generation) returns (sequenced: Frame)
      requires Valid()
      modifies this, ringBuffers.Values
      ensures Valid() && sessionId in Channels()
      ensures var channels := WithBuffer(old(Channels()), sessionId, uuid);
              Channels() == channels[sessionId := Append(channels[sessionId], Addressed(frame, sessionId))]
      ensures var ch := Channels()[sessionId];
              sequenced == Stamp(Addressed(frame, sessionId), ch.generation, |ch.log|)
    {
      var next := if frame.kind.Done? && Trim(frame.sessionId) == "" then frame.(sessionId := sessionId) else frame;
      var buffer := RingBufferFor(sessionId, uuid);
      var entry := PushTo(sessionId, buffer, next);
      sequenced := entry.event;
    }

    // Pushing to one session's buffer leaves the others alone.
    method PushTo(sessionId: string, buffer: RingBuffer, next: Frame) returns (entry: Entry)
      requires Valid() && sessionId in ringBuffers && buffer == ringBuffers[sessionId]
      modifies buffer
      ensures Valid() && ringBuffers == old(ringBuffers)
      ensures Channels() == old(Channels())[sessionId := Append(old(Channels())[sessionId], next)]
      ensures entry == Entry(|Channels()[sessionId].log|,
                             Stamp(next, Channels()[sessionId].generation, |Channels()[sessionId].log|))
    {
      hide RingBuffer.Valid;
      hide Stamp;
      entry := buffer.Push(next);
      forall s | s in ringBuffers && s != sessionId
        ensures ringBuffers[s] != buffer && ringBuffers[s].State() == old(ringBuffers[s].State())
        ensures ringBuffers[s].Valid()
      {}
      assert Channels().Keys == old(Channels()).Keys;
    }

    method Drop(sessionId: string)
      requires Valid()
      modifies this
      ensures Valid() && Channels() == old(Channels()) - {sessionId}
    {
      ringBuffers := ringBuffers - {sessionId};
    }

    method OpenSessionStream(sessionId: string, resume: Resume, uuid: Generation) returns (grant: StreamGrant)
      requires Valid()
      modifies this
      ensures Valid() && Channels() == WithBuffer(old(Channels()), sessionId, uuid)
      ensures grant == Grant(Channels()[sessionId], capacity, resume)
      ensures var ch, n := Channels()[sessionId], resume.lastEventId;
              && grant.streamGeneration == ch.generation
              && (grant.resumeAccepted <==> resume.streamGeneration in {None, Some(ch.generation)}
                                            && 0 < n <= |ch.log| <= n + capacity)
              && (grant.cursorReset <==> !grant.resumeAccepted && (resume.streamGeneration.Some? || n > 0))
              && grant.replayFrom == (if grant.resumeAccepted then n else if grant.cursorReset then |ch.log| else 0)
    {
      hide EntriesAfter;
      var buffer := RingBufferFor(sessionId, uuid);
      var requestedCursor := if resume.lastEventId > 0 then resume.lastEventId else 0;
      var generationProvided := resume.streamGeneration.Some?;
      var generationMatches := !generationProvided || resume.streamGeneration.value == buffer.generation;
      var latest := buffer.LatestSequence();
      var cursorOverflowed := false;
      if generationMatches && requestedCursor > 0 {
        var replayed;
        replayed, cursorOverflowed := buffer.ReplaySince(requestedCursor);
      }
      var cursorInRange := requestedCursor == 0 || requestedCursor <= latest;
      var canResume := generationMatches && requestedCursor > 0 && cursorInRange && !cursorOverflowed;
      var cursorReset := (generationProvided || requestedCursor > 0) && !canResume;
      var replayFrom := if canResume then requestedCursor else if cursorReset then latest else 0;
      grant := StreamGrant(buffer.generation, canResume, cursorReset, replayFrom);
    }
  }

  // ----- the client

  // A page that follows a session. While a recovery is active, the frames after `cursor` are applied
  // in order, and `needsSnapshot` says that this failed. Otherwise frames are shown as they come.
  // `lastEventId` and `streamGeneration` are stored for the next connection; `applied` are the frames
  // taken, since `base` while a recovery is active; `loads` counts the orders to load the session.
  datatype Client = Client(active: bool, cursor: Option<Cursor>, needsSnapshot: bool,
                           lastEventId: nat, streamGeneration: Option<Generation>,
                           loads: nat, base: nat, applied: seq<Frame>)

  datatype Message = Connected(generation: Generation, cursorReset: bool) | Resync(id: nat) | Event(frame: Frame)

  // What the page is doing when a message arrives: a turn of its own is running, or applying fails.
  datatype Page = Page(busy: bool, throws: bool)

  const QUIET := Page(false, false)

  function Greet(c: Client, generation: Generation, cursorReset: bool): Client {
    var bound :=
      if c.active && c.cursor.Some? && c.cursor.value.generation != generation then c.(needsSnapshot := true)
      else if c.cursor.None? || c.cursor.value.generation != generation then
        var from := if cursorReset then 0 else c.lastEventId;
        c.(cursor := Some(Cursor(generation, from)), base := from)
      else c;
    var named := bound.(streamGeneration := Some(generation));
    if !cursorReset then named
    else if c.active then named.(needsSnapshot := true)
    else named.(lastEventId := 0, cursor := Some(Cursor(generation, 0)))
  }

  // In a recovery each frame must be the next one.
  function Apply(c: Client, frame: Frame, throws: bool): Client {
    if frame.eventCursor.None? || c.needsSnapshot then c.(needsSnapshot := true)
    else
      var at := frame.eventCursor.value;
      if c.cursor.Some? && c.cursor.value.generation != at.generation then c.(needsSnapshot := true)
      else if c.cursor.Some? && at.sequence <= c.cursor.value.sequence then c
      else if c.cursor.Some? && at.sequence != c.cursor.value.sequence + 1 then c.(needsSnapshot := true)
      else if throws then c.(needsSnapshot := true)
      else c.(cursor := Some(at), lastEventId := at.sequence, streamGeneration := Some(at.generation),
              base := if c.cursor.Some? then c.base else if at.sequence == 0 then 0 else at.sequence - 1,
              applied := c.applied + [frame])
  }

  // Outside a recovery nothing checks the order; the number is stored.
  function Store(c: Client, sequence: nat): Client {
    if sequence == 0 then c
    else c.(lastEventId := sequence,
            cursor := if c.streamGeneration.Some? then Some(Cursor(c.streamGeneration.value, sequence)) else c.cursor)
  }

  function Receive(c: Client, m: Message, page: Page): Client {
    match m
    case Connected(generation, cursorReset) => Greet(c, generation, cursorReset)
    case Resync(id) =>
      if c.active then c.(needsSnapshot := true)
      else if page.busy then c
      else Store(c.(loads := c.loads + 1), id)
    case Event(frame) =>
      if c.active then Apply(c, frame, page.throws)
      else if page.busy || frame.eventCursor.None? then c
      else Store(c.(applied := c.applied + [frame]), frame.eventCursor.value.sequence)
  }

  function Feed(c: Client, wire: seq<Message>): Client
    decreases |wire|
  {
    if wire == [] then c else Feed(Receive(c, wire[0], QUIET), wire[1..])
  }

  lemma {:induction false} FeedConcat(c: Client, a: seq<Message>, b: seq<Message>)
    ensures Feed(c, a + b) == Feed(Feed(c, a), b)
    decreases |a|
  {
    hide Receive;
    if a == [] {
      assert a + b == b;
    } else {
      assert (a + b)[1..] == a[1..] + b;
      FeedConcat(Receive(c, a[0], QUIET), a[1..], b);
    }
  }

  lemma {:induction false} FeedOne(c: Client, m: Message)
    ensures Feed(c, [m]) == Receive(c, m, QUIET)
  {
    assert [m][1..] == [];
  }

  // ----- what is written

  // A first replay leaves out questions that are answered.
  predicate Withheld(frame: Frame, unanswered: Option<set<string>>) {
    && unanswered.Some? && frame.kind.Question?
    && (frame.kind.toolCallId.None? || frame.kind.toolCallId.value !in unanswered.value)
  }

  function Written(entries: seq<Entry>, unanswered: Option<set<string>>): seq<Frame> {
    if entries == [] then []
    else
      (if Withheld(entries[0].event, unanswered) then [] else [entries[0].event]) + Written(entries[1..], unanswered)
  }

  function AsEvents(frames: seq<Frame>): seq<Message> {
    if frames == [] then [] else [Event(frames[0])] + AsEvents(frames[1..])
  }

  // `unanswered` are the questions still open when a first replay was written, `since` how many
  // frames there were then. `steady`: opened outside a recovery, and never read during a turn.
  datatype Connection =
    Connection(generation: Generation, liveCursor: nat, wire: seq<Message>,
               unanswered: Option<set<string>>, since: nat, steady: bool)

  // Write the entries after the live cursor, or a resync notice when some are gone.
  function Flush(conn: Connection, ch: Channel, capacity: nat, unanswered: Option<set<string>>): Connection {
    if Overflows(ch, capacity, conn.liveCursor) || conn.liveCursor > |ch.log|
    then conn.(wire := conn.wire + [Resync(|ch.log|)], liveCursor := |ch.log|)
    else conn.(wire := conn.wire + AsEvents(Written(EntriesAfter(ch, conn.liveCursor), unanswered)),
               liveCursor := |ch.log|)
  }

  // A recovery asks from its own cursor, otherwise the stored one counts.
  function Asked(c: Client): Resume {
    if c.active && c.cursor.Some? then Resume(Some(c.cursor.value.generation), c.cursor.value.sequence)
    else Resume(c.streamGeneration, c.lastEventId)
  }

  function Hello(grant: StreamGrant): seq<Message> {
    [Connected(grant.streamGeneration, grant.cursorReset)]
    + (if grant.cursorReset then [Resync(grant.replayFrom)] else [])
  }

  function Filter(grant: StreamGrant, unanswered: set<string>): Option<set<string>> {
    if grant.replayFrom == 0 && !grant.cursorReset then Some(unanswered) else None
  }

  function Opened(ch: Channel, c: Client, capacity: nat, unanswered: set<string>): Connection {
    var grant := Grant(ch, capacity, Asked(c));
    var filter := Filter(grant, unanswered);
    Flush(Connection(ch.generation, grant.replayFrom, Hello(grant), filter, |ch.log|, !c.active), ch, capacity, filter)
  }

  // ----- the system

  datatype System = System(
    channel: Option<Channel>,
    retired: map<Generation, seq<Frame>>,   // the logs of dropped buffers
    connection: Option<Connection>,
    client: Client)

  datatype Step =
    | Dispatch(frame: Frame, uuid: Generation)
    | Drop
    | Connect(uuid: Generation, unanswered: set<string>)
    | Deliver(page: Page)
    | Disconnect
    | Posted(cursor: Cursor)               // a turn's own response carries a frame
    | Arm                                  // a recovery begins and reconnects
    | Release                              // it is over
    | Cancel

  predicate Unused(sys: System, generation: Generation) {
    generation !in sys.retired && (sys.channel.Some? ==> sys.channel.value.generation != generation)
  }

  // A new buffer draws an unused generation; a turn's response is read outside recoveries.
  predicate Possible(sys: System, step: Step) {
    match step
    case Dispatch(_, uuid) => sys.channel.Some? || Unused(sys, uuid)
    case Connect(uuid, _) => sys.channel.Some? || Unused(sys, uuid)
    case Posted(_) => !sys.client.active
    case _ => true
  }

  function Armed(c: Client): Client {
    c.(active := true, needsSnapshot := c.cursor.None?, applied := [],
       base := if c.cursor.Some? then c.cursor.value.sequence else 0)
  }

  function Delivered(sys: System, page: Page): System
    requires sys.connection.Some? && sys.connection.value.wire != []
  {
    var conn := sys.connection.value;
    sys.(client := Receive(sys.client, conn.wire[0], page),
         connection := Some(conn.(wire := conn.wire[1..], steady := conn.steady && !page.busy)))
  }

  function Next(sys: System, step: Step, capacity: nat): System {
    match step
    case Dispatch(frame, uuid) =>
      var ch := Append(sys.channel.GetOr(Channel(uuid, [])), frame);
      sys.(channel := Some(ch),
           connection := if sys.connection.None? then None else Some(Flush(sys.connection.value, ch, capacity, None)))
    case Drop =>
      if sys.channel.None? then sys
      else sys.(channel := None, retired := sys.retired[sys.channel.value.generation := sys.channel.value.log])
    case Connect(uuid, unanswered) =>
      var ch := sys.channel.GetOr(Channel(uuid, []));
      sys.(channel := Some(ch), connection := Some(Opened(ch, sys.client, capacity, unanswered)))
    case Deliver(page) =>
      if sys.connection.None? || sys.connection.value.wire == [] then sys else Delivered(sys, page)
    case Disconnect => sys.(connection := None)
    case Posted(cursor) => sys.(client := sys.client.(cursor := Some(cursor)))
    case Arm => sys.(client := Armed(sys.client), connection := None)
    case Release => sys.(client := sys.client.(active := false))
    case Cancel => sys.(client := sys.client.(active := false, cursor := None))
  }

  // Any page outside a recovery, whatever it stored.
  predicate Initial(sys: System) {
    && sys.connection.None? && !sys.client.active
    && (sys.channel.Some? ==> sys.channel.value.generation !in sys.retired)
  }

  ghost predicate IsRun(states: seq<System>, steps: seq<Step>, capacity: nat) {
    && |states| == |steps| + 1 && Initial(states[0])
    && forall i :: 0 <= i < |steps| ==>
          Possible(states[i], steps[i]) && states[i + 1] == Next(states[i], steps[i], capacity)
  }

  // Everything ever dispatched under a generation.
  ghost predicate Known(sys: System, generation: Generation) {
    generation in sys.retired || (sys.channel.Some? && sys.channel.value.generation == generation)
  }

  ghost function LogOf(sys: System, generation: Generation): seq<Frame> {
    if sys.channel.Some? && sys.channel.value.generation == generation then sys.channel.value.log
    else if generation in sys.retired then sys.retired[generation]
    else []
  }

  // The frames of a generation from `from` up to `to`, as a client sees them.
  ghost function Slice(log: seq<Frame>, generation: Generation, from: nat, to: nat): (r: seq<Frame>)
    requires from <= to <= |log|
    ensures |r| == to - from
  {
    seq(to - from, i requires 0 <= i < to - from => Stamp(log[from + i], generation, from + i + 1))
  }

  // A recovery has applied every frame since it began exactly once and in order.
  ghost predicate ExactlyOnce(sys: System) {
    var c := sys.client;
    c.active ==>
      if c.cursor.None? then c.applied == [] && c.needsSnapshot
      else
        var at := c.cursor.value;
        && at.sequence == c.base + |c.applied|
        && (c.applied != [] ==>
              && Known(sys, at.generation) && at.sequence <= |LogOf(sys, at.generation)|
              && c.applied == Slice(LogOf(sys, at.generation), at.generation, c.base, at.sequence))
  }

  ghost predicate Genuine(sys: System, m: Message) {
    match m
    case Connected(generation, _) => Known(sys, generation)
    case Resync(_) => true
    case Event(frame) =>
      frame.eventCursor.Some? &&
      var at := frame.eventCursor.value; var log := LogOf(sys, at.generation);
      Known(sys, at.generation) && 1 <= at.sequence <= |log|
      && frame == Stamp(log[at.sequence - 1], at.generation, at.sequence)
  }

  ghost predicate AllGenuine(sys: System, wire: seq<Message>) {
    forall m :: m in wire ==> Genuine(sys, m)
  }

  // The stream's own buffer is the session's.
  predicate Live(sys: System) {
    sys.channel.Some? && sys.connection.Some? && sys.connection.value.generation == sys.channel.value.generation
  }

  // A recovery that receives what is on the wire ends at the last frame, or needs a snapshot.
  ghost predicate RecoveryInSync(ch: Channel, conn: Connection, c: Client) {
    && conn.liveCursor == |ch.log|
    && var end := Feed(c, conn.wire); end.needsSnapshot || end.cursor == Some(Cursor(ch.generation, |ch.log|))
  }

  // The frame is left out of the first replay.
  predicate Skipped(ch: Channel, j: nat, unanswered: Option<set<string>>, since: nat)
    requires j < |ch.log|
  {
    j < since && Withheld(ch.log[j], unanswered)
  }

  ghost predicate AllSkipped(ch: Channel, from: nat, to: nat, unanswered: Option<set<string>>, since: nat)
    requires to <= |ch.log|
  {
    forall j :: from <= j < to ==> Skipped(ch, j, unanswered, since)
  }

  // The frames after a number, without the ones left out.
  function Missing(ch: Channel, from: nat, unanswered: Option<set<string>>, since: nat): seq<Frame>
    requires from <= |ch.log|
    decreases |ch.log| - from
  {
    if from == |ch.log| then []
    else
      (if Skipped(ch, from, unanswered, since) then [] else [Stamp(ch.log[from], ch.generation, from + 1)])
      + Missing(ch, from + 1, unanswered, since)
  }

  // The number stored after messages that are no events.
  function IdStep(id: nat, m: Message): nat {
    match m
    case Connected(_, cursorReset) => if cursorReset then 0 else id
    case Resync(n) => if n == 0 then id else n
    case Event(_) => id
  }

  function IdAfter(id: nat, head: seq<Message>): nat
    decreases |head|
  {
    if head == [] then id else IdAfter(IdStep(id, head[0]), head[1..])
  }

  ghost predicate Ahead(ch: Channel, conn: Connection, c: Client, h: nat) {
    && h <= |conn.wire| && (forall i :: 0 <= i < h ==> !conn.wire[i].Event?)
    && IdAfter(c.lastEventId, conn.wire[..h]) <= |ch.log|
    && conn.wire[h..] == AsEvents(Missing(ch, IdAfter(c.lastEventId, conn.wire[..h]), conn.unanswered, conn.since))
  }

  // Outside a recovery: after any greeting and notice, what is on the wire is exactly what is missing.
  ghost predicate PageInSync(ch: Channel, conn: Connection, c: Client) {
    conn.liveCursor == |ch.log| && conn.since <= |ch.log| && exists h :: Ahead(ch, conn, c, h)
  }

  ghost predicate Invariant(sys: System) {
    && (sys.channel.Some? ==> sys.channel.value.generation !in sys.retired)
    && ExactlyOnce(sys)
    && (sys.connection.Some? ==>
          && Known(sys, sys.connection.value.generation) && AllGenuine(sys, sys.connection.value.wire)
          && (sys.client.active ==> !sys.connection.value.steady))
    && (Live(sys) && sys.client.active ==> RecoveryInSync(sys.channel.value, sys.connection.value, sys.client))
    && (Live(sys) && sys.connection.value.steady ==>
          PageInSync(sys.channel.value, sys.connection.value, sys.client))
  }

  // ----- sequences

  lemma {:induction false} SliceFront(log: seq<Frame>, generation: Generation, from: nat, to: nat)
    requires from < to <= |log|
    ensures Slice(log, generation, from, to)
            == [Stamp(log[from], generation, from + 1)] + Slice(log, generation, from + 1, to)
  {}

  lemma {:induction false} SliceSnoc(log: seq<Frame>, generation: Generation, from: nat, to: nat)
    requires from <= to < |log|
    ensures Slice(log, generation, from, to + 1)
            == Slice(log, generation, from, to) + [Stamp(log[to], generation, to + 1)]
  {}

  lemma {:induction false} AsEventsConcat(a: seq<Frame>, b: seq<Frame>)
    ensures AsEvents(a + b) == AsEvents(a) + AsEvents(b)
  {
    if a == [] {
      assert a + b == b;
    } else {
      assert (a + b)[1..] == a[1..] + b;
      AsEventsConcat(a[1..], b);
    }
  }

  lemma {:induction false} EventIsOf(frames: seq<Frame>, m: Message)
    ensures m in AsEvents(frames) <==> m.Event? && m.frame in frames
  {
    if frames != [] {
      EventIsOf(frames[1..], m);
      assert frames == [frames[0]] + frames[1..];
    }
  }

  // A flush writes what is missing after the live cursor.
  lemma {:induction false} WrittenIsMissing(ch: Channel, from: nat, unanswered: Option<set<string>>)
    requires from <= |ch.log|
    ensures Written(EntriesAfter(ch, from), unanswered) == Missing(ch, from, unanswered, |ch.log|)
    decreases |ch.log| - from
  {
    if from < |ch.log| {
      assert EntriesAfter(ch, from)[1..] == EntriesAfter(ch, from + 1);
      assert EntriesAfter(ch, from)[0].event == Stamp(ch.log[from], ch.generation, from + 1);
      WrittenIsMissing(ch, from + 1, unanswered);
    }
  }

  // Nothing is left out without a filter.
  lemma {:induction false} MissingIsSlice(ch: Channel, from: nat, since: nat)
    requires from <= |ch.log|
    ensures Missing(ch, from, None, since) == Slice(ch.log, ch.generation, from, |ch.log|)
    decreases |ch.log| - from
  {
    if from < |ch.log| {
      MissingIsSlice(ch, from + 1, since);
      SliceFront(ch.log, ch.generation, from, |ch.log|);
    }
  }

  // What is dispatched after the replay is always missing.
  lemma {:induction false} MissingSnoc(ch: Channel, frame: Frame, from: nat, unanswered: Option<set<string>>,
                                       since: nat)
    requires from <= |ch.log| && since <= |ch.log|
    ensures Missing(Append(ch, frame), from, unanswered, since)
            == Missing(ch, from, unanswered, since) + [Stamp(frame, ch.generation, |ch.log| + 1)]
    decreases |ch.log| - from
  {
    var after := Append(ch, frame);
    if from < |ch.log| {
      MissingSnoc(ch, frame, from + 1, unanswered, since);
      assert after.log[from] == ch.log[from];
    } else {
      assert Missing(after, |ch.log| + 1, unanswered, since) == [];
    }
  }

  lemma {:induction false} MissingIsOfLog(ch: Channel, from: nat, unanswered: Option<set<string>>, since: nat,
                                          frame: Frame)
    requires from <= |ch.log| && frame in Missing(ch, from, unanswered, since)
    ensures exists k :: from <= k < |ch.log| && frame == Stamp(ch.log[k], ch.generation, k + 1)
    decreases |ch.log| - from
  {
    if frame in Missing(ch, from + 1, unanswered, since) {
      MissingIsOfLog(ch, from + 1, unanswered, since, frame);
    }
  }

  // ----- a recovery receives

  lemma {:induction false} StaysTold(c: Client, wire: seq<Message>)
    requires c.active && c.needsSnapshot
    ensures Feed(c, wire).needsSnapshot && Feed(c, wire).active
    decreases |wire|
  {
    if wire != [] {
      StaysTold(Receive(c, wire[0], QUIET), wire[1..]);
    }
  }

  lemma {:induction false} StaysActive(c: Client, wire: seq<Message>)
    ensures Feed(c, wire).active == c.active
    decreases |wire|
  {
    if wire != [] {
      StaysActive(Receive(c, wire[0], QUIET), wire[1..]);
    }
  }

  // The next event is applied.
  lemma {:induction false} ApplyNext(c: Client, ch: Channel, at: nat)
    requires c.active && at < |ch.log| && !c.needsSnapshot && c.cursor == Some(Cursor(ch.generation, at))
    ensures var m := Event(Stamp(ch.log[at], ch.generation, at + 1)); var after := Receive(c, m, QUIET);
            && after.active && !after.needsSnapshot && after.cursor == Some(Cursor(ch.generation, at + 1))
            && after.applied == c.applied + [m.frame]
  {}

  // From its cursor a recovery applies everything after it.
  lemma {:induction false} FeedRecovery(c: Client, ch: Channel, from: nat)
    requires c.active && from <= |ch.log| && !c.needsSnapshot && c.cursor == Some(Cursor(ch.generation, from))
    ensures var end := Feed(c, AsEvents(Slice(ch.log, ch.generation, from, |ch.log|)));
            && end.active && !end.needsSnapshot && end.cursor == Some(Cursor(ch.generation, |ch.log|))
            && end.applied == c.applied + Slice(ch.log, ch.generation, from, |ch.log|)
    decreases |ch.log| - from
  {
    var rest := Slice(ch.log, ch.generation, from, |ch.log|);
    if from < |ch.log| {
      SliceFront(ch.log, ch.generation, from, |ch.log|);
      ApplyNext(c, ch, from);
      hide Receive, Slice, Stamp;
      var after := Receive(c, Event(rest[0]), QUIET);
      FeedRecovery(after, ch, from + 1);
      assert rest[1..] == Slice(ch.log, ch.generation, from + 1, |ch.log|);
      assert c.applied + [rest[0]] + rest[1..] == c.applied + rest;
    } else {
      assert c.applied + rest == c.applied;
    }
  }

  // ----- a page outside a recovery receives

  lemma {:induction false} ShowNext(c: Client, frame: Frame, sequence: nat)
    requires !c.active && sequence > 0 && frame.eventCursor.Some? && frame.eventCursor.value.sequence == sequence
    ensures var after := Receive(c, Event(frame), QUIET);
            && !after.active && after.lastEventId == sequence && after.applied == c.applied + [frame]
            && after.loads == c.loads && after.streamGeneration == c.streamGeneration
  {}

  lemma {:induction false} MissingIsStamped(ch: Channel, from: nat, unanswered: Option<set<string>>, since: nat)
    requires from <= |ch.log|
    ensures forall i :: 0 <= i < |Missing(ch, from, unanswered, since)| ==>
              Missing(ch, from, unanswered, since)[i].eventCursor.Some?
    decreases |ch.log| - from
  {
    if from < |ch.log| {
      MissingIsStamped(ch, from + 1, unanswered, since);
    }
  }

  lemma {:induction false} MissingStep(ch: Channel, from: nat, unanswered: Option<set<string>>, since: nat)
    requires from < |ch.log|
    ensures Missing(ch, from, unanswered, since)
            == if Skipped(ch, from, unanswered, since) then Missing(ch, from + 1, unanswered, since)
               else [Stamp(ch.log[from], ch.generation, from + 1)] + Missing(ch, from + 1, unanswered, since)
  {}

  lemma {:induction false} FeedEvent(c: Client, frame: Frame, rest: seq<Frame>)
    ensures Feed(c, AsEvents([frame] + rest)) == Feed(Receive(c, Event(frame), QUIET), AsEvents(rest))
  {
    hide Receive;
    assert ([frame] + rest)[1..] == rest;
    var wire := AsEvents([frame] + rest);
    assert wire == [Event(frame)] + AsEvents(rest);
    assert wire[1..] == AsEvents(rest);
  }

  // The number of the last of some frames.
  function LastNumber(frames: seq<Frame>, id: nat): nat {
    if frames == [] || frames[|frames| - 1].eventCursor.None? then id
    else frames[|frames| - 1].eventCursor.value.sequence
  }

  // The page ends behind nothing but frames that were left out.
  ghost predicate Caught(c: Client, end: Client, ch: Channel, frames: seq<Frame>, unanswered: Option<set<string>>,
                         since: nat)
  {
    && !end.active && end.loads == c.loads && end.streamGeneration == c.streamGeneration
    && end.applied == c.applied + frames && end.lastEventId == LastNumber(frames, c.lastEventId)
    && end.lastEventId <= |ch.log| && AllSkipped(ch, end.lastEventId, |ch.log|, unanswered, since)
  }

  lemma {:induction false} CaughtOne(c: Client, after: Client, end: Client, ch: Channel, frame: Frame, rest: seq<Frame>,
                                     unanswered: Option<set<string>>, since: nat)
    requires Caught(after, end, ch, rest, unanswered, since) && after.applied == c.applied + [frame]
    requires after.loads == c.loads && after.streamGeneration == c.streamGeneration
    requires frame.eventCursor.Some? && after.lastEventId == frame.eventCursor.value.sequence
    requires forall i :: 0 <= i < |rest| ==> rest[i].eventCursor.Some?
    ensures Caught(c, end, ch, [frame] + rest, unanswered, since)
  {
    assert c.applied + [frame] + rest == c.applied + ([frame] + rest);
  }

  // It takes what is written.
  lemma {:induction false} FeedPage(c: Client, ch: Channel, from: nat, unanswered: Option<set<string>>, since: nat)
    requires !c.active && c.lastEventId <= from <= |ch.log|
    requires AllSkipped(ch, c.lastEventId, from, unanswered, since)
    ensures Caught(c, Feed(c, AsEvents(Missing(ch, from, unanswered, since))), ch, Missing(ch, from, unanswered, since),
                   unanswered, since)
    decreases |ch.log| - from
  {
    if from == |ch.log| {
      assert c.applied + [] == c.applied;
    } else {
      hide Receive, Missing, Skipped, Stamp, Caught, Feed, AsEvents;
      MissingStep(ch, from, unanswered, since);
      if Skipped(ch, from, unanswered, since) {
        FeedPage(c, ch, from + 1, unanswered, since);
      } else {
        var frame := Stamp(ch.log[from], ch.generation, from + 1);
        var after, rest := Receive(c, Event(frame), QUIET), Missing(ch, from + 1, unanswered, since);
        StampIs(ch.log[from], ch.generation, from + 1);
        ShowNext(c, frame, from + 1);
        FeedPage(after, ch, from + 1, unanswered, since);
        FeedEvent(c, frame, rest);
        MissingIsStamped(ch, from + 1, unanswered, since);
        CaughtOne(c, after, Feed(after, AsEvents(rest)), ch, frame, rest, unanswered, since);
      }
    }
  }

  lemma {:induction false} StampIs(frame: Frame, generation: Generation, sequence: nat)
    ensures Stamp(frame, generation, sequence).eventCursor == Some(Cursor(generation, sequence))
  {}

  lemma {:induction false} FeedHead(c: Client, head: seq<Message>)
    requires !c.active && forall i :: 0 <= i < |head| ==> !head[i].Event?
    ensures !Feed(c, head).active && Feed(c, head).lastEventId == IdAfter(c.lastEventId, head)
    ensures Feed(c, head).applied == c.applied
    decreases |head|
  {
    if head != [] {
      FeedHead(Receive(c, head[0], QUIET), head[1..]);
    }
  }

  // ----- opening a stream

  function Tail(ch: Channel, grant: StreamGrant, capacity: nat, filter: Option<set<string>>): seq<Message>
    requires grant.replayFrom <= |ch.log|
  {
    if Overflows(ch, capacity, grant.replayFrom) then [Resync(|ch.log|)]
    else AsEvents(Missing(ch, grant.replayFrom, filter, |ch.log|))
  }

  lemma {:induction false} OpenedIs(ch: Channel, c: Client, capacity: nat, unanswered: set<string>)
    ensures var grant := Grant(ch, capacity, Asked(c)); var conn := Opened(ch, c, capacity, unanswered);
            && grant.replayFrom <= |ch.log| && grant.streamGeneration == ch.generation
            && conn == Connection(ch.generation, |ch.log|, Hello(grant) + Tail(ch, grant, capacity, conn.unanswered),
                                  Filter(grant, unanswered), |ch.log|, !c.active)
  {
    var grant := Grant(ch, capacity, Asked(c));
    WrittenIsMissing(ch, grant.replayFrom, Filter(grant, unanswered));
    hide Written, Missing, AsEvents, Hello, Filter;
  }

  // What is granted to a recovery: its own place, or a reset.
  lemma {:induction false} RecoveryGrant(ch: Channel, c: Client, capacity: nat)
    requires capacity >= 1 && c.active && c.cursor.Some?
    ensures var grant := Grant(ch, capacity, Asked(c)); var at := c.cursor.value;
            if Accepts(ch, capacity, Asked(c))
            then !grant.cursorReset && 0 < grant.replayFrom == at.sequence <= |ch.log| && at.generation == ch.generation
                 && !Overflows(ch, capacity, at.sequence)
            else grant.cursorReset
  {}

  // A recovery that does not need a snapshot receives exactly the frames it missed, or is told that
  // it needs one; nothing is left out of its replay.
  lemma {:induction false} OpenedBringsUpToDate(ch: Channel, c: Client, capacity: nat, unanswered: set<string>)
    requires capacity >= 1 && c.active && c.cursor.Some? && !c.needsSnapshot
    ensures Opened(ch, c, capacity, unanswered).unanswered == None
    ensures var end := Feed(c, Opened(ch, c, capacity, unanswered).wire); var at := c.cursor.value;
            if Accepts(ch, capacity, Asked(c))
            then at.sequence <= |ch.log| && !end.needsSnapshot
                 && end.cursor == Some(Cursor(ch.generation, |ch.log|))
                 && end.applied == c.applied + Slice(ch.log, ch.generation, at.sequence, |ch.log|)
            else end.needsSnapshot
  {
    var grant := Grant(ch, capacity, Asked(c));
    OpenedIs(ch, c, capacity, unanswered);
    RecoveryGrant(ch, c, capacity);
    var tail := Tail(ch, grant, capacity, None);
    FeedConcat(c, Hello(grant), tail);
    if grant.cursorReset {
      assert Feed(c, Hello(grant)).needsSnapshot && Feed(c, Hello(grant)).active by { FeedReset(c, grant); }
      StaysTold(Feed(c, Hello(grant)), tail);
    } else {
      FeedOne(c, Hello(grant)[0]);
      MissingIsSlice(ch, grant.replayFrom, |ch.log|);
      hide Missing, Slice, AsEvents, Overflows;
      FeedRecovery(Feed(c, Hello(grant)), ch, grant.replayFrom);
    }
  }

  lemma {:induction false} FeedReset(c: Client, grant: StreamGrant)
    requires c.active && grant.cursorReset
    ensures Feed(c, Hello(grant)).needsSnapshot && Feed(c, Hello(grant)).active
  {
    assert Hello(grant)[1..] == [Resync(grant.replayFrom)];
    FeedOne(Receive(c, Hello(grant)[0], QUIET), Resync(grant.replayFrom));
  }

  lemma {:induction false} PageGrant(ch: Channel, c: Client, capacity: nat)
    requires capacity >= 1 && !c.active
    ensures var grant := Grant(ch, capacity, Asked(c));
            if Accepts(ch, capacity, Asked(c))
            then !grant.cursorReset && 0 < grant.replayFrom == c.lastEventId <= |ch.log|
                 && !Overflows(ch, capacity, c.lastEventId)
            else if c.streamGeneration.None? && c.lastEventId == 0
            then !grant.cursorReset && grant.replayFrom == 0 && (Overflows(ch, capacity, 0) <==> |ch.log| > capacity)
            else grant.cursorReset && grant.replayFrom == |ch.log| && !Overflows(ch, capacity, |ch.log|)
  {}

  // What a greeting does to a page outside a recovery.
  lemma {:induction false} FeedHello(c: Client, grant: StreamGrant)
    requires !c.active
    ensures var after := Feed(c, Hello(grant));
            && !after.active && after.streamGeneration == Some(grant.streamGeneration) && after.applied == c.applied
            && after.loads == c.loads + (if grant.cursorReset then 1 else 0)
            && after.lastEventId == (if grant.cursorReset then grant.replayFrom else c.lastEventId)
  {
    if grant.cursorReset {
      assert Hello(grant)[1..] == [Resync(grant.replayFrom)];
      FeedOne(Receive(c, Hello(grant)[0], QUIET), Resync(grant.replayFrom));
    } else {
      FeedOne(c, Connected(grant.streamGeneration, false));
    }
  }

  predicate IsAnswered(frame: Frame, unanswered: set<string>) {
    frame.kind.Question? && (frame.kind.toolCallId.None? || frame.kind.toolCallId.value !in unanswered)
  }

  // A first replay shows every frame but answered questions, in order.
  lemma {:induction false} FirstReplayIs(ch: Channel, from: nat, unanswered: set<string>)
    requires from <= |ch.log|
    ensures var shown := Missing(ch, from, Some(unanswered), |ch.log|);
            && (forall k :: from <= k < |ch.log| ==>
                  (Stamp(ch.log[k], ch.generation, k + 1) in shown <==> !IsAnswered(ch.log[k], unanswered)))
            && (forall i :: 0 <= i < |shown| ==> shown[i].eventCursor.Some?
                                                 && from < shown[i].eventCursor.value.sequence <= |ch.log|)
            && (forall i, j :: 0 <= i < j < |shown| ==>
                  shown[i].eventCursor.value.sequence < shown[j].eventCursor.value.sequence)
    decreases |ch.log| - from
  {
    if from < |ch.log| {
      FirstReplayIs(ch, from + 1, unanswered);
      var rest := Missing(ch, from + 1, Some(unanswered), |ch.log|);
      var here := Stamp(ch.log[from], ch.generation, from + 1);
      assert here !in rest;
      MissingStep(ch, from, Some(unanswered), |ch.log|);
      hide Missing;
    }
  }

  // A frame that cannot be applied stops the recovery and is not counted.
  lemma {:induction false} FailedFrameStops(c: Client, ch: Channel, at: nat, busy: bool)
    requires c.active && at < |ch.log| && c.cursor == Some(Cursor(ch.generation, at))
    ensures var after := Receive(c, Event(Stamp(ch.log[at], ch.generation, at + 1)), Page(busy, true));
            after.needsSnapshot && after.applied == c.applied && after.cursor == c.cursor
  {}

  // A page outside a recovery: accepted, it is shown exactly what it missed. With nothing stored it is
  // shown every frame but answered questions, if nothing was evicted, and no hole stops it. Otherwise
  // it is told to load the session, once, and stands at the end.
  lemma {:induction false} OpenedShowsPage(ch: Channel, c: Client, capacity: nat, unanswered: set<string>)
    requires capacity >= 1 && !c.active
    ensures var end := Feed(c, Opened(ch, c, capacity, unanswered).wire);
            && !end.active && end.streamGeneration == Some(ch.generation)
            && if Accepts(ch, capacity, Asked(c))
               then c.lastEventId <= |ch.log| && end.loads == c.loads && end.lastEventId == |ch.log|
                    && end.applied == c.applied + Slice(ch.log, ch.generation, c.lastEventId, |ch.log|)
               else if c.streamGeneration.None? && c.lastEventId == 0 && |ch.log| <= capacity
               then var shown := Missing(ch, 0, Some(unanswered), |ch.log|);
                    && end.loads == c.loads && end.applied == c.applied + shown
                    && end.lastEventId == LastNumber(shown, 0) <= |ch.log|
                    && AllSkipped(ch, end.lastEventId, |ch.log|, Some(unanswered), |ch.log|)
               else end.loads == c.loads + 1 && end.lastEventId == |ch.log| && end.applied == c.applied
  {
    var grant := Grant(ch, capacity, Asked(c));
    var filter := Filter(grant, unanswered);
    OpenedIs(ch, c, capacity, unanswered);
    PageGrant(ch, c, capacity);
    FeedHello(c, grant);
    var greeted := Feed(c, Hello(grant));
    FeedConcat(c, Hello(grant), Tail(ch, grant, capacity, filter));
    hide Hello, Accepts, Opened, Grant, Slice;
    if Overflows(ch, capacity, grant.replayFrom) {
      FeedOne(greeted, Resync(|ch.log|));
    } else {
      FeedPage(greeted, ch, grant.replayFrom, filter, |ch.log|);
      if filter.None? {
        MissingIsSlice(ch, grant.replayFrom, |ch.log|);
        NothingSkipped(ch, Feed(greeted, Tail(ch, grant, capacity, filter)).lastEventId, |ch.log|);
      }
    }
  }

  // ----- away for a while

  // Frames that are dispatched while no stream is open.
  function Meanwhile(sys: System, frames: seq<Frame>, uuid: Generation, capacity: nat): System {
    if frames == [] then sys
    else Next(Meanwhile(sys, frames[..|frames| - 1], uuid, capacity), Dispatch(frames[|frames| - 1], uuid), capacity)
  }

  lemma {:induction false} MeanwhileAppends(sys: System, frames: seq<Frame>, uuid: Generation, capacity: nat)
    requires sys.channel.Some? && sys.connection.None?
    ensures Meanwhile(sys, frames, uuid, capacity)
            == sys.(channel := Some(Channel(sys.channel.value.generation, sys.channel.value.log + frames)))
  {
    var log := sys.channel.value.log;
    if frames == [] {
      assert log + frames == log;
    } else {
      var front, last := frames[..|frames| - 1], frames[|frames| - 1];
      MeanwhileAppends(sys, front, uuid, capacity);
      assert log + front + [last] == log + frames;
    }
  }

  // A page that stood at the last frame and comes back after at most as many dispatches as the buffer
  // holds is not told to load anything and is shown exactly what was dispatched meanwhile; after more,
  // or at a buffer made anew, it is told to load the session and is shown nothing.
  lemma {:induction false} ReconnectGains(sys: System, frames: seq<Frame>, uuid: Generation, unanswered: set<string>,
                                          capacity: nat)
    requires capacity >= 1 && sys.channel.Some? && !sys.client.active
    requires 0 < sys.client.lastEventId == |sys.channel.value.log| && sys.client.streamGeneration.Some?
    ensures var away := Meanwhile(Next(sys, Disconnect, capacity), frames, uuid, capacity);
            var back := Next(away, Connect(uuid, unanswered), capacity);
            back.connection.Some? && back.channel.Some? &&
            var g, n, c := sys.channel.value.generation, |sys.channel.value.log|, sys.client;
            var end := Feed(back.client, back.connection.value.wire);
            && back.channel.value.log == sys.channel.value.log + frames && end.lastEventId == n + |frames|
            && if c.streamGeneration == Some(g) && |frames| <= capacity
               then end.loads == c.loads
                    && end.applied == c.applied + Slice(sys.channel.value.log + frames, g, n, n + |frames|)
               else end.loads == c.loads + 1 && end.applied == c.applied
  {
    var c, log := sys.client, sys.channel.value.log + frames;
    var ch := Channel(sys.channel.value.generation, log);
    MeanwhileAppends(Next(sys, Disconnect, capacity), frames, uuid, capacity);
    OpenedShowsPage(ch, c, capacity, unanswered);
    ResumeIsExact(ch, capacity, Asked(c));
    hide Feed, Opened, Slice, Meanwhile, Missing;
  }

  // A recovery that comes back from its cursor: it goes on with the next frame, or needs a snapshot.
  lemma {:induction false} RecoveryGains(ch: Channel, c: Client, capacity: nat, unanswered: set<string>)
    requires capacity >= 1 && c.active && c.cursor.Some? && !c.needsSnapshot
    ensures var at, end := c.cursor.value, Feed(c, Opened(ch, c, capacity, unanswered).wire);
            if at.generation == ch.generation && 0 < at.sequence <= |ch.log| <= at.sequence + capacity
            then !end.needsSnapshot && end.applied == c.applied + Slice(ch.log, ch.generation, at.sequence, |ch.log|)
            else end.needsSnapshot
  {
    OpenedBringsUpToDate(ch, c, capacity, unanswered);
    ResumeIsExact(ch, capacity, Asked(c));
    hide Feed, Opened, Slice;
  }

  lemma {:induction false} NothingSkipped(ch: Channel, from: nat, since: nat)
    requires from <= |ch.log| && AllSkipped(ch, from, |ch.log|, None, since)
    ensures from == |ch.log|
  {
    assert from < |ch.log| ==> !Skipped(ch, from, None, since);
  }

  // A page that lost its first stream after all of it was read is shown, when it reconnects, just the
  // answered questions that no shown frame followed; with no frame shown it loads the session.
  lemma {:induction false} ReconnectShowsAnswered(ch: Channel, c: Client, capacity: nat, unanswered: set<string>)
    requires capacity >= 1 && !c.active && c.streamGeneration.None? && c.lastEventId == 0 && |ch.log| <= capacity
    ensures var first := Feed(c, Opened(ch, c, capacity, unanswered).wire);
            var again := Feed(first, Opened(ch, first, capacity, unanswered).wire);
            && first.lastEventId <= |ch.log| && AllSkipped(ch, first.lastEventId, |ch.log|, Some(unanswered), |ch.log|)
            && if first.lastEventId > 0
               then again.loads == first.loads
                    && again.applied == first.applied + Slice(ch.log, ch.generation, first.lastEventId, |ch.log|)
               else again.loads == first.loads + 1 && again.applied == first.applied
  {
    OpenedShowsPage(ch, c, capacity, unanswered);
    var first := Feed(c, Opened(ch, c, capacity, unanswered).wire);
    OpenedShowsPage(ch, first, capacity, unanswered);
    hide Feed, Opened, Missing, AllSkipped, Slice;
  }

  lemma {:induction false} AnsweredQuestionComesBack(plain: Frame, question: Frame, unanswered: set<string>)
    requires plain.kind.Plain? && question.kind.Question?
    requires question.kind.toolCallId.Some? ==> question.kind.toolCallId.value !in unanswered
    ensures var ch, c := Channel(0, [plain, question]), Client(false, None, false, 0, None, 0, 0, []);
            var first := Feed(c, Opened(ch, c, 2, unanswered).wire);
            var again := Feed(first, Opened(ch, first, 2, unanswered).wire);
            first.applied == [Stamp(plain, 0, 1)] && again.applied == [Stamp(plain, 0, 1)] + [Stamp(question, 0, 2)]
  {
    var ch, c := Channel(0, [plain, question]), Client(false, None, false, 0, None, 0, 0, []);
    OpenedShowsPage(ch, c, 2, unanswered);
    ReconnectShowsAnswered(ch, c, 2, unanswered);
    assert Missing(ch, 2, Some(unanswered), 2) == [];
    assert Missing(ch, 1, Some(unanswered), 2) == [] + [] == [];
    assert Missing(ch, 0, Some(unanswered), 2) == [Stamp(plain, 0, 1)] + [];
    assert Slice(ch.log, 0, 1, 2) == [Stamp(question, 0, 2)];
    hide Feed, Opened, Slice, Missing;
  }

  // ----- resuming by number alone

  // Frames as the page shows them, whatever numbers they came under.
  function Content(frames: seq<Frame>): (r: seq<Frame>)
    ensures |r| == |frames|
    ensures forall i :: 0 <= i < |r| ==> r[i] == frames[i].(eventCursor := None)
  {
    seq(|frames|, i requires 0 <= i < |frames| => frames[i].(eventCursor := None))
  }

  lemma {:induction false} ContentOfResumed(held: seq<Frame>, other: Channel, n: nat)
    requires n == |held| <= |other.log|
    ensures Content(held + Slice(other.log, other.generation, n, |other.log|)) == Content(other.log)
            <==> Content(held) == Content(other.log[..n])
  {
    var rest := Slice(other.log, other.generation, n, |other.log|);
    var all, whole := Content(held + rest), Content(other.log);
    assert all[..n] == Content(held) && whole[..n] == Content(other.log[..n]);
    forall i | n <= i < |other.log|
      ensures all[i] == whole[i]
    {
      assert (held + rest)[i] == rest[i - n] == Stamp(other.log[n + (i - n)], other.generation, n + (i - n) + 1);
    }
    assert all[n..] == whole[n..];
    assert all == all[..n] + all[n..] && whole == whole[..n] + whole[n..];
  }

  // A page outside a recovery that stored n without a generation.
  function Numbered(n: nat): Client {
    Client(false, None, false, n, None, 0, 0, [])
  }

  // A page that was shown n frames of one buffer and stored only their number resumes at another
  // one. If it is accepted, it is not told to load the session, and it has the frames of that buffer
  // if and only if the first n are the ones it was shown.
  lemma {:induction false} GenerationlessResume(mine: Channel, other: Channel, n: nat, capacity: nat,
                                                unanswered: set<string>)
    requires capacity >= 1 && n <= |mine.log| && Accepts(other, capacity, Resume(None, n))
    ensures n <= |other.log|
    ensures var end := Feed(Numbered(n), Opened(other, Numbered(n), capacity, unanswered).wire);
            && end.loads == 0 && end.lastEventId == |other.log|
            && (Content(mine.log[..n] + end.applied) == Content(other.log)
                <==> Content(mine.log[..n]) == Content(other.log[..n]))
  {
    OpenedShowsPage(other, Numbered(n), capacity, unanswered);
    hide Feed, Opened, Accepts;
    var rest := Slice(other.log, other.generation, n, |other.log|);
    assert [] + rest == rest;
    ContentOfResumed(mine.log[..n], other, n);
  }

  // The buffer was made anew between: the resume is accepted and the page misses a frame.
  lemma {:induction false} GenerationlessResumeMisses(seen: Frame, missed: Frame, next: Frame, unanswered: set<string>)
    requires seen.payload != missed.payload
    ensures var mine, other := Channel(0, [seen]), Channel(1, [missed, next]);
            var end := Feed(Numbered(1), Opened(other, Numbered(1), 2, unanswered).wire);
            && Accepts(other, 2, Resume(None, 1)) && !Accepts(other, 2, Resume(Some(mine.generation), 1))
            && end.loads == 0 && end.lastEventId == 2
            && Content([seen] + end.applied) != Content(other.log)
  {
    var mine, other := Channel(0, [seen]), Channel(1, [missed, next]);
    GenerationlessResume(mine, other, 1, 2, unanswered);
    assert mine.log[..1] == [seen] && other.log[..1] == [missed];
    assert Content([seen])[0].payload != Content([missed])[0].payload;
  }

  // ----- what every step keeps

  ghost predicate Grows(sys: System, after: System) {
    forall g :: Known(sys, g) ==> Known(after, g) && LogOf(sys, g) <= LogOf(after, g)
  }

  lemma {:induction false} GenuineStays(sys: System, after: System, wire: seq<Message>)
    requires Grows(sys, after) && AllGenuine(sys, wire)
    ensures AllGenuine(after, wire)
  {
    hide Stamp;
    forall m | m in wire
      ensures Genuine(after, m)
    {
      assert Genuine(sys, m);
    }
  }

  lemma {:induction false} ExactlyOnceStays(sys: System, after: System)
    requires Grows(sys, after) && ExactlyOnce(sys) && after.client == sys.client
    ensures ExactlyOnce(after)
  {}

  lemma {:induction false} ReceiveKeeps(sys: System, m: Message, page: Page)
    requires ExactlyOnce(sys) && Genuine(sys, m)
    ensures ExactlyOnce(sys.(client := Receive(sys.client, m, page)))
  {
    var c := sys.client;
    if m.Event? && c.active && c.cursor.Some? && c.cursor.value.generation == m.frame.eventCursor.value.generation
       && m.frame.eventCursor.value.sequence == c.cursor.value.sequence + 1 {
      var g, k := c.cursor.value.generation, c.cursor.value.sequence;
      assert Slice(LogOf(sys, g), g, c.base, k + 1) == Slice(LogOf(sys, g), g, c.base, k) + [m.frame];
    }
  }

  lemma {:induction false} LogIsGenuine(sys: System, k: nat)
    requires sys.channel.Some? && k < |sys.channel.value.log|
    ensures var ch := sys.channel.value; Genuine(sys, Event(Stamp(ch.log[k], ch.generation, k + 1)))
  {}

  lemma {:induction false} MissingIsGenuine(sys: System, from: nat, unanswered: Option<set<string>>, since: nat)
    requires sys.channel.Some? && from <= |sys.channel.value.log|
    ensures AllGenuine(sys, AsEvents(Missing(sys.channel.value, from, unanswered, since)))
  {
    var ch := sys.channel.value;
    var missing := Missing(ch, from, unanswered, since);
    hide Missing, AsEvents, Genuine, Stamp;
    forall m | m in AsEvents(missing)
      ensures Genuine(sys, m)
    {
      EventIsOf(missing, m);
      MissingIsOfLog(ch, from, unanswered, since, m.frame);
      var k :| from <= k < |ch.log| && m.frame == Stamp(ch.log[k], ch.generation, k + 1);
      LogIsGenuine(sys, k);
    }
  }

  lemma {:induction false} FlushIsGenuine(sys: System, conn: Connection, capacity: nat, unanswered: Option<set<string>>)
    requires sys.channel.Some? && AllGenuine(sys, conn.wire)
    ensures AllGenuine(sys, Flush(conn, sys.channel.value, capacity, unanswered).wire)
  {
    var ch := sys.channel.value;
    hide Missing, Written, AsEvents, Overflows;
    if conn.liveCursor <= |ch.log| {
      WrittenIsMissing(ch, conn.liveCursor, unanswered);
      MissingIsGenuine(sys, conn.liveCursor, unanswered, |ch.log|);
    }
  }

  // ----- a frame is dispatched

  // A stream of the session's own buffer gets it as one more event.
  lemma {:induction false} DispatchWires(ch: Channel, conn: Connection, frame: Frame, capacity: nat)
    requires capacity >= 1 && conn.liveCursor == |ch.log|
    ensures var last := Event(Stamp(frame, ch.generation, |ch.log| + 1));
            Flush(conn, Append(ch, frame), capacity, None)
            == conn.(wire := conn.wire + [last], liveCursor := |ch.log| + 1)
  {
    var after := Append(ch, frame);
    WrittenIsMissing(after, |ch.log|, None);
    assert Missing(after, |ch.log| + 1, None, |ch.log| + 1) == [];
    assert Missing(after, |ch.log|, None, |ch.log| + 1) == [Stamp(frame, ch.generation, |ch.log| + 1)];
    assert AsEvents([Stamp(frame, ch.generation, |ch.log| + 1)]) == [Event(Stamp(frame, ch.generation, |ch.log| + 1))];
  }

  lemma {:induction false} DispatchRecovery(ch: Channel, conn: Connection, c: Client, frame: Frame, capacity: nat)
    requires capacity >= 1 && c.active && RecoveryInSync(ch, conn, c)
    ensures RecoveryInSync(Append(ch, frame), Flush(conn, Append(ch, frame), capacity, None), c)
  {
    var last := Event(Stamp(frame, ch.generation, |ch.log| + 1));
    var end := Feed(c, conn.wire);
    DispatchWires(ch, conn, frame, capacity);
    FeedConcat(c, conn.wire, [last]);
    FeedOne(end, last);
    StaysActive(c, conn.wire);
    if end.needsSnapshot {
      StaysTold(end, [last]);
    } else {
      ApplyNext(end, Append(ch, frame), |ch.log|);
    }
  }

  lemma {:induction false} DispatchPage(ch: Channel, conn: Connection, c: Client, frame: Frame, capacity: nat)
    requires capacity >= 1 && PageInSync(ch, conn, c)
    ensures PageInSync(Append(ch, frame), Flush(conn, Append(ch, frame), capacity, None), c)
  {
    var h: nat :| Ahead(ch, conn, c, h);
    DispatchWires(ch, conn, frame, capacity);
    var after, flushed := Append(ch, frame), Flush(conn, Append(ch, frame), capacity, None);
    var from, last := IdAfter(c.lastEventId, conn.wire[..h]), Stamp(frame, ch.generation, |ch.log| + 1);
    MissingSnoc(ch, frame, from, conn.unanswered, conn.since);
    AsEventsConcat(Missing(ch, from, conn.unanswered, conn.since), [last]);
    assert AsEvents([last]) == [Event(last)];
    assert flushed.wire[..h] == conn.wire[..h] && flushed.wire[h..] == conn.wire[h..] + [Event(last)];
    hide Flush, Missing, AsEvents, IdAfter;
    assert Ahead(after, flushed, c, h);
  }

  lemma {:induction false} DispatchKeeps(sys: System, frame: Frame, uuid: Generation, capacity: nat)
    requires Invariant(sys) && capacity >= 1 && Possible(sys, Dispatch(frame, uuid))
    ensures Invariant(Next(sys, Dispatch(frame, uuid), capacity))
  {
    var after := Next(sys, Dispatch(frame, uuid), capacity);
    var before := sys.(channel := after.channel);
    assert Grows(sys, before) && Grows(before, after);
    ExactlyOnceStays(sys, before);
    ExactlyOnceStays(before, after);
    if sys.connection.Some? {
      GenuineStays(sys, before, sys.connection.value.wire);
      FlushIsGenuine(before, sys.connection.value, capacity, None);
      GenuineStays(before, after, after.connection.value.wire);
    }
    if Live(after) {
      assert Live(sys);
      if sys.client.active {
        DispatchRecovery(sys.channel.value, sys.connection.value, sys.client, frame, capacity);
      }
      if sys.connection.value.steady {
        DispatchPage(sys.channel.value, sys.connection.value, sys.client, frame, capacity);
      }
    }
    hide ExactlyOnce, RecoveryInSync, PageInSync, AllGenuine, Grows;
  }

  // ----- a stream is opened

  lemma {:induction false} ConnectRecovery(ch: Channel, c: Client, capacity: nat, unanswered: set<string>)
    requires capacity >= 1 && c.active && (c.cursor.None? ==> c.needsSnapshot)
    ensures RecoveryInSync(ch, Opened(ch, c, capacity, unanswered), c)
  {
    OpenedIs(ch, c, capacity, unanswered);
    if c.needsSnapshot {
      StaysTold(c, Opened(ch, c, capacity, unanswered).wire);
    } else {
      OpenedBringsUpToDate(ch, c, capacity, unanswered);
    }
    hide Opened, Feed, Tail;
  }

  lemma {:induction false} AheadOf(ch: Channel, conn: Connection, c: Client, head: seq<Message>, from: nat)
    requires from <= |ch.log| && conn.wire == head + AsEvents(Missing(ch, from, conn.unanswered, conn.since))
    requires (forall i :: 0 <= i < |head| ==> !head[i].Event?) && IdAfter(c.lastEventId, head) == from
    ensures Ahead(ch, conn, c, |head|)
  {
    assert conn.wire[..|head|] == head;
    assert conn.wire[|head|..] == AsEvents(Missing(ch, from, conn.unanswered, conn.since));
    hide Missing, AsEvents, IdAfter;
  }

  lemma {:induction false} IdAfterHello(id: nat, grant: StreamGrant)
    ensures IdAfter(id, Hello(grant)) == if grant.cursorReset then grant.replayFrom else id
    ensures forall n: nat :: IdAfter(id, Hello(grant) + [Resync(n)])
                             == if n > 0 then n else IdAfter(id, Hello(grant))
  {
    forall n: nat
      ensures IdAfter(id, Hello(grant) + [Resync(n)]) == IdStep(IdAfter(id, Hello(grant)), Resync(n))
    {
      IdAfterSnoc(id, Hello(grant), Resync(n));
    }
    var connected := Connected(grant.streamGeneration, grant.cursorReset);
    IdAfterSnoc(id, [], connected);
    assert [] + [connected] == [connected];
    IdAfterSnoc(id, [connected], Resync(grant.replayFrom));
    assert grant.cursorReset || Hello(grant) == [connected];
  }

  lemma {:induction false} IdAfterSnoc(id: nat, head: seq<Message>, m: Message)
    ensures IdAfter(id, head + [m]) == IdStep(IdAfter(id, head), m)
    decreases |head|
  {
    hide IdStep;
    if head == [] {
      assert (head + [m])[1..] == [];
    } else {
      assert (head + [m])[1..] == head[1..] + [m];
      IdAfterSnoc(IdStep(id, head[0]), head[1..], m);
    }
  }

  lemma {:induction false} ConnectPage(ch: Channel, c: Client, capacity: nat, unanswered: set<string>)
    requires capacity >= 1 && !c.active
    ensures PageInSync(ch, Opened(ch, c, capacity, unanswered), c)
  {
    var grant, conn := Grant(ch, capacity, Asked(c)), Opened(ch, c, capacity, unanswered);
    OpenedIs(ch, c, capacity, unanswered);
    PageGrant(ch, c, capacity);
    IdAfterHello(c.lastEventId, grant);
    if Overflows(ch, capacity, grant.replayFrom) {
      var head := Hello(grant) + [Resync(|ch.log|)];
      assert AsEvents(Missing(ch, |ch.log|, conn.unanswered, conn.since)) == [];
      assert head + [] == head;
      hide Opened, Grant, Missing, AsEvents, IdAfter;
      AheadOf(ch, conn, c, head, |ch.log|);
    } else {
      hide Opened, Grant, Missing, AsEvents, IdAfter;
      AheadOf(ch, conn, c, Hello(grant), grant.replayFrom);
    }
  }

  lemma {:induction false} OpenedIsGenuine(sys: System, capacity: nat, unanswered: set<string>)
    requires sys.channel.Some?
    ensures AllGenuine(sys, Opened(sys.channel.value, sys.client, capacity, unanswered).wire)
  {
    var ch := sys.channel.value;
    var grant := Grant(ch, capacity, Asked(sys.client));
    var filter := Filter(grant, unanswered);
    assert AllGenuine(sys, Hello(grant));
    hide AllGenuine, Hello;
    FlushIsGenuine(sys, Connection(ch.generation, grant.replayFrom, Hello(grant), filter, |ch.log|, !sys.client.active),
                   capacity, filter);
  }

  lemma {:induction false} ConnectKeeps(sys: System, uuid: Generation, unanswered: set<string>, capacity: nat)
    requires Invariant(sys) && capacity >= 1 && Possible(sys, Connect(uuid, unanswered))
    ensures Invariant(Next(sys, Connect(uuid, unanswered), capacity))
  {
    var after := Next(sys, Connect(uuid, unanswered), capacity);
    var ch, c := after.channel.value, sys.client;
    assert Grows(sys, after);
    ExactlyOnceStays(sys, after);
    OpenedIsGenuine(after, capacity, unanswered);
    OpenedIs(ch, c, capacity, unanswered);
    if c.active {
      ConnectRecovery(ch, c, capacity, unanswered);
    } else {
      ConnectPage(ch, c, capacity, unanswered);
    }
    hide Opened, RecoveryInSync, PageInSync, AllGenuine, Grows, Tail;
  }

  // ----- a message arrives

  // The first of the missing frames.
  lemma {:induction false} FirstMissing(ch: Channel, from: nat, unanswered: Option<set<string>>, since: nat)
    returns (k: nat)
    requires from <= |ch.log|
    ensures from <= k <= |ch.log| && AllSkipped(ch, from, k, unanswered, since)
    ensures Missing(ch, from, unanswered, since)
            == if k == |ch.log| then []
               else [Stamp(ch.log[k], ch.generation, k + 1)] + Missing(ch, k + 1, unanswered, since)
    decreases |ch.log| - from
  {
    if from < |ch.log| && Skipped(ch, from, unanswered, since) {
      k := FirstMissing(ch, from + 1, unanswered, since);
    } else {
      k := from;
    }
  }

  // A page is behind nothing but frames left out, or the next event is the first frame it misses.
  ghost predicate NextIsMissing(ch: Channel, conn: Connection, c: Client) {
    && (conn.wire == [] ==>
          c.lastEventId <= |ch.log| && AllSkipped(ch, c.lastEventId, |ch.log|, conn.unanswered, conn.since))
    && (conn.wire != [] && conn.wire[0].Event? ==>
          exists k :: c.lastEventId <= k < |ch.log| && IsNext(ch, conn, c, k))
  }

  ghost predicate IsNext(ch: Channel, conn: Connection, c: Client, k: nat)
    requires k < |ch.log| && conn.wire != []
  {
    && conn.wire[0] == Event(Stamp(ch.log[k], ch.generation, k + 1))
    && AllSkipped(ch, c.lastEventId, k, conn.unanswered, conn.since)
    && conn.wire[1..] == AsEvents(Missing(ch, k + 1, conn.unanswered, conn.since))
  }

  lemma {:induction false} PageFollows(ch: Channel, conn: Connection, c: Client)
    requires PageInSync(ch, conn, c)
    ensures NextIsMissing(ch, conn, c)
  {
    var h: nat :| Ahead(ch, conn, c, h);
    if conn.wire == [] || conn.wire[0].Event? {
      assert h == 0;
      assert conn.wire[..0] == [] && conn.wire[0..] == conn.wire;
      var k := FirstMissing(ch, c.lastEventId, conn.unanswered, conn.since);
      hide Missing, Skipped;
      if conn.wire != [] {
        assert IsNext(ch, conn, c, k);
      }
    }
  }

  lemma {:induction false} DeliverPage(ch: Channel, conn: Connection, c: Client, page: Page)
    requires PageInSync(ch, conn, c) && conn.wire != [] && !c.active && !page.busy
    ensures PageInSync(ch, conn.(wire := conn.wire[1..]), Receive(c, conn.wire[0], page))
  {
    var after, rest := Receive(c, conn.wire[0], page), conn.(wire := conn.wire[1..]);
    if conn.wire[0].Event? {
      PageFollows(ch, conn, c);
      var k :| c.lastEventId <= k < |ch.log| && IsNext(ch, conn, c, k);
      assert after.lastEventId == k + 1;
      hide Missing, AsEvents, Receive;
      assert rest.wire[..0] == [] && rest.wire[0..] == rest.wire;
      assert Ahead(ch, rest, after, 0);
    } else {
      var h: nat :| Ahead(ch, conn, c, h);
      if h == 0 {
        assert conn.wire[0..] == conn.wire;
        EventIsOf(Missing(ch, c.lastEventId, conn.unanswered, conn.since), conn.wire[0]);
        assert false;
      } else {
        assert conn.wire[..h][1..] == rest.wire[..h - 1] && conn.wire[..h][0] == conn.wire[0];
        assert rest.wire[h - 1..] == conn.wire[h..];
        assert IdAfter(after.lastEventId, rest.wire[..h - 1]) == IdAfter(c.lastEventId, conn.wire[..h]);
        hide Missing, AsEvents, Receive, IdAfter;
        assert Ahead(ch, rest, after, h - 1);
      }
    }
  }

  lemma {:induction false} DeliverRecovery(ch: Channel, conn: Connection, c: Client, page: Page)
    requires RecoveryInSync(ch, conn, c) && conn.wire != [] && c.active
    ensures RecoveryInSync(ch, conn.(wire := conn.wire[1..]), Receive(c, conn.wire[0], page))
  {
    var m := conn.wire[0];
    var after := Receive(c, m, page);
    StaysActive(c, [m]);
    if after != Receive(c, m, QUIET) {
      assert after.needsSnapshot && after.active;
      StaysTold(after, conn.wire[1..]);
    }
  }

  lemma {:induction false} DeliverKeeps(sys: System, page: Page)
    requires Invariant(sys) && sys.connection.Some? && sys.connection.value.wire != []
    ensures Invariant(Delivered(sys, page))
  {
    var after, conn := Delivered(sys, page), sys.connection.value;
    assert conn.wire[0] in conn.wire;
    ReceiveKeeps(sys, conn.wire[0], page);
    assert ExactlyOnce(after);
    GenuineStays(sys, after, conn.wire[1..]);
    assert after.client.active == sys.client.active;
    if Live(sys) {
      if sys.client.active {
        DeliverRecovery(sys.channel.value, conn, sys.client, page);
      } else if conn.steady && !page.busy {
        DeliverPage(sys.channel.value, conn, sys.client, page);
      }
    }
    hide ExactlyOnce, RecoveryInSync, PageInSync, AllGenuine, Receive;
  }

  lemma {:induction false} DropKeeps(sys: System, capacity: nat)
    requires Invariant(sys)
    ensures Invariant(Next(sys, Drop, capacity))
  {
    var after := Next(sys, Drop, capacity);
    assert Grows(sys, after);
    ExactlyOnceStays(sys, after);
    if sys.connection.Some? {
      GenuineStays(sys, after, sys.connection.value.wire);
    }
    hide ExactlyOnce, RecoveryInSync, PageInSync, AllGenuine, Grows;
  }

  // The page's own steps leave the number it stored alone.
  lemma {:induction false} ClientKeeps(sys: System, step: Step, capacity: nat)
    requires Invariant(sys) && Possible(sys, step)
    requires step.Posted? || step.Arm? || step.Release? || step.Cancel?
    ensures Invariant(Next(sys, step, capacity))
  {
    var after := Next(sys, step, capacity);
    assert after.client.lastEventId == sys.client.lastEventId;
    assert Grows(sys, after) && (after.client.active ==> step.Arm?);
    if sys.connection.Some? {
      GenuineStays(sys, after, sys.connection.value.wire);
    }
    if Live(sys) && sys.connection.value.steady {
      PageSame(sys.channel.value, sys.connection.value, sys.client, after.client);
    }
    hide RecoveryInSync, PageInSync, AllGenuine, Grows;
  }

  lemma {:induction false} PageSame(ch: Channel, conn: Connection, c: Client, other: Client)
    requires PageInSync(ch, conn, c) && c.lastEventId == other.lastEventId
    ensures PageInSync(ch, conn, other)
  {
    var h: nat :| Ahead(ch, conn, c, h);
    assert Ahead(ch, conn, other, h);
  }

  lemma {:induction false} StepKeeps(sys: System, step: Step, capacity: nat)
    requires Invariant(sys) && capacity >= 1 && Possible(sys, step)
    ensures Invariant(Next(sys, step, capacity))
  {
    match step
    case Dispatch(frame, uuid) => DispatchKeeps(sys, frame, uuid, capacity);
    case Drop => DropKeeps(sys, capacity);
    case Connect(uuid, unanswered) => ConnectKeeps(sys, uuid, unanswered, capacity);
    case Deliver(page) =>
      if sys.connection.Some? && sys.connection.value.wire != [] { DeliverKeeps(sys, page); }
    case Disconnect =>
    case _ => ClientKeeps(sys, step, capacity);
  }

  lemma {:induction false} RunsKeep(states: seq<System>, steps: seq<Step>, capacity: nat, n: nat)
    requires capacity >= 1 && IsRun(states, steps, capacity) && n < |states|
    ensures Invariant(states[n])
  {
    if n > 0 {
      RunsKeep(states, steps, capacity, n - 1);
      hide Invariant, Next;
      StepKeeps(states[n - 1], steps[n - 1], capacity);
    }
  }

  // Over every run. A recovery has applied each frame of its generation since it began once and in
  // order, and a live stream leaves it at the last frame or needing a snapshot. A page outside a
  // recovery, on a live stream that it opened and did not read during a turn of its own, is next shown
  // the first frame after the number it stored, save answered questions of the first replay, and with
  // nothing on the wire misses only these.
  lemma {:induction false} DeliveryIsExact(states: seq<System>, steps: seq<Step>, capacity: nat, n: nat)
    requires capacity >= 1 && IsRun(states, steps, capacity) && n < |states|
    ensures var sys := states[n];
            && ExactlyOnce(sys)
            && (Live(sys) && sys.client.active ==>
                  var end, ch := Feed(sys.client, sys.connection.value.wire), sys.channel.value;
                  end.needsSnapshot || end.cursor == Some(Cursor(ch.generation, |ch.log|)))
            && (Live(sys) && sys.connection.value.steady ==>
                  !sys.client.active && NextIsMissing(sys.channel.value, sys.connection.value, sys.client))
  {
    RunsKeep(states, steps, capacity, n);
    var sys := states[n];
    if Live(sys) && sys.connection.value.steady {
      PageFollows(sys.channel.value, sys.connection.value, sys.client);
    }
    hide NextIsMissing, PageInSync, Feed;
  }
}
