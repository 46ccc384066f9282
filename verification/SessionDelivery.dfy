/**
 The per-session adapter's event path: attach, dedupe by cursor, disconnect, and recovery with
 buffered frames.
 */
module SessionDelivery {
  import opened Wrappers

  datatype Cursor = Cursor(generation: Option<string>, sequence: int)

  datatype Frame =
    | SessionEvent(activeSessionId: string, cursor: Option<Cursor>, event: string)
    | SessionBinding(previousActiveSessionId: string, activeSessionId: string)
    | HeartbeatsChanged
    | SessionClosed(activeSessionId: string, reason: string)
    | Unknown

  datatype Emission =
    | Event(cursor: Option<Cursor>, event: string)
    | Resynced
    | Reconnecting
    | Connected
    | Heartbeats
    | Closed(reason: string)

  // A snapshot's cursor: the record when it has a sequence, else the bare sequence number.
  function CursorFromSnapshot(lastEventCursor: Option<Cursor>, lastEventSequence: Option<int>): Option<Cursor> {
    if lastEventCursor.Some? then lastEventCursor
    else if lastEventSequence.Some? then Some(Cursor(None, lastEventSequence.value))
    else None
  }

  // A missing generation matches every generation.
  predicate SameGeneration(previous: Cursor, cursor: Cursor) {
    previous.generation.None? || cursor.generation.None? || previous.generation == cursor.generation
  }

  predicate Redundant(previous: Option<Cursor>, cursor: Option<Cursor>) {
    && previous.Some? && cursor.Some?
    && SameGeneration(previous.value, cursor.value) && cursor.value.sequence <= previous.value.sequence
  }

  datatype Session = Session(
    active: string,
    cursor: Option<Cursor>,
    recovering: bool,
    recoveryFrames: seq<Frame>,
    out: seq<Emission>)

  function Process(st: Session, frame: Frame): Session {
    if st.recovering then st.(recoveryFrames := st.recoveryFrames + [frame])
    else
      match frame
      case SessionBinding(previous, active) =>
        if previous != st.active && active != st.active then st else st.(active := active)
      case SessionEvent(session, cursor, event) =>
        if session != st.active || Redundant(st.cursor, cursor) then st
        else st.(cursor := if cursor.Some? then cursor else st.cursor, out := st.out + [Event(cursor, event)])
      case HeartbeatsChanged => st.(out := st.out + [Heartbeats])
      case SessionClosed(session, reason) =>
        if session == st.active then st.(out := st.out + [Closed(reason)]) else st
      case Unknown => st
  }

  function ProcessAll(st: Session, frames: seq<Frame>): Session {
    if frames == [] then st else Process(ProcessAll(st, frames[..|frames| - 1]), frames[|frames| - 1])
  }

  // A new snapshot is the baseline; frames kept meanwhile follow it.
  function Recover(st: Session, snapshot: Option<Cursor>): Session {
    var based := st.(cursor := snapshot, recovering := false, recoveryFrames := [], out := st.out + [Resynced]);
    var after := ProcessAll(based, st.recoveryFrames);
    after.(out := after.out + [Connected])
  }

  class Adapter {
    var activeSessionId: string
    var lastEventCursor: Option<Cursor>
    var recovering: bool
    var recoveryFrames: seq<Frame>
    var recoveryActive: bool
    var disposed: bool
    var subscribed: bool
    var pendingEvents: seq<Emission>
    var delivered: seq<Emission>

    ghost function State(): Session
      reads this
    {
      Session(activeSessionId, lastEventCursor, recovering, recoveryFrames, delivered + pendingEvents)
    }

    // Events wait for the first listener; recovery runs one at a time.
    ghost predicate Valid()
      reads this
    {
      (subscribed ==> pendingEvents == []) && (recovering ==> recoveryActive || disposed) && (!recovering
          ==> recoveryFrames == [])
    }

    constructor (activeSessionId: string, snapshot: Option<Cursor>, bufferedFrames: seq<Frame>)
      ensures Valid() && !recovering && !subscribed
      ensures State() == ProcessAll(Session(activeSessionId, snapshot, false, [], []), bufferedFrames)
    {
      this.activeSessionId := activeSessionId;
      lastEventCursor := snapshot;
      recovering, recoveryActive, disposed, subscribed := false, false, false, false;
      recoveryFrames, pendingEvents, delivered := [], [], [];
      new;
      assert delivered + pendingEvents == [];
      Replay(bufferedFrames);
    }

    method Emit(emission: Emission)
      requires Valid()
      modifies this`pendingEvents, this`delivered
      ensures Valid() && State() == old(State()).(out := old(State()).out + [emission])
    {
      if subscribed {
        delivered := delivered + [emission];
      } else {
        pendingEvents := pendingEvents + [emission];
      }
    }

    method Subscribe()
      requires Valid()
      modifies this`pendingEvents, this`delivered, this`subscribed
      ensures Valid() && State() == old(State()) && subscribed && delivered == State().out
    {
      subscribed := true;
      delivered := delivered + pendingEvents;
      pendingEvents := [];
    }

    method OnFrame(frame: Frame)
      requires Valid()
      modifies this
      ensures Valid() && State() == Process(old(State()), frame)
      ensures recovering == old(recovering) && recoveryActive == old(recoveryActive)
      ensures disposed == old(disposed) && subscribed == old(subscribed)
    {
      if recovering {
        recoveryFrames := recoveryFrames + [frame];
        return;
      }
      match frame
      case SessionBinding(previous, active) =>
        if previous != activeSessionId && active != activeSessionId { return; }
        activeSessionId := active;
      case SessionEvent(session, cursor, event) =>
        if session != activeSessionId { return; }
        var previous := lastEventCursor;
        var sameGeneration := previous.Some? &&
          (previous.value.generation.None? || cursor.None? || cursor.value.generation.None?
           || previous.value.generation == cursor.value.generation);
        if cursor.Some? && sameGeneration && cursor.value.sequence <= previous.value.sequence { return; }
        if cursor.Some? { lastEventCursor := cursor; }
        Emit(Event(cursor, event));
      case HeartbeatsChanged =>
        Emit(Heartbeats);
      case SessionClosed(session, reason) =>
        if session == activeSessionId { Emit(Closed(reason)); }
      case Unknown =>
    }

    method Replay(frames: seq<Frame>)
      requires Valid() && !recovering
      modifies this
      ensures Valid() && !recovering && State() == ProcessAll(old(State()), frames)
      ensures recoveryActive == old(recoveryActive) && disposed == old(disposed) && subscribed == old(subscribed)
    {
      assert frames[..|frames|] == frames;
      for i := 0 to |frames|
        invariant Valid() && !recovering && State() == ProcessAll(old(State()), frames[..i])
        invariant recoveryActive == old(recoveryActive) && disposed == old(disposed) && subscribed == old(subscribed)
      {
        assert frames[..i + 1][..i] == frames[..i];
        OnFrame(frames[i]);
      }
    }

    // The socket closed: frames are kept aside until a snapshot says where to continue.
    method OnClose()
      requires Valid()
      modifies this
      ensures Valid()
      ensures if old(disposed || recoveryActive) then State() == old(State())
              else State() == old(State()).(recovering := true, out := old(State()).out + [Reconnecting])
    {
      if disposed || recoveryActive { return; }
      recovering := true;
      recoveryActive := true;
      Emit(Reconnecting);
    }

    // The reattach succeeded with this snapshot.
    method OnRecovered(lastCursor: Option<Cursor>, lastSequence: Option<int>)
      requires Valid() && recovering
      modifies this
      ensures Valid() && State() == Recover(old(State()), CursorFromSnapshot(lastCursor, lastSequence))
      ensures CursorFromSnapshot(lastCursor, lastSequence)
              == if lastCursor.Some? then lastCursor
                 else if lastSequence.Some? then Some(Cursor(None, lastSequence.value)) else None
    {
      lastEventCursor := CursorFromSnapshot(lastCursor, lastSequence);
      Emit(Resynced);
      recovering := false;
      var frames := recoveryFrames;
      recoveryFrames := [];
      Replay(frames);
      Emit(Connected);
      recoveryActive := false;
    }

    // The reattach failed for good: the frames kept aside go with it.
    method OnRecoveryFailed(error: string)
      requires Valid() && recovering
      modifies this
      ensures Valid()
      ensures State() == if old(disposed) then old(State())
                         else old(State()).(recovering := false, recoveryFrames := [],
                                            out := old(State()).out + [Closed(error)])
    {
      recoveryActive := false;
      if disposed { return; }
      recovering := false;
      recoveryFrames := [];
      Emit(Closed(error));
    }

    method Dispose()
      requires Valid()
      modifies this
      ensures Valid() && disposed
      ensures !old(disposed) ==> !subscribed && pendingEvents == [] && delivered == old(delivered)
    {
      if disposed { return; }
      disposed := true;
      subscribed := false;
      pendingEvents := [];
    }
  }

  // ----- what the dedupe lets through

  // An event of the session that carries a cursor.
  datatype Item = Item(cursor: Cursor, event: string)

  function ItemsOf(frames: seq<Frame>, active: string): seq<Item> {
    if frames == [] then []
    else
      var last := frames[|frames| - 1];
      ItemsOf(frames[..|frames| - 1], active)
      + (if last.SessionEvent? && last.activeSessionId == active && last.cursor.Some?
         then [Item(last.cursor.value, last.event)] else [])
  }

  function ItemsOut(out: seq<Emission>): seq<Item> {
    if out == [] then []
    else
      var last := out[|out| - 1];
      ItemsOut(out[..|out| - 1])
      + (if last.Event? && last.cursor.Some? then [Item(last.cursor.value, last.event)] else [])
  }

  function Accept(cursor: Option<Cursor>, items: seq<Item>): (r: seq<Item>)
    ensures |r| <= |items|
    decreases |items|
  {
    if items == [] then []
    else if Redundant(cursor, Some(items[0].cursor)) then Accept(cursor, items[1..])
    else [items[0]] + Accept(Some(items[0].cursor), items[1..])
  }

  function After(cursor: Option<Cursor>, items: seq<Item>): Option<Cursor>
    decreases |items|
  {
    if items == [] then cursor
    else if Redundant(cursor, Some(items[0].cursor)) then After(cursor, items[1..])
    else After(Some(items[0].cursor), items[1..])
  }

  lemma {:induction false} AcceptConcat(cursor: Option<Cursor>, a: seq<Item>, b: seq<Item>)
    ensures Accept(cursor, a + b) == Accept(cursor, a) + Accept(After(cursor, a), b)
    ensures After(cursor, a + b) == After(After(cursor, a), b)
    decreases |a|
  {
    if a == [] {
      assert a + b == b;
    } else {
      assert (a + b)[1..] == a[1..] + b;
      AcceptConcat(if Redundant(cursor, Some(a[0].cursor)) then cursor else Some(a[0].cursor), a[1..], b);
    }
  }

  lemma {:induction false} ItemsOutConcat(a: seq<Emission>, b: seq<Emission>)
    ensures ItemsOut(a + b) == ItemsOut(a) + ItemsOut(b)
  {
    if b == [] {
      assert a + b == a;
    } else {
      assert (a + b)[..|a + b| - 1] == a + b[..|b| - 1];
      ItemsOutConcat(a, b[..|b| - 1]);
    }
  }

  predicate Rebinds(frame: Frame, active: string) {
    frame.SessionBinding? && (frame.previousActiveSessionId == active || frame.activeSessionId == active)
  }

  // From st, processing frames with these items emits exactly the accepted ones, in order.
  ghost predicate Emits(st: Session, after: Session, items: seq<Item>) {
    && !after.recovering && after.active == st.active && after.recoveryFrames == st.recoveryFrames
    && st.out <= after.out
    && ItemsOut(after.out[|st.out|..]) == Accept(st.cursor, items)
    && after.cursor == After(st.cursor, items)
  }

  lemma {:induction false} EmitsStep(st: Session, frame: Frame)
    requires !st.recovering && !Rebinds(frame, st.active)
    ensures Emits(st, Process(st, frame), ItemsOf([frame], st.active))
  {
    assert [frame][..0] == [];
    var added := Process(st, frame).out[|st.out|..];
    if |added| > 0 {
      assert added[..0] == [];
    }
  }

  lemma {:induction false} EmitsTrans(a: Session, b: Session, c: Session, first: seq<Item>, second: seq<Item>)
    requires Emits(a, b, first) && Emits(b, c, second)
    ensures Emits(a, c, first + second)
  {
    assert c.out[|a.out|..] == b.out[|a.out|..] + c.out[|b.out|..];
    ItemsOutConcat(b.out[|a.out|..], c.out[|b.out|..]);
    AcceptConcat(a.cursor, first, second);
  }

  lemma {:induction false} ItemsOfConcat(a: seq<Frame>, b: seq<Frame>, active: string)
    ensures ItemsOf(a + b, active) == ItemsOf(a, active) + ItemsOf(b, active)
  {
    if b == [] {
      assert a + b == a;
    } else {
      assert (a + b)[..|a + b| - 1] == a + b[..|b| - 1];
      ItemsOfConcat(a, b[..|b| - 1], active);
    }
  }

  lemma {:induction false} EmitsAll(st: Session, frames: seq<Frame>)
    requires !st.recovering && forall i :: 0 <= i < |frames| ==> !Rebinds(frames[i], st.active)
    ensures Emits(st, ProcessAll(st, frames), ItemsOf(frames, st.active))
  {
    if frames == [] {
      assert st.out[|st.out|..] == [];
    } else {
      var front, last := frames[..|frames| - 1], frames[|frames| - 1];
      EmitsAll(st, front);
      EmitsStep(ProcessAll(st, front), last);
      EmitsTrans(st, ProcessAll(st, front), ProcessAll(st, frames), ItemsOf(front, st.active),
          ItemsOf([last], st.active));
      assert frames == front + [last];
      ItemsOfConcat(front, [last], st.active);
    }
  }

  // ----- never-reused generations

  ghost predicate Named(items: seq<Item>) {
    forall i :: 0 <= i < |items| ==> items[i].cursor.generation.Some?
  }

  // Once a generation is left, it does not come back; the snapshot's comes first.
  ghost predicate NeverReused(base: Option<Cursor>, items: seq<Item>) {
    && (base.Some? ==> base.value.generation.Some?) && Named(items)
    && (forall i, j, k :: 0 <= i < j < k < |items| && items[i].cursor.generation == items[k].cursor.generation
          ==> items[j].cursor.generation == items[i].cursor.generation)
    && (forall j, k :: 0 <= j < k < |items| && base.Some? && base.value.generation == items[k].cursor.generation
          ==> items[j].cursor.generation == base.value.generation)
  }

  // The snapshot does not cover it.
  predicate AboveBase(base: Option<Cursor>, item: Item) {
    base.None? || base.value.generation != item.cursor.generation || item.cursor.sequence > base.value.sequence
  }

  // Above the snapshot and above everything before it in its generation.
  ghost predicate Record(base: Option<Cursor>, items: seq<Item>, i: nat)
    requires i < |items|
  {
    && AboveBase(base, items[i])
    && forall j :: 0 <= j < i && items[j].cursor.generation == items[i].cursor.generation
         ==> items[j].cursor.sequence < items[i].cursor.sequence
  }

  ghost function Records(base: Option<Cursor>, items: seq<Item>, i: nat): seq<Item>
    requires i <= |items|
    decreases |items| - i
  {
    if i == |items| then []
    else (if Record(base, items, i) then [items[i]] else []) + Records(base, items, i + 1)
  }

  // What the running cursor says about everything before position i.
  ghost predicate Running(base: Option<Cursor>, items: seq<Item>, i: nat, cursor: Option<Cursor>)
    requires i <= |items|
  {
    if cursor.None? then base.None? && i == 0
    else
      var g, s := cursor.value.generation, cursor.value.sequence;
      && g.Some?
      && (if i == 0 then base == cursor else items[i - 1].cursor.generation == g)
      && (base == cursor || exists k :: 0 <= k < i && items[k].cursor == cursor.value)
      && (base.Some? && base.value.generation == g ==> base.value.sequence <= s)
      && (forall j :: 0 <= j < i && items[j].cursor.generation == g ==> items[j].cursor.sequence <= s)
  }

  lemma {:induction false} RunningDecides(base: Option<Cursor>, items: seq<Item>, i: nat, cursor: Option<Cursor>)
    requires NeverReused(base, items) && i < |items| && Running(base, items, i, cursor)
    ensures Record(base, items, i) <==> !Redundant(cursor, Some(items[i].cursor))
    ensures Running(base, items, i + 1, if Record(base, items, i) then Some(items[i].cursor) else cursor)
  {
    if cursor.Some? {
      var g := items[i].cursor.generation;
      if g != cursor.value.generation {
        if i > 0 {
          assert items[i - 1].cursor.generation != g;
        }
        assert forall j :: 0 <= j < i ==> items[j].cursor.generation != g;
        assert base.Some? ==> base.value.generation != g || i == 0;
      }
    }
  }

  lemma {:induction false} AcceptStep(cursor: Option<Cursor>, items: seq<Item>, i: nat)
    requires i < |items|
    ensures Accept(cursor, items[i..])
            == if Redundant(cursor, Some(items[i].cursor)) then Accept(cursor, items[i + 1..])
               else [items[i]] + Accept(Some(items[i].cursor), items[i + 1..])
  {
    assert items[i..][1..] == items[i + 1..];
  }

  // With generations that never come back, exactly the records are emitted, in order.
  lemma {:induction false} AcceptIsRecords(base: Option<Cursor>, items: seq<Item>, i: nat, cursor: Option<Cursor>)
    requires NeverReused(base, items) && i <= |items| && Running(base, items, i, cursor)
    ensures Accept(cursor, items[i..]) == Records(base, items, i)
    decreases |items| - i
  {
    if i < |items| {
      hide NeverReused, Running, Record, Redundant, Accept;
      RunningDecides(base, items, i, cursor);
      AcceptStep(cursor, items, i);
      AcceptIsRecords(base, items, i + 1, if Record(base, items, i) then Some(items[i].cursor) else cursor);
    } else {
      assert items[i..] == [];
    }
  }

  lemma {:induction false} RecordsIncrease(base: Option<Cursor>, items: seq<Item>, i: nat)
    requires i <= |items|
    ensures forall r :: r in Records(base, items, i)
                        <==> exists k :: i <= k < |items| && items[k] == r && Record(base, items, k)
    ensures forall a, b :: 0 <= a < b < |Records(base, items, i)|
                           && Records(base, items, i)[a].cursor.generation
                               == Records(base, items, i)[b].cursor.generation
                           ==> Records(base, items, i)[a].cursor.sequence < Records(base, items, i)[b].cursor.sequence
    decreases |items| - i
  {
    if i < |items| {
      RecordsIncrease(base, items, i + 1);
      var rest := Records(base, items, i + 1);
      if Record(base, items, i) {
        forall b | 0 <= b < |rest| && rest[b].cursor.generation == items[i].cursor.generation
          ensures items[i].cursor.sequence < rest[b].cursor.sequence
        {
          assert rest[b] in rest;
        }
      }
    }
  }

  // Nothing the snapshot does not cover is missing.
  ghost predicate NothingLost(base: Option<Cursor>, items: seq<Item>, emitted: seq<Item>) {
    forall i :: 0 <= i < |items| && AboveBase(base, items[i]) ==>
      exists e :: 0 <= e < |emitted| && emitted[e].cursor == items[i].cursor
  }

  // Each cursor arrives first after all smaller ones of its generation.
  ghost predicate FirstsInOrder(base: Option<Cursor>, items: seq<Item>) {
    forall i :: 0 <= i < |items| && AboveBase(base, items[i])
                && (forall k :: 0 <= k < i ==> items[k].cursor != items[i].cursor)
                ==> Record(base, items, i)
  }

  lemma {:induction false} FirstOccurrence(items: seq<Item>, i: nat) returns (k: nat)
    requires i < |items|
    ensures k <= i && items[k].cursor == items[i].cursor
    ensures forall j :: 0 <= j < k ==> items[j].cursor != items[k].cursor
    decreases i
  {
    if j: nat :| j < i && items[j].cursor == items[i].cursor {
      k := FirstOccurrence(items, j);
    } else {
      k := i;
    }
  }

  lemma {:induction false} RecordsLoseNothing(base: Option<Cursor>, items: seq<Item>)
    requires FirstsInOrder(base, items)
    ensures NothingLost(base, items, Records(base, items, 0))
  {
    var emitted := Records(base, items, 0);
    RecordsIncrease(base, items, 0);
    forall i | 0 <= i < |items| && AboveBase(base, items[i])
      ensures exists e :: 0 <= e < |emitted| && emitted[e].cursor == items[i].cursor
    {
      var k := FirstOccurrence(items, i);
      assert items[k] in emitted;
    }
  }

  lemma {:induction false} LosingNothingIsInOrder(base: Option<Cursor>, items: seq<Item>)
    requires NothingLost(base, items, Records(base, items, 0))
    ensures FirstsInOrder(base, items)
  {
    var emitted := Records(base, items, 0);
    RecordsIncrease(base, items, 0);
    forall i | 0 <= i < |items| && AboveBase(base, items[i])
               && (forall k :: 0 <= k < i ==> items[k].cursor != items[i].cursor)
      ensures Record(base, items, i)
    {
      var e :| 0 <= e < |emitted| && emitted[e].cursor == items[i].cursor;
      assert emitted[e] in emitted;
      var k :| 0 <= k < |items| && items[k] == emitted[e] && Record(base, items, k);
      assert k >= i;
    }
  }

  // The guarantee after one snapshot: strictly increasing per generation, nothing the snapshot
  // covers, and nothing above it lost exactly when first arrivals are in order.
  lemma {:induction false} SnapshotThenEvents(base: Option<Cursor>, items: seq<Item>)
    requires NeverReused(base, items)
    ensures var emitted := Accept(base, items);
            && emitted == Records(base, items, 0)
            && (forall a, b :: 0 <= a < b < |emitted| && emitted[a].cursor.generation == emitted[b].cursor.generation
                  ==> emitted[a].cursor.sequence < emitted[b].cursor.sequence)
            && (forall e :: 0 <= e < |emitted| ==> AboveBase(base, emitted[e]))
            && (NothingLost(base, items, emitted) <==> FirstsInOrder(base, items))
  {
    assert items[0..] == items;
    AcceptIsRecords(base, items, 0, base);
    RecordsIncrease(base, items, 0);
    var emitted := Records(base, items, 0);
    forall e | 0 <= e < |emitted|
      ensures AboveBase(base, emitted[e])
    {
      assert emitted[e] in emitted;
    }
    if FirstsInOrder(base, items) {
      RecordsLoseNothing(base, items);
    }
    if NothingLost(base, items, emitted) {
      LosingNothingIsInOrder(base, items);
    }
  }

  // ----- generations that come back

  // Another generation came just before.
  predicate Returns(items: seq<Item>, k: nat)
    requires k < |items|
  {
    k > 0 && items[k - 1].cursor.generation != items[k].cursor.generation
  }

  // The cursor before position i is of the generation that came last.
  ghost predicate Stands(base: Option<Cursor>, items: seq<Item>, i: nat, cursor: Option<Cursor>)
    requires i <= |items|
  {
    && Named(items) && (i == 0 ==> cursor == base)
    && (base.Some? ==> base.value.generation.Some?)
    && (if i == 0 then true else cursor.Some? && cursor.value.generation == items[i - 1].cursor.generation)
  }

  ghost predicate CoveredReturn(base: Option<Cursor>, items: seq<Item>, k: nat) {
    k < |items| && Returns(items, k) && !AboveBase(base, items[k])
  }

  ghost predicate AllAbove(base: Option<Cursor>, emitted: seq<Item>) {
    forall e :: 0 <= e < |emitted| ==> AboveBase(base, emitted[e])
  }

  lemma {:induction false} AllAboveFront(base: Option<Cursor>, item: Item, rest: seq<Item>)
    ensures AllAbove(base, [item] + rest) <==> AboveBase(base, item) && AllAbove(base, rest)
  {
    var all := [item] + rest;
    assert all[0] == item;
    if AllAbove(base, all) {
      forall e | 0 <= e < |rest|
        ensures AboveBase(base, rest[e])
      {
        assert all[e + 1] == rest[e];
      }
    }
  }

  lemma {:induction false} CoveredFrom(base: Option<Cursor>, items: seq<Item>, i: nat, cursor: Option<Cursor>)
    requires i <= |items| && Stands(base, items, i, cursor)
    requires cursor.Some? && base.Some? && cursor.value.generation == base.value.generation
             ==> cursor.value.sequence >= base.value.sequence
    ensures AllAbove(base, Accept(cursor, items[i..])) <==>
                forall k :: i <= k < |items| ==> !CoveredReturn(base, items, k)
    decreases |items| - i
  {
    if i < |items| {
      assert items[i..][1..] == items[i + 1..];
      if Redundant(cursor, Some(items[i].cursor)) {
        assert !CoveredReturn(base, items, i);
        CoveredFrom(base, items, i + 1, cursor);
      } else {
        AllAboveFront(base, items[i], Accept(Some(items[i].cursor), items[i + 1..]));
        assert AboveBase(base, items[i]) <==> !CoveredReturn(base, items, i);
        if AboveBase(base, items[i]) {
          CoveredFrom(base, items, i + 1, Some(items[i].cursor));
        }
      }
    }
  }

  // An event the snapshot covers gets through if and only if one arrives just after an event of
  // another generation.
  lemma {:induction false} CoveredGetsThrough(base: Option<Cursor>, items: seq<Item>)
    requires Named(items) && (base.Some? ==> base.value.generation.Some?)
    ensures (exists e :: e in Accept(base, items) && !AboveBase(base, e))
            <==> exists k :: 0 < k < |items| && !AboveBase(base, items[k])
                             && items[k - 1].cursor.generation != items[k].cursor.generation
  {
    assert items[0..] == items;
    CoveredFrom(base, items, 0, base);
    var emitted := Accept(base, items);
    if e :| e in emitted && !AboveBase(base, e) {
      assert !AllAbove(base, emitted);
      var k: nat :| k < |items| && CoveredReturn(base, items, k);
      assert 0 < k < |items| && !AboveBase(base, items[k]);
    }
    if k :| 0 < k < |items| && !AboveBase(base, items[k])
            && items[k - 1].cursor.generation != items[k].cursor.generation {
      assert CoveredReturn(base, items, k);
      var e :| 0 <= e < |emitted| && !AboveBase(base, emitted[e]);
      assert emitted[e] in emitted;
    }
  }

  ghost predicate Increases(emitted: seq<Item>) {
    forall a, b :: 0 <= a < b < |emitted| && emitted[a].cursor.generation == emitted[b].cursor.generation
      ==> emitted[a].cursor.sequence < emitted[b].cursor.sequence
  }

  // Above the snapshot, or after an event of another generation.
  ghost predicate Counts(base: Option<Cursor>, items: seq<Item>, j: nat)
    requires j < |items|
  {
    AboveBase(base, items[j]) || exists i :: 0 <= i < j && items[i].cursor.generation != items[j].cursor.generation
  }

  // A generation returns with a number that is not above all it had before.
  ghost predicate FallsBack(base: Option<Cursor>, items: seq<Item>, j: nat, k: nat) {
    && j < k < |items| && Returns(items, k) && Counts(base, items, j)
    && items[j].cursor.generation == items[k].cursor.generation
    && items[j].cursor.sequence >= items[k].cursor.sequence
  }

  ghost predicate NoFallBack(base: Option<Cursor>, items: seq<Item>, k: nat) {
    forall j :: 0 <= j < k ==> !FallsBack(base, items, j, k)
  }

  // These events were let through before position i: they are counted events, the newest is the
  // cursor, and each counted event is reached by one of them.
  ghost predicate Given(base: Option<Cursor>, items: seq<Item>, i: nat, cursor: Option<Cursor>, given: seq<Item>)
    requires i <= |items|
  {
    && Stands(base, items, i, cursor) && Increases(given)
    && (if given == [] then cursor == base && forall j :: 0 <= j < i ==> !Counts(base, items, j)
        else cursor == Some(given[|given| - 1].cursor))
    && AllCounted(base, items, i, given) && AllReached(base, items, i, given)
  }

  ghost predicate AllCounted(base: Option<Cursor>, items: seq<Item>, i: nat, given: seq<Item>)
    requires i <= |items|
  {
    forall e :: e in given ==> IsCounted(base, items, i, e)
  }

  ghost predicate AllReached(base: Option<Cursor>, items: seq<Item>, i: nat, given: seq<Item>)
    requires i <= |items|
  {
    forall j :: 0 <= j < i && Counts(base, items, j) ==> Reached(given, items[j])
  }

  ghost predicate IsCounted(base: Option<Cursor>, items: seq<Item>, i: nat, e: Item)
    requires i <= |items|
  {
    exists j :: 0 <= j < i && items[j] == e && Counts(base, items, j)
  }

  ghost predicate Reached(given: seq<Item>, item: Item) {
    exists e :: e in given && e.cursor.generation == item.cursor.generation && e.cursor.sequence >= item.cursor.sequence
  }

  lemma {:induction false} ReachedMore(given: seq<Item>, item: Item, more: Item)
    requires Reached(given, item) || more == item
    ensures Reached(given + [more], item)
  {
    if Reached(given, item) {
      var e :| e in given && e.cursor.generation == item.cursor.generation && e.cursor.sequence >= item.cursor.sequence;
      assert e in given + [more];
    } else {
      assert item in given + [more];
    }
  }

  lemma {:induction false} SkipStays(base: Option<Cursor>, items: seq<Item>, i: nat, cursor: Option<Cursor>)
    requires i < |items| && Stands(base, items, i, cursor) && Redundant(cursor, Some(items[i].cursor))
    ensures Stands(base, items, i + 1, cursor) && !Returns(items, i) && NoFallBack(base, items, i)
  {}

  lemma {:induction false} IsCountedLater(base: Option<Cursor>, items: seq<Item>, i: nat, e: Item)
    requires i < |items| && IsCounted(base, items, i, e)
    ensures IsCounted(base, items, i + 1, e)
  {
    hide Counts;
  }

  lemma {:induction false} SameCounted(base: Option<Cursor>, items: seq<Item>, i: nat, given: seq<Item>)
    requires i < |items| && AllCounted(base, items, i, given)
    ensures AllCounted(base, items, i + 1, given)
  {
    hide IsCounted;
    forall e | e in given
      ensures IsCounted(base, items, i + 1, e)
    {
      IsCountedLater(base, items, i, e);
    }
  }

  lemma {:induction false} SameReached(base: Option<Cursor>, items: seq<Item>, i: nat, given: seq<Item>)
    requires i < |items| && AllReached(base, items, i, given) && (Counts(base, items, i) ==> Reached(given, items[i]))
    ensures AllReached(base, items, i + 1, given)
  {
    hide Counts, Reached;
  }

  lemma {:induction false} SkippedIsReached(items: seq<Item>, i: nat, cursor: Option<Cursor>, given: seq<Item>)
    requires i < |items| && given != [] && cursor == Some(given[|given| - 1].cursor)
    requires cursor.value.generation.Some? && items[i].cursor.generation.Some?
    requires Redundant(cursor, Some(items[i].cursor))
    ensures Reached(given, items[i])
  {
    assert given[|given| - 1] in given;
  }

  lemma {:induction false} SkipKeepsGiven(base: Option<Cursor>, items: seq<Item>, i: nat, cursor: Option<Cursor>,
                                          given: seq<Item>)
    requires i < |items| && Given(base, items, i, cursor, given) && Redundant(cursor, Some(items[i].cursor))
    ensures Given(base, items, i + 1, cursor, given) && NoFallBack(base, items, i)
  {
    SkipStays(base, items, i, cursor);
    if given == [] {
      SkippedIsCovered(base, items, i, cursor);
    } else {
      SkippedIsReached(items, i, cursor, given);
    }
    hide Stands, Redundant, Counts, Increases, AllCounted, AllReached, Reached;
    SameCounted(base, items, i, given);
    SameReached(base, items, i, given);
  }

  // Before anything gets through, all is of the snapshot's generation and covered by it.
  lemma {:induction false} SkippedIsCovered(base: Option<Cursor>, items: seq<Item>, i: nat, cursor: Option<Cursor>)
    requires i < |items| && Given(base, items, i, cursor, []) && Redundant(cursor, Some(items[i].cursor))
    ensures !Counts(base, items, i)
  {
    forall j | 0 <= j < i
      ensures items[j].cursor.generation == items[i].cursor.generation
    {
      assert !Counts(base, items, j);
    }
  }

  // What gets through is counted.
  lemma {:induction false} EmittedCounts(base: Option<Cursor>, items: seq<Item>, i: nat, cursor: Option<Cursor>,
                                         given: seq<Item>)
    requires i < |items| && Given(base, items, i, cursor, given) && !Redundant(cursor, Some(items[i].cursor))
    ensures Counts(base, items, i)
  {
    if given != [] && cursor.value.generation == items[i].cursor.generation {
      assert IsCounted(base, items, i, given[|given| - 1]);
      var j :| 0 <= j < i && items[j] == given[|given| - 1] && Counts(base, items, j);
    }
  }

  lemma {:induction false} IncreasesSnoc(given: seq<Item>, item: Item)
    requires Increases(given)
    ensures Increases(given + [item]) <==> !Reached(given, item)
  {
    var all := given + [item];
    if Reached(given, item) {
      var e :| e in given && e.cursor.generation == item.cursor.generation && e.cursor.sequence >= item.cursor.sequence;
      var a :| 0 <= a < |given| && given[a] == e;
      assert all[a] == e && all[|given|] == item;
    } else {
      forall a | 0 <= a < |given| && given[a].cursor.generation == item.cursor.generation
        ensures given[a].cursor.sequence < item.cursor.sequence
      {
        assert given[a] in given;
      }
    }
  }

  lemma {:induction false} ReachedFurther(given: seq<Item>, item: Item, lower: Item)
    requires Reached(given, item)
    requires item.cursor.generation == lower.cursor.generation && item.cursor.sequence >= lower.cursor.sequence
    ensures Reached(given, lower)
  {}

  // An event that is reached though it gets through has another generation just before it.
  lemma {:induction false} ReachedIsCounted(base: Option<Cursor>, items: seq<Item>, i: nat, cursor: Option<Cursor>,
                                            given: seq<Item>)
    requires i < |items| && Given(base, items, i, cursor, given) && !Redundant(cursor, Some(items[i].cursor))
    requires Reached(given, items[i])
    ensures Returns(items, i)
    ensures exists j :: 0 <= j < i && Counts(base, items, j) && items[j].cursor.generation == items[i].cursor.generation
                        && items[j].cursor.sequence >= items[i].cursor.sequence
  {
    hide Counts;
    var e :| e in given && e.cursor.generation == items[i].cursor.generation
        && e.cursor.sequence >= items[i].cursor.sequence;
    var a :| 0 <= a < |given| && given[a] == e;
    if given[a].cursor.generation == given[|given| - 1].cursor.generation {
      NewestIsHighest(given, a);
    }
    hide Increases;
    assert IsCounted(base, items, i, e);
  }

  lemma {:induction false} NewestIsHighest(given: seq<Item>, a: nat)
    requires Increases(given) && a < |given| && given[a].cursor.generation == given[|given| - 1].cursor.generation
    ensures given[a].cursor.sequence <= given[|given| - 1].cursor.sequence
  {}

  lemma {:induction false} GivenIncreases(base: Option<Cursor>, items: seq<Item>, i: nat, cursor: Option<Cursor>,
                                          given: seq<Item>)
    requires i <= |items| && Given(base, items, i, cursor, given)
    ensures Increases(given) && AllReached(base, items, i, given)
  {}

  // The next event that gets through is above all of its generation, or falls back.
  lemma {:induction false} ReachedFallsBack(base: Option<Cursor>, items: seq<Item>, i: nat, cursor: Option<Cursor>,
                                            given: seq<Item>)
    requires i < |items| && Given(base, items, i, cursor, given) && !Redundant(cursor, Some(items[i].cursor))
    ensures Reached(given, items[i]) <==> !NoFallBack(base, items, i)
  {
    if Reached(given, items[i]) {
      ReachedIsCounted(base, items, i, cursor, given);
      var j :| 0 <= j < i && Counts(base, items, j) && items[j].cursor.generation == items[i].cursor.generation
               && items[j].cursor.sequence >= items[i].cursor.sequence;
      assert FallsBack(base, items, j, i);
    }
    hide Counts, Given, Stands, Redundant, Increases, IsCounted, Reached;
    GivenIncreases(base, items, i, cursor, given);
    if !NoFallBack(base, items, i) {
      var j :| 0 <= j < i && FallsBack(base, items, j, i);
      ReachedFurther(given, items[j], items[i]);
    }
  }

  lemma {:induction false} EmitStands(base: Option<Cursor>, items: seq<Item>, i: nat, cursor: Option<Cursor>)
    requires i < |items| && Stands(base, items, i, cursor)
    ensures Stands(base, items, i + 1, Some(items[i].cursor))
  {}

  lemma {:induction false} MoreCounted(base: Option<Cursor>, items: seq<Item>, i: nat, given: seq<Item>)
    requires i < |items| && Counts(base, items, i) && AllCounted(base, items, i, given)
    ensures AllCounted(base, items, i + 1, given + [items[i]])
  {
    hide Counts;
    SameCounted(base, items, i, given);
    assert IsCounted(base, items, i + 1, items[i]);
  }

  lemma {:induction false} MoreReached(base: Option<Cursor>, items: seq<Item>, i: nat, given: seq<Item>)
    requires i < |items| && AllReached(base, items, i, given)
    ensures AllReached(base, items, i + 1, given + [items[i]])
  {
    hide Counts, Reached;
    forall j | 0 <= j < i + 1 && Counts(base, items, j)
      ensures Reached(given + [items[i]], items[j])
    {
      ReachedMore(given, items[j], items[i]);
    }
  }

  lemma {:induction false} EmitKeepsGiven(base: Option<Cursor>, items: seq<Item>, i: nat, cursor: Option<Cursor>,
                                          given: seq<Item>)
    requires i < |items| && Given(base, items, i, cursor, given) && !Redundant(cursor, Some(items[i].cursor))
    requires Increases(given + [items[i]])
    ensures Given(base, items, i + 1, Some(items[i].cursor), given + [items[i]])
  {
    EmittedCounts(base, items, i, cursor, given);
    EmitStands(base, items, i, cursor);
    hide Stands, Redundant, Counts, Increases, AllCounted, AllReached;
    MoreCounted(base, items, i, given);
    MoreReached(base, items, i, given);
  }

  lemma {:induction false} IncreasesFrom(base: Option<Cursor>, items: seq<Item>, i: nat, cursor: Option<Cursor>,
                                         given: seq<Item>)
    requires i <= |items| && Given(base, items, i, cursor, given)
    ensures Increases(given + Accept(cursor, items[i..])) <==>
                forall k :: i <= k < |items| ==> NoFallBack(base, items, k)
    decreases |items| - i
  {
    hide Given, Increases, NoFallBack, Reached, Stands;
    if i == |items| {
      assert given + Accept(cursor, items[i..]) == given;
      GivenIncreases(base, items, i, cursor, given);
    } else {
      assert items[i..][1..] == items[i + 1..];
      if Redundant(cursor, Some(items[i].cursor)) {
        SkipKeepsGiven(base, items, i, cursor, given);
        IncreasesFrom(base, items, i + 1, cursor, given);
      } else {
        var rest := Accept(Some(items[i].cursor), items[i + 1..]);
        assert given + ([items[i]] + rest) == given + [items[i]] + rest;
        GivenIncreases(base, items, i, cursor, given);
        IncreasesSnoc(given, items[i]);
        ReachedFallsBack(base, items, i, cursor, given);
        if Increases(given + [items[i]]) {
          EmitKeepsGiven(base, items, i, cursor, given);
          IncreasesFrom(base, items, i + 1, Some(items[i].cursor), given + [items[i]]);
        } else if Increases(given + [items[i]] + rest) {
          PrefixIncreases(given + [items[i]], rest);
        }
      }
    }
  }

  lemma {:induction false} PrefixIncreases(a: seq<Item>, b: seq<Item>)
    requires Increases(a + b)
    ensures Increases(a)
  {
    assert forall i :: 0 <= i < |a| ==> (a + b)[i] == a[i];
  }

  // Events increase per generation if and only if no generation comes back with a number it had
  // already reached, above the snapshot or after another generation.
  lemma {:induction false} IncreasingExactly(base: Option<Cursor>, items: seq<Item>)
    requires Named(items) && (base.Some? ==> base.value.generation.Some?)
    ensures Increases(Accept(base, items)) <==> !exists j, k :: FallsBack(base, items, j, k)
  {
    assert items[0..] == items && [] + Accept(base, items) == Accept(base, items);
    IncreasesFrom(base, items, 0, base, []);
    if j, k :| FallsBack(base, items, j, k) {
      assert !NoFallBack(base, items, k);
    }
  }

  // ----- cursors without a generation

  // How many events come before the first one past a number.
  function FirstPast(sequence: int, items: seq<Item>): (f: nat)
    ensures f <= |items| && forall i :: 0 <= i < f ==> items[i].cursor.sequence <= sequence
    ensures f < |items| ==> items[f].cursor.sequence > sequence
  {
    if items == [] || items[0].cursor.sequence > sequence then 0 else 1 + FirstPast(sequence, items[1..])
  }

  // A snapshot that names no generation covers every event up to the first past its number; from
  // there on it says nothing more.
  lemma {:induction false} UnnamedSnapshot(sequence: int, items: seq<Item>)
    ensures Accept(Some(Cursor(None, sequence)), items) == Accept(None, items[FirstPast(sequence, items)..])
  {
    if items != [] && items[0].cursor.sequence <= sequence {
      UnnamedSnapshot(sequence, items[1..]);
      var f := FirstPast(sequence, items[1..]);
      assert items[1..][f..] == items[1 + f..];
    } else {
      assert items[0..] == items;
    }
  }

  ghost predicate AllPast(sequence: int, emitted: seq<Item>) {
    forall e :: 0 <= e < |emitted| ==> emitted[e].cursor.sequence > sequence
  }

  ghost predicate LowReturn(sequence: int, items: seq<Item>, k: nat) {
    k < |items| && Returns(items, k) && items[k].cursor.sequence <= sequence
  }

  lemma {:induction false} AllPastFront(sequence: int, item: Item, rest: seq<Item>)
    ensures AllPast(sequence, [item] + rest) <==> item.cursor.sequence > sequence && AllPast(sequence, rest)
  {
    var all := [item] + rest;
    assert all[0] == item;
    if AllPast(sequence, all) {
      forall e | 0 <= e < |rest|
        ensures rest[e].cursor.sequence > sequence
      {
        assert all[e + 1] == rest[e];
      }
    }
  }

  lemma {:induction false} LowFrom(sequence: int, items: seq<Item>, i: nat, cursor: Cursor)
    requires 0 < i <= |items| && Stands(None, items, i, Some(cursor)) && cursor.sequence > sequence
    ensures AllPast(sequence, Accept(Some(cursor), items[i..]))
            <==> forall k :: i <= k < |items| ==> !LowReturn(sequence, items, k)
    decreases |items| - i
  {
    if i < |items| {
      AcceptStep(Some(cursor), items, i);
      if Redundant(Some(cursor), Some(items[i].cursor)) {
        assert !LowReturn(sequence, items, i);
        LowFrom(sequence, items, i + 1, cursor);
      } else {
        AllPastFront(sequence, items[i], Accept(Some(items[i].cursor), items[i + 1..]));
        assert items[i].cursor.sequence > sequence <==> !LowReturn(sequence, items, i);
        if items[i].cursor.sequence > sequence {
          LowFrom(sequence, items, i + 1, items[i].cursor);
        }
      }
    }
  }

  // Under such a snapshot an event up to its number gets through if and only if, after the first one
  // past it, one arrives just after an event of another generation; and events increase per generation
  // if and only if, from that first one on, no generation falls back.
  lemma {:induction false} UnnamedSnapshotExactly(sequence: int, items: seq<Item>)
    requires Named(items)
    ensures var emitted := Accept(Some(Cursor(None, sequence)), items);
            var rest := items[FirstPast(sequence, items)..];
            && (AllPast(sequence, emitted) <==> forall k :: 0 <= k < |rest| ==> !LowReturn(sequence, rest, k))
            && (Increases(emitted) <==> !exists j, k :: FallsBack(None, rest, j, k))
  {
    UnnamedSnapshot(sequence, items);
    var rest := items[FirstPast(sequence, items)..];
    assert Named(rest) by { NamedSuffix(items, FirstPast(sequence, items)); }
    hide Increases, FallsBack, FirstPast, Named;
    IncreasingExactly(None, rest);
    if rest != [] {
      LowExactly(sequence, rest);
    }
  }

  lemma {:induction false} NamedSuffix(items: seq<Item>, f: nat)
    requires Named(items) && f <= |items|
    ensures Named(items[f..])
  {}

  lemma {:induction false} LowExactly(sequence: int, rest: seq<Item>)
    requires rest != [] && Named(rest) && rest[0].cursor.sequence > sequence
    ensures AllPast(sequence, Accept(None, rest)) <==> forall k :: 0 <= k < |rest| ==> !LowReturn(sequence, rest, k)
  {
    assert rest[0..] == rest;
    assert Stands(None, rest, 1, Some(rest[0].cursor)) && !LowReturn(sequence, rest, 0);
    AcceptStep(None, rest, 0);
    assert !Redundant(None, Some(rest[0].cursor));
    hide Accept, Redundant, Stands, Named, AllPast, LowReturn;
    AllPastFront(sequence, rest[0], Accept(Some(rest[0].cursor), rest[1..]));
    LowFrom(sequence, rest, 1, rest[0].cursor);
  }

  // Events that name no generation are let through exactly when they exceed the snapshot and all
  // before them.
  lemma {:induction false} UnnamedEvents(cursor: Cursor, items: seq<Item>)
    requires forall i :: 0 <= i < |items| ==> items[i].cursor.generation.None?
    ensures Accept(Some(cursor), items) == Rises(cursor.sequence, items)
    decreases |items|
  {
    if items != [] {
      UnnamedEvents(if items[0].cursor.sequence > cursor.sequence then items[0].cursor else cursor, items[1..]);
    }
  }

  // The events that exceed a number and all before them.
  function Rises(sequence: int, items: seq<Item>): (r: seq<Item>)
    ensures forall i :: 0 <= i < |r| ==> r[i].cursor.sequence > sequence
    ensures forall i, j :: 0 <= i < j < |r| ==> r[i].cursor.sequence < r[j].cursor.sequence
    decreases |items|
  {
    if items == [] then []
    else if items[0].cursor.sequence > sequence then [items[0]] + Rises(items[0].cursor.sequence, items[1..])
    else Rises(sequence, items[1..])
  }

  // A generation that comes back lets through an event the snapshot covers.
  lemma {:induction false} ReusedGenerationRepeats()
    ensures var base := Some(Cursor(Some("b"), 5));
            var items := [Item(Cursor(Some("a"), 7), "old"), Item(Cursor(Some("b"), 3), "covered")];
            !NeverReused(base, items) && Accept(base, items) == items && !AboveBase(base, items[1])
  {
    var items := [Item(Cursor(Some("a"), 7), "old"), Item(Cursor(Some("b"), 3), "covered")];
    assert items[1..] == [items[1]] && items[1..][1..] == [];
    assert items[0].cursor.generation != Some("b");
  }

  // ----- runs

  datatype Step = Arrive(frame: Frame) | Close | Recovered(snapshot: Option<Cursor>) | Failed(error: string)

  // The session together with what arrived since its last snapshot, and where that snapshot's
  // events begin in the output.
  datatype Trace = Trace(session: Session, base: Option<Cursor>, seen: seq<Frame>, aside: seq<Frame>, mark: nat)

  predicate Possible(tr: Trace, step: Step) {
    match step
    case Arrive(frame) => !Rebinds(frame, tr.session.active)
    case Close => !tr.session.recovering
    case Recovered(_) => tr.session.recovering
    case Failed(_) => tr.session.recovering
  }

  function Next(tr: Trace, step: Step): Trace {
    match step
    case Arrive(frame) =>
      if tr.session.recovering then tr.(session := Process(tr.session, frame), aside := tr.aside + [frame])
      else tr.(session := Process(tr.session, frame), seen := tr.seen + [frame])
    case Close =>
      tr.(session := tr.session.(recovering := true, out := tr.session.out + [Reconnecting]), aside := [])
    case Recovered(snapshot) =>
      Trace(Recover(tr.session, snapshot), snapshot, tr.aside, [], |tr.session.out| + 1)
    case Failed(error) =>
      tr.(session := tr.session.(recovering := false, recoveryFrames := [], out := tr.session.out + [Closed(error)]),
          aside := [])
  }

  function Attached(active: string, snapshot: Option<Cursor>, buffered: seq<Frame>): Trace {
    Trace(ProcessAll(Session(active, snapshot, false, [], []), buffered), snapshot, buffered, [], 0)
  }

  ghost predicate IsRun(traces: seq<Trace>, steps: seq<Step>, active: string, snapshot: Option<Cursor>,
                        buffered: seq<Frame>) {
    && |traces| == |steps| + 1 && traces[0] == Attached(active, snapshot, buffered)
    && (forall i :: 0 <= i < |buffered| ==> !Rebinds(buffered[i], active))
    && forall i :: 0 <= i < |steps| ==> Possible(traces[i], steps[i]) && traces[i + 1] == Next(traces[i], steps[i])
  }

  ghost predicate Consistent(tr: Trace, active: string) {
    && tr.session.active == active && tr.mark <= |tr.session.out|
    && (forall i :: 0 <= i < |tr.aside| ==> !Rebinds(tr.aside[i], active))
    && tr.session.recoveryFrames == (if tr.session.recovering then tr.aside else [])
    && ItemsOut(tr.session.out[tr.mark..]) == Accept(tr.base, ItemsOf(tr.seen, active))
    && tr.session.cursor == After(tr.base, ItemsOf(tr.seen, active))
  }

  // Events emitted after the mark, continued.
  lemma {:induction false} ContinueAfterMark(tr: Trace, after: Session, active: string, frames: seq<Frame>)
    requires Consistent(tr, active) && Emits(tr.session, after, ItemsOf(frames, active))
    ensures ItemsOut(after.out[tr.mark..]) == Accept(tr.base, ItemsOf(tr.seen + frames, active))
    ensures after.cursor == After(tr.base, ItemsOf(tr.seen + frames, active))
  {
    var out := tr.session.out;
    assert after.out[tr.mark..] == out[tr.mark..] + after.out[|out|..];
    ItemsOutConcat(out[tr.mark..], after.out[|out|..]);
    ItemsOfConcat(tr.seen, frames, active);
    AcceptConcat(tr.base, ItemsOf(tr.seen, active), ItemsOf(frames, active));
  }

  lemma {:induction false} ConsistentArrive(tr: Trace, active: string, frame: Frame)
    requires Consistent(tr, active) && !Rebinds(frame, active)
    ensures Consistent(Next(tr, Arrive(frame)), active)
  {
    if !tr.session.recovering {
      EmitsStep(tr.session, frame);
      ContinueAfterMark(tr, Process(tr.session, frame), active, [frame]);
    }
  }

  // A status notice adds no event.
  lemma {:induction false} NoticeAddsNothing(out: seq<Emission>, mark: nat, notice: Emission)
    requires mark <= |out| && !notice.Event?
    ensures ItemsOut((out + [notice])[mark..]) == ItemsOut(out[mark..])
  {
    assert (out + [notice])[mark..] == out[mark..] + [notice];
    ItemsOutConcat(out[mark..], [notice]);
    assert [notice][..0] == [];
  }

  lemma {:induction false} ConsistentRecovered(tr: Trace, active: string, snapshot: Option<Cursor>)
    requires Consistent(tr, active) && tr.session.recovering
    ensures Consistent(Next(tr, Recovered(snapshot)), active)
  {
    var based := tr.session.(cursor := snapshot, recovering := false, recoveryFrames := [],
                             out := tr.session.out + [Resynced]);
    EmitsAll(based, tr.aside);
    NoticeAddsNothing(ProcessAll(based, tr.aside).out, |based.out|, Connected);
  }

  lemma {:induction false} RunsAreConsistent(traces: seq<Trace>, steps: seq<Step>, active: string,
                                             snapshot: Option<Cursor>, buffered: seq<Frame>, n: nat)
    requires IsRun(traces, steps, active, snapshot, buffered) && n < |traces|
    ensures Consistent(traces[n], active)
  {
    if n == 0 {
      EmitsAll(Session(active, snapshot, false, [], []), buffered);
      assert traces[0].session.out[0..] == traces[0].session.out;
    } else {
      RunsAreConsistent(traces, steps, active, snapshot, buffered, n - 1);
      var tr := traces[n - 1];
      match steps[n - 1]
      case Arrive(frame) => ConsistentArrive(tr, active, frame);
      case Close => NoticeAddsNothing(tr.session.out, tr.mark, Reconnecting);
      case Recovered(c) => ConsistentRecovered(tr, active, c);
      case Failed(error) => NoticeAddsNothing(tr.session.out, tr.mark, Closed(error));
    }
  }

  // Over attach, live frames, disconnects and recoveries: the events since the last snapshot are
  // the records among what arrived since, so they increase, none is covered by the snapshot, and
  // none above it is lost when first arrivals are in order.
  lemma {:induction false} DeliveryAfterSnapshot(traces: seq<Trace>, steps: seq<Step>, active: string,
                              snapshot: Option<Cursor>, buffered: seq<Frame>, n: nat)
    requires IsRun(traces, steps, active, snapshot, buffered) && n < |traces|
    requires NeverReused(traces[n].base, ItemsOf(traces[n].seen, active))
    ensures var tr := traces[n]; var items := ItemsOf(tr.seen, active);
            tr.mark <= |tr.session.out| &&
            var emitted := ItemsOut(tr.session.out[tr.mark..]);
            && emitted == Records(tr.base, items, 0)
            && (forall a, b :: 0 <= a < b < |emitted| && emitted[a].cursor.generation == emitted[b].cursor.generation
                  ==> emitted[a].cursor.sequence < emitted[b].cursor.sequence)
            && (forall e :: 0 <= e < |emitted| ==> AboveBase(tr.base, emitted[e]))
            && (NothingLost(tr.base, items, emitted) <==> FirstsInOrder(tr.base, items))
  {
    RunsAreConsistent(traces, steps, active, snapshot, buffered, n);
    SnapshotThenEvents(traces[n].base, ItemsOf(traces[n].seen, active));
  }

  // The same over every run, whatever generations come back: what the snapshot covers gets through,
  // and numbers fall back, on these inputs and on no others.
  lemma {:induction false} DeliveryUnderReuse(traces: seq<Trace>, steps: seq<Step>, active: string,
                              snapshot: Option<Cursor>, buffered: seq<Frame>, n: nat)
    requires IsRun(traces, steps, active, snapshot, buffered) && n < |traces|
    requires Named(ItemsOf(traces[n].seen, active))
    requires traces[n].base.Some? ==> traces[n].base.value.generation.Some?
    ensures var tr := traces[n]; var items := ItemsOf(tr.seen, active);
            tr.mark <= |tr.session.out| &&
            var emitted := ItemsOut(tr.session.out[tr.mark..]);
            && ((exists e :: e in emitted && !AboveBase(tr.base, e))
                <==> exists k :: 0 < k < |items| && !AboveBase(tr.base, items[k])
                                 && items[k - 1].cursor.generation != items[k].cursor.generation)
            && (Increases(emitted) <==> !exists j, k :: FallsBack(tr.base, items, j, k))
  {
    RunsAreConsistent(traces, steps, active, snapshot, buffered, n);
    CoveredGetsThrough(traces[n].base, ItemsOf(traces[n].seen, active));
    IncreasingExactly(traces[n].base, ItemsOf(traces[n].seen, active));
  }

  // ----- what a listener hears

  // What frames make the adapter emit, one after the other.
  function Heard(active: string, cursor: Option<Cursor>, frames: seq<Frame>): seq<Emission>
    decreases |frames|
  {
    if frames == [] then []
    else
      var rest := frames[1..];
      match frames[0]
      case SessionBinding(previous, next) =>
        Heard(if previous == active || next == active then next else active, cursor, rest)
      case SessionEvent(session, at, event) =>
        var covered := cursor.Some? && at.Some? && at.value.sequence <= cursor.value.sequence
                       && (cursor.value.generation == at.value.generation
                           || cursor.value.generation.None? || at.value.generation.None?);
        if session != active || covered then Heard(active, cursor, rest)
        else [Event(at, event)] + Heard(active, if at.Some? then at else cursor, rest)
      case HeartbeatsChanged => [Heartbeats] + Heard(active, cursor, rest)
      case SessionClosed(session, reason) =>
        (if session == active then [Closed(reason)] else []) + Heard(active, cursor, rest)
      case Unknown => Heard(active, cursor, rest)
  }

  lemma {:induction false} ProcessAllFront(st: Session, frames: seq<Frame>)
    requires frames != []
    ensures ProcessAll(st, frames) == ProcessAll(Process(st, frames[0]), frames[1..])
  {
    hide Process;
    var front := frames[..|frames| - 1];
    if front == [] {
      assert ProcessAll(st, front) == st && frames[1..] == [];
    } else {
      ProcessAllFront(st, front);
      assert front[1..] == frames[1..][..|frames[1..]| - 1] && front[0] == frames[0];
    }
  }

  lemma {:induction false} ProcessHears(st: Session, frames: seq<Frame>)
    requires !st.recovering
    ensures ProcessAll(st, frames).out == st.out + Heard(st.active, st.cursor, frames)
    ensures !ProcessAll(st, frames).recovering
    decreases |frames|
  {
    if frames != [] {
      ProcessAllFront(st, frames);
      var after := Process(st, frames[0]);
      ProcessHears(after, frames[1..]);
      hide ProcessAll;
      var rest := Heard(after.active, after.cursor, frames[1..]);
      assert forall e: Emission :: st.out + [e] + rest == st.out + ([e] + rest);
    }
  }

  // What each step adds to the output.
  function Adds(tr: Trace, step: Step): seq<Emission> {
    match step
    case Arrive(frame) => if tr.session.recovering then [] else Heard(tr.session.active, tr.session.cursor, [frame])
    case Close => [Reconnecting]
    case Recovered(snapshot) => [Resynced] + Heard(tr.session.active, snapshot, tr.aside) + [Connected]
    case Failed(error) => [Closed(error)]
  }

  lemma {:induction false} StepAdds(tr: Trace, step: Step, active: string)
    requires Consistent(tr, active) && Possible(tr, step)
    ensures Next(tr, step).session.out == tr.session.out + Adds(tr, step)
  {
    match step
    case Arrive(frame) =>
      if !tr.session.recovering {
        assert [frame][..0] == [];
        assert ProcessAll(tr.session, [frame]) == Process(tr.session, frame);
        ProcessHears(tr.session, [frame]);
      }
    case Recovered(snapshot) =>
      ProcessHears(tr.session.(cursor := snapshot, recovering := false, recoveryFrames := [],
                               out := tr.session.out + [Resynced]), tr.aside);
    case _ =>
  }

  // The newest snapshot notice stands just before the mark, and there is none after it.
  ghost predicate Marked(tr: Trace) {
    && tr.mark <= |tr.session.out| && (tr.mark > 0 ==> tr.session.out[tr.mark - 1] == Resynced)
    && forall i :: tr.mark <= i < |tr.session.out| ==> tr.session.out[i] != Resynced
  }

  lemma {:induction false} HeardIsNoNotice(active: string, cursor: Option<Cursor>, frames: seq<Frame>)
    ensures forall e :: e in Heard(active, cursor, frames) ==> e.Event? || e.Heartbeats? || e.Closed?
    decreases |frames|
  {
    if frames != [] {
      var frame := frames[0];
      match frame
      case SessionBinding(previous, next) =>
        HeardIsNoNotice(if previous == active || next == active then next else active, cursor, frames[1..]);
      case SessionEvent(_, at, _) =>
        HeardIsNoNotice(active, cursor, frames[1..]);
        HeardIsNoNotice(active, if at.Some? then at else cursor, frames[1..]);
      case _ => HeardIsNoNotice(active, cursor, frames[1..]);
    }
  }

  lemma {:induction false} StepMarks(tr: Trace, step: Step, active: string)
    requires Consistent(tr, active) && Possible(tr, step) && Marked(tr)
    ensures Marked(Next(tr, step))
  {
    StepAdds(tr, step, active);
    match step
    case Arrive(frame) => HeardIsNoNotice(tr.session.active, tr.session.cursor, [frame]);
    case Recovered(snapshot) => HeardIsNoNotice(tr.session.active, snapshot, tr.aside);
    case _ =>
    hide Heard, Process, ProcessAll, Recover;
  }

  lemma {:induction false} AttachedHears(active: string, snapshot: Option<Cursor>, buffered: seq<Frame>)
    ensures var tr := Attached(active, snapshot, buffered);
            tr.session.out == Heard(active, snapshot, buffered) && Marked(tr)
  {
    ProcessHears(Session(active, snapshot, false, [], []), buffered);
    var heard := Heard(active, snapshot, buffered);
    assert [] + heard == heard;
    HeardIsNoNotice(active, snapshot, buffered);
    assert forall i :: 0 <= i < |heard| ==> heard[i] in heard;
    hide Heard, ProcessAll;
  }

  lemma {:induction false} RunsAreMarked(traces: seq<Trace>, steps: seq<Step>, active: string,
                                         snapshot: Option<Cursor>, buffered: seq<Frame>, n: nat)
    requires IsRun(traces, steps, active, snapshot, buffered) && n < |traces|
    ensures Marked(traces[n])
  {
    hide Heard, Next, Possible, Attached, Consistent, Marked;
    if n == 0 {
      AttachedHears(active, snapshot, buffered);
    } else {
      RunsAreMarked(traces, steps, active, snapshot, buffered, n - 1);
      RunsAreConsistent(traces, steps, active, snapshot, buffered, n - 1);
      StepMarks(traces[n - 1], steps[n - 1], active);
    }
  }

  // Over every run: a recovery is told as the snapshot notice, then exactly what the frames kept
  // aside emit after that snapshot, then the connected notice; every other step adds its own notice
  // or what its frame emits. The notice of the newest snapshot stands just before the mark, and no
  // other follows.
  lemma {:induction false} OutputIsTold(traces: seq<Trace>, steps: seq<Step>, active: string,
                                        snapshot: Option<Cursor>, buffered: seq<Frame>, n: nat)
    requires IsRun(traces, steps, active, snapshot, buffered) && n < |traces|
    ensures traces[0].session.out == Heard(active, snapshot, buffered) && Marked(traces[n])
    ensures n < |steps| ==> traces[n + 1].session.out == traces[n].session.out + Adds(traces[n], steps[n])
    ensures n < |steps| && steps[n].Recovered? ==> traces[n + 1].mark == |traces[n].session.out| + 1
  {
    RunsAreMarked(traces, steps, active, snapshot, buffered, n);
    AttachedHears(active, snapshot, buffered);
    RunsAreConsistent(traces, steps, active, snapshot, buffered, n);
    hide Heard, Possible, Attached, Consistent, Marked, Process, Recover;
    if n < |steps| {
      StepAdds(traces[n], steps[n], active);
    }
  }
}
