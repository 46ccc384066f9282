/** Per-session sequence-gap detection on raw daemon frames, and the emitter it listens to. */
module SequenceGap {
  import opened Wrappers

  datatype Position = Position(generation: Option<string>, sequence: int)

  datatype Kind = Update | Closed | Plain

  datatype Meta = Meta(activeSessionId: Option<string>, cursor: Option<Position>,
                       generation: Option<string>, sequence: Option<int>)

  datatype Frame =
    | SessionBinding(previousActiveSessionId: Option<string>)
    | SnapshotEnd(activeSessionId: Option<string>, lastSequence: Option<int>, lastCursor: Option<Position>)
    | AttachResponse(success: bool, activeSessionId: Option<string>, lastSequence: Option<int>,
        lastCursor: Option<Position>)
    | Session(activeSessionId: Option<string>, meta: Option<Meta>, kind: Kind)

  datatype Gap = Gap(activeSessionId: string, generation: Option<string>, lastSequence: int,
                     receivedSequence: int, missing: int)

  function Baseline(lastSequence: Option<int>, lastCursor: Option<Position>): Option<Position> {
    if lastCursor.Some? then lastCursor
    else if lastSequence.Some? then Some(Position(None, lastSequence.value))
    else None
  }

  // The cursor names the position; the frame's own generation fills a missing one.
  function Current(meta: Meta): Option<Position> {
    if meta.cursor.Some? then
      Some(meta.cursor.value.(generation := if meta.cursor.value.generation.Some? then meta.cursor.value.generation
                                            else meta.generation))
    else if meta.sequence.Some? then Some(Position(meta.generation, meta.sequence.value))
    else None
  }

  function SessionOf(frame: Frame): Option<string>
    requires frame.Session?
  {
    if frame.activeSessionId.Some? then frame.activeSessionId
    else if frame.meta.Some? then frame.meta.value.activeSessionId
    else None
  }

  predicate SameGeneration(previous: Position, current: Position) {
    previous.generation.None? || current.generation.None? || previous.generation == current.generation
  }

  // ----- the tracker for one session

  // The session whose position a frame may change.
  function Touches(frame: Frame): Option<string> {
    match frame
    case SessionBinding(previous) => previous
    case SnapshotEnd(session, sequence, cursor) => if Baseline(sequence, cursor).Some? then session else None
    case AttachResponse(success, session, sequence, cursor) =>
      if success && Baseline(sequence, cursor).Some? then session else None
    case Session(_, meta, _) =>
      if meta.None? || Current(meta.value).None? || SessionOf(frame) == Some("") then None else SessionOf(frame)
  }

  datatype Observation = Observation(position: Option<Position>, gap: Option<Gap>)

  predicate Advances(previous: Option<Position>, current: Position) {
    previous.None? || !SameGeneration(previous.value, current) || current.sequence > previous.value.sequence
  }

  // A jump inside one generation.
  predicate Jumps(previous: Option<Position>, current: Position) {
    previous.Some? && SameGeneration(previous.value, current) && current.sequence > previous.value.sequence + 1
  }

  function Move(previous: Option<Position>, frame: Frame): Observation
    requires Touches(frame).Some?
  {
    match frame
    case SessionBinding(_) => Observation(None, None)
    case SnapshotEnd(_, sequence, cursor) => Observation(Baseline(sequence, cursor), None)
    case AttachResponse(_, _, sequence, cursor) => Observation(Baseline(sequence, cursor), None)
    case Session(_, meta, kind) =>
      var current := Current(meta.value).value;
      Observation(
        if kind == Closed then None else if Advances(previous, current) then Some(current) else previous,
        if Jumps(previous, current) && kind != Update then
          Some(Gap(Touches(frame).value,
                   if current.generation.Some? then current.generation else previous.value.generation,
                   previous.value.sequence, current.sequence, current.sequence - previous.value.sequence - 1))
        else None)
  }

  function Lookup(positions: map<string, Position>, session: string): Option<Position> {
    if session in positions then Some(positions[session]) else None
  }

  // ----- the tracker over a shared map

  class Tracker {
    var positions: map<string, Position>

    constructor ()
      ensures positions == map[]
    {
      positions := map[];
    }

    method SetBaseline(activeSessionId: Option<string>, sequence: Option<int>, cursor: Option<Position>)
      modifies this
      ensures forall s :: Lookup(positions, s)
                == if activeSessionId == Some(s) && Baseline(sequence, cursor).Some? then Baseline(sequence, cursor)
                   else Lookup(old(positions), s)
    {
      if activeSessionId.None? { return; }
      var baseline := if cursor.Some? then cursor
                      else if sequence.Some? then Some(Position(None, sequence.value)) else None;
      if baseline.Some? {
        positions := positions[activeSessionId.value := baseline.value];
      }
    }

    // A frame moves the one session it belongs to, by that session's position alone.
    method Observe(frame: Frame) returns (gap: Option<Gap>)
      modifies this
      ensures forall s :: Lookup(positions, s)
                == if Touches(frame) == Some(s) then Move(Lookup(old(positions), s), frame).position
                   else Lookup(old(positions), s)
      ensures gap == if Touches(frame).Some? then Move(Lookup(old(positions), Touches(frame).value), frame).gap
              else None
    {
      gap := None;
      match frame
      case SessionBinding(previous) =>
        if previous.Some? { positions := positions - {previous.value}; }
      case SnapshotEnd(session, sequence, cursor) =>
        SetBaseline(session, sequence, cursor);
      case AttachResponse(success, session, sequence, cursor) =>
        if success { SetBaseline(session, sequence, cursor); }
      case Session(frameSession, meta, kind) =>
        if meta.None? { return; }
        var session := if frameSession.Some? then frameSession else meta.value.activeSessionId;
        var position := Current(meta.value);
        if session.None? || session.value == "" || position.None? { return; }
        var id, current := session.value, position.value;
        var previous := Lookup(positions, id);
        var sameGeneration := previous.Some? &&
          (previous.value.generation.None? || current.generation.None?
              || previous.value.generation == current.generation);
        if kind == Closed {
          positions := positions - {id};
        } else if previous.None? || !sameGeneration || current.sequence > previous.value.sequence {
          positions := positions[id := current];
        }
        if previous.None? || !sameGeneration || current.sequence <= previous.value.sequence + 1 { return; }
        if kind == Update { return; }
        gap := Some(Gap(id, if current.generation.Some? then current.generation else previous.value.generation,
                        previous.value.sequence, current.sequence, current.sequence - previous.value.sequence - 1));
    }

    method Reset(activeSessionId: Option<string>)
      modifies this
      ensures forall s :: Lookup(positions, s)
                == if activeSessionId.None? || activeSessionId == Some(s) then None else Lookup(old(positions), s)
    {
      positions := if activeSessionId.None? then map[] else positions - {activeSessionId.value};
    }
  }

  // ----- runs

  // What Observe does to the map, and the gaps it reported.
  datatype Run = Run(positions: map<string, Position>, gaps: seq<Gap>)

  function After(positions: map<string, Position>, frame: Frame): map<string, Position> {
    if Touches(frame).None? then positions
    else
      var moved := Move(Lookup(positions, Touches(frame).value), frame).position;
      if moved.Some? then positions[Touches(frame).value := moved.value] else positions - {Touches(frame).value}
  }

  function GapOf(positions: map<string, Position>, frame: Frame): seq<Gap> {
    if Touches(frame).None? then []
    else
      var gap := Move(Lookup(positions, Touches(frame).value), frame).gap;
      if gap.Some? then [gap.value] else []
  }

  function Tracked(frames: seq<Frame>): Run {
    if frames == [] then Run(map[], [])
    else
      var before := Tracked(frames[..|frames| - 1]);
      Run(After(before.positions, frames[|frames| - 1]), before.gaps + GapOf(before.positions, frames[|frames| - 1]))
  }

  function Mine(frames: seq<Frame>, session: string): seq<Frame> {
    if frames == [] then []
    else Mine(frames[..|frames| - 1], session)
         + (if Touches(frames[|frames| - 1]) == Some(session) then [frames[|frames| - 1]] else [])
  }

  function GapsOf(gaps: seq<Gap>, session: string): seq<Gap> {
    if gaps == [] then []
    else GapsOf(gaps[..|gaps| - 1], session)
         + (if gaps[|gaps| - 1].activeSessionId == session then [gaps[|gaps| - 1]] else [])
  }

  // The class is the fold: observing a frame is one step of Tracked.
  method ObserveAll(tracker: Tracker, frames: seq<Frame>) returns (gaps: seq<Gap>)
    requires tracker.positions == map[]
    modifies tracker
    ensures tracker.positions == Tracked(frames).positions && gaps == Tracked(frames).gaps
  {
    gaps := [];
    ghost var done: seq<Frame> := [];
    for i := 0 to |frames|
      invariant done == frames[..i]
      invariant tracker.positions == Tracked(done).positions && gaps == Tracked(done).gaps
    {
      ghost var before := tracker.positions;
      var gap := tracker.Observe(frames[i]);
      LookupDetermines(tracker.positions, After(before, frames[i]));
      if gap.Some? { gaps := gaps + [gap.value]; }
      assert (done + [frames[i]])[..i] == done;
      done := done + [frames[i]];
    }
    assert done == frames;
  }

  lemma {:induction false} LookupDetermines(a: map<string, Position>, b: map<string, Position>)
    requires forall s :: Lookup(a, s) == Lookup(b, s)
    ensures a == b
  {
    forall s
      ensures s in a <==> s in b
    {
      assert Lookup(a, s) == Lookup(b, s);
    }
    forall s | s in a
      ensures a[s] == b[s]
    {
      assert Lookup(a, s) == Lookup(b, s);
    }
  }

  lemma {:induction false} MineSnoc(frames: seq<Frame>, frame: Frame, session: string)
    ensures Mine(frames + [frame], session)
            == if Touches(frame) == Some(session) then Mine(frames, session) + [frame] else Mine(frames, session)
  {
    assert (frames + [frame])[..|frames + [frame]| - 1] == frames;
  }

  lemma {:induction false} LookupAfter(positions: map<string, Position>, frame: Frame, session: string)
    ensures Lookup(After(positions, frame), session)
            == if Touches(frame) == Some(session) then Move(Lookup(positions, session), frame).position
               else Lookup(positions, session)
  {}

  lemma {:induction false} PositionsApart(frames: seq<Frame>, session: string)
    ensures Lookup(Tracked(frames).positions, session) == Lookup(Tracked(Mine(frames, session)).positions, session)
  {
    if frames != [] {
      var front, last := frames[..|frames| - 1], frames[|frames| - 1];
      assert frames == front + [last];
      PositionsApart(front, session);
      MineSnoc(front, last, session);
      LookupAfter(Tracked(front).positions, last, session);
      LookupAfter(Tracked(Mine(front, session)).positions, last, session);
    }
  }

  lemma {:induction false} GapsOfStep(gaps: seq<Gap>, positions: map<string, Position>, frame: Frame, session: string)
    ensures GapsOf(gaps + GapOf(positions, frame), session)
            == if Touches(frame) == Some(session) then GapsOf(gaps, session) + GapOf(positions, frame)
               else GapsOf(gaps, session)
  {
    var here := GapOf(positions, frame);
    if here == [] {
      assert gaps + here == gaps;
    } else {
      assert gaps + here == gaps + [here[0]];
    }
  }

  // Any interleaving: each session's position and gaps are those of its own frames alone.
  lemma {:induction false} NonInterference(frames: seq<Frame>, session: string)
    ensures Lookup(Tracked(frames).positions, session) == Lookup(Tracked(Mine(frames, session)).positions, session)
    ensures GapsOf(Tracked(frames).gaps, session) == Tracked(Mine(frames, session)).gaps
  {
    PositionsApart(frames, session);
    if frames != [] {
      var front, last := frames[..|frames| - 1], frames[|frames| - 1];
      assert frames == front + [last];
      NonInterference(front, session);
      MineSnoc(front, last, session);
      GapsOfStep(Tracked(front).gaps, Tracked(front).positions, last, session);
      if Touches(last) == Some(session) {
        assert GapOf(Tracked(front).positions, last) == GapOf(Tracked(Mine(front, session)).positions, last);
      }
    }
  }

  // ----- accounting

  // Session frames of one generation, none of them closing the session.
  predicate OneGeneration(frames: seq<Frame>, session: string, generation: string) {
    forall i :: 0 <= i < |frames| ==>
      && frames[i].Session? && frames[i].kind != Closed && Touches(frames[i]) == Some(session)
      && Current(frames[i].meta.value).value.generation in {None, Some(generation)}
  }

  datatype Account = Account(position: Position, advancing: nat, missing: nat, absorbed: nat)

  // One frame's entry: does it advance, what does it report missing, what does it absorb.
  function Book(account: Account, frame: Frame): Account
    requires frame.Session? && Touches(frame).Some?
  {
    var current := Current(frame.meta.value).value;
    if current.sequence <= account.position.sequence then account
    else
      var skipped := current.sequence - account.position.sequence - 1;
      Account(current, account.advancing + 1,
              account.missing + (if frame.kind == Update then 0 else skipped),
              account.absorbed + (if frame.kind == Update then skipped else 0))
  }

  function Books(position: Position, frames: seq<Frame>): Account
    requires forall i :: 0 <= i < |frames| ==> frames[i].Session? && Touches(frames[i]).Some?
  {
    if frames == [] then Account(position, 0, 0, 0)
    else Book(Books(position, frames[..|frames| - 1]), frames[|frames| - 1])
  }

  function Positions(position: Option<Position>, frames: seq<Frame>): Option<Position>
    requires forall i :: 0 <= i < |frames| ==> Touches(frames[i]).Some?
  {
    if frames == [] then position
    else Move(Positions(position, frames[..|frames| - 1]), frames[|frames| - 1]).position
  }

  function Reported(position: Option<Position>, frames: seq<Frame>): int
    requires forall i :: 0 <= i < |frames| ==> Touches(frames[i]).Some?
  {
    if frames == [] then 0
    else
      var gap := Move(Positions(position, frames[..|frames| - 1]), frames[|frames| - 1]).gap;
      Reported(position, frames[..|frames| - 1]) + (if gap.Some? then gap.value.missing else 0)
  }

  // Between baselines of one generation nothing is unaccounted for: the advance is the advancing
  // frames, plus what was reported missing, plus what message updates absorbed.
  lemma {:induction false} AdvanceIsAccounted(position: Position, frames: seq<Frame>, session: string,
                                              generation: string)
    requires position.generation in {None, Some(generation)} && OneGeneration(frames, session, generation)
    ensures var account := Books(position, frames);
            && Positions(Some(position), frames) == Some(account.position)
            && account.position.generation in {None, Some(generation)}
            && Reported(Some(position), frames) == account.missing
            && account.position.sequence - position.sequence == account.advancing + account.missing + account.absorbed
  {
    if frames != [] {
      AdvanceIsAccounted(position, frames[..|frames| - 1], session, generation);
    }
  }

  // ----- the documented emitter

  // The worker numbers everything it produces; streaming deltas are parked and merged.
  datatype Emitter = Emitter(session: string, generation: string, last: int, parked: nat)

  datatype Act = Park | Flush | Direct(kind: Kind) | Restart(generation: string, last: int)

  function Numbered(e: Emitter, sequence: int, kind: Kind): Frame {
    Session(Some(e.session), Some(Meta(None, Some(Position(Some(e.generation), sequence)), None, None)), kind)
  }

  function Step(e: Emitter, act: Act): Emitter {
    match act
    case Park => e.(last := e.last + 1, parked := e.parked + 1)
    case Flush => e.(parked := 0)
    case Direct(_) => e.(last := e.last + 1, parked := 0)
    case Restart(generation, last) => e.(generation := generation, last := last, parked := 0)
  }

  // A direct frame goes out after the parked ones; the merged frame carries the newest number.
  function Sent(e: Emitter, act: Act): seq<Frame> {
    var merged := if e.parked > 0 then [Numbered(e, e.last, Update)] else [];
    match act
    case Park => []
    case Flush => merged
    case Direct(kind) => merged + [Numbered(e, e.last + 1, kind)]
    case Restart(_, _) => []
  }

  function EmitterAfter(e: Emitter, acts: seq<Act>): Emitter {
    if acts == [] then e else Step(EmitterAfter(e, acts[..|acts| - 1]), acts[|acts| - 1])
  }

  function Emitted(e: Emitter, acts: seq<Act>): seq<Frame> {
    if acts == [] then []
    else Emitted(e, acts[..|acts| - 1]) + Sent(EmitterAfter(e, acts[..|acts| - 1]), acts[|acts| - 1])
  }

  function Used(e: Emitter, acts: seq<Act>): set<string> {
    if acts == [] then {e.generation}
    else Used(e, acts[..|acts| - 1]) + {EmitterAfter(e, acts).generation}
  }

  // The session stays open, and a restarted worker draws a generation that was never used.
  predicate Lossless(e: Emitter, acts: seq<Act>) {
    acts == [] ||
    (var front, last := acts[..|acts| - 1], acts[|acts| - 1];
     && Lossless(e, front)
     && (last.Direct? ==> last.kind != Closed)
     && (last.Restart? ==> last.generation !in Used(e, front)))
  }

  // Frames of one session, one after the other.
  function Seen(position: Option<Position>, frames: seq<Frame>): Observation
    requires forall i :: 0 <= i < |frames| ==> Touches(frames[i]).Some?
  {
    if frames == [] then Observation(position, None)
    else
      var before := Seen(position, frames[..|frames| - 1]);
      var here := Move(before.position, frames[|frames| - 1]);
      Observation(here.position, if before.gap.Some? then before.gap else here.gap)
  }

  lemma {:induction false} SeenConcat(position: Option<Position>, a: seq<Frame>, b: seq<Frame>)
    requires forall i :: 0 <= i < |a| ==> Touches(a[i]).Some?
    requires forall i :: 0 <= i < |b| ==> Touches(b[i]).Some?
    ensures Seen(position, a + b)
            == Observation(Seen(Seen(position, a).position, b).position,
                           if Seen(position, a).gap.Some? then Seen(position, a).gap
                           else Seen(Seen(position, a).position, b).gap)
  {
    if b == [] {
      assert a + b == a;
    } else {
      SeenConcat(position, a, b[..|b| - 1]);
      assert (a + b)[..|a + b| - 1] == a + b[..|b| - 1];
    }
  }

  // Where the tracker stands: at the last number sent, in the running or in an earlier generation.
  predicate Follows(position: Option<Position>, e: Emitter) {
    && position.Some? && position.value.generation.Some?
    && (position.value.generation == Some(e.generation) ==> position.value.sequence == e.last - e.parked)
  }

  lemma {:induction false} EmittedTouches(e: Emitter, acts: seq<Act>)
    requires e.session != ""
    ensures EmitterAfter(e, acts).session == e.session
    ensures forall i :: 0 <= i < |Emitted(e, acts)| ==> Touches(Emitted(e, acts)[i]) == Some(e.session)
  {
    if acts != [] {
      EmittedTouches(e, acts[..|acts| - 1]);
    }
  }

  lemma {:induction false} SeenOne(position: Option<Position>, frame: Frame)
    requires Touches(frame).Some?
    ensures Seen(position, [frame]) == Move(position, frame)
  {
    assert [frame][..0] == [];
  }

  lemma {:induction false} SeenNone(position: Option<Position>)
    ensures Seen(position, []) == Observation(position, None)
  {}

  lemma {:induction false} SeenTwo(position: Option<Position>, first: Frame, second: Frame)
    requires Touches(first).Some? && Touches(second).Some? && Move(position, first).gap.None?
    ensures Seen(position, [first] + [second]) == Move(Move(position, first).position, second)
  {
    SeenOne(position, first);
    SeenOne(Move(position, first).position, second);
    SeenConcat(position, [first], [second]);
  }

  // What a numbered frame of the emitter shows.
  function Moved(position: Option<Position>, e: Emitter, sequence: int, kind: Kind): Observation {
    var current := Position(Some(e.generation), sequence);
    Observation(
      if Advances(position, current) then Some(current) else position,
      if Jumps(position, current) && kind != Update then
        Some(Gap(e.session, Some(e.generation), position.value.sequence, sequence,
            sequence - position.value.sequence - 1))
      else None)
  }

  lemma {:induction false} MoveNumbered(position: Option<Position>, e: Emitter, sequence: int, kind: Kind)
    requires e.session != "" && kind != Closed
    ensures Touches(Numbered(e, sequence, kind)) == Some(e.session)
    ensures Move(position, Numbered(e, sequence, kind)) == Moved(position, e, sequence, kind)
  {}

  lemma {:induction false} MovedUpdate(position: Option<Position>, e: Emitter, sequence: int)
    ensures Moved(position, e, sequence, Update).gap.None?
  {}

  // What one act shows: the flushed update, if any, then the direct frame, if it sends one.
  lemma {:induction false} SeenSent(position: Option<Position>, e: Emitter, act: Act)
    requires e.session != "" && (act.Direct? ==> act.kind != Closed)
    ensures forall i :: 0 <= i < |Sent(e, act)| ==> Touches(Sent(e, act)[i]) == Some(e.session)
    ensures var flushed := if e.parked > 0 then Moved(position, e, e.last, Update) else Observation(position, None);
            Seen(position, Sent(e, act))
            == match act
               case Park => Observation(position, None)
               case Flush => flushed
               case Direct(kind) => Moved(flushed.position, e, e.last + 1, kind)
               case Restart(_, _) => Observation(position, None)
  {
    hide Move, Moved, Numbered, Touches, Seen;
    var update := Numbered(e, e.last, Update);
    SeenNone(position);
    MoveNumbered(position, e, e.last, Update);
    SeenOne(position, update);
    MovedUpdate(position, e, e.last);
    if act.Direct? {
      var direct := Numbered(e, e.last + 1, act.kind);
      MoveNumbered(position, e, e.last + 1, act.kind);
      MoveNumbered(Moved(position, e, e.last, Update).position, e, e.last + 1, act.kind);
      SeenOne(position, direct);
      SeenTwo(position, update, direct);
      assert [] + [direct] == [direct];
    }
  }

  lemma {:induction false} SentFollows(position: Option<Position>, e: Emitter, act: Act)
    requires e.session != "" && Follows(position, e)
    requires act.Direct? ==> act.kind != Closed
    requires act.Restart? ==> Some(act.generation) != position.value.generation
    ensures forall i :: 0 <= i < |Sent(e, act)| ==> Touches(Sent(e, act)[i]).Some?
    ensures Seen(position, Sent(e, act)).gap.None? && Follows(Seen(position, Sent(e, act)).position, Step(e, act))
  {
    hide Seen, Sent, Numbered, Touches, Move;
    SeenSent(position, e, act);
  }

  // No restart draws the generation the tracker stands in.
  predicate Fresh(generation: Option<string>, acts: seq<Act>) {
    forall i :: 0 <= i < |acts| && acts[i].Restart? ==> Some(acts[i].generation) != generation
  }

  // A tracker that follows the emitter reports nothing.
  lemma {:induction false} FollowingHasNoGap(position: Option<Position>, e: Emitter, acts: seq<Act>)
    requires e.session != "" && Lossless(e, acts)
    requires Follows(position, e) && Fresh(position.value.generation, acts)
    ensures forall i :: 0 <= i < |Emitted(e, acts)| ==> Touches(Emitted(e, acts)[i]) == Some(e.session)
    ensures var seen := Seen(position, Emitted(e, acts));
            && seen.gap.None? && Follows(seen.position, EmitterAfter(e, acts))
            && (seen.position.value.generation == position.value.generation
                || seen.position.value.generation.value in Used(e, acts))
  {
    EmittedTouches(e, acts);
    if acts != [] {
      var front, last := acts[..|acts| - 1], acts[|acts| - 1];
      FollowingHasNoGap(position, e, front);
      var before := EmitterAfter(e, front);
      EmittedTouches(e, front);
      SentFollows(Seen(position, Emitted(e, front)).position, before, last);
      SentGeneration(Seen(position, Emitted(e, front)).position, before, last);
      SeenConcat(position, Emitted(e, front), Sent(before, last));
      UsedLast(e, front);
    }
  }

  lemma {:induction false} UsedLast(e: Emitter, acts: seq<Act>)
    ensures e.generation in Used(e, acts) && EmitterAfter(e, acts).generation in Used(e, acts)
  {
    if acts != [] {
      UsedLast(e, acts[..|acts| - 1]);
    }
  }

  lemma {:induction false} LosslessIsFresh(e: Emitter, acts: seq<Act>)
    requires Lossless(e, acts)
    ensures Fresh(Some(e.generation), acts)
  {
    if acts != [] {
      LosslessIsFresh(e, acts[..|acts| - 1]);
      UsedLast(e, acts[..|acts| - 1]);
    }
  }

  // An emitter that follows the batching rule never triggers a gap, whatever it parks, flushes,
  // sends and however often it restarts.
  lemma {:induction false} LosslessHasNoGap(position: Option<Position>, e: Emitter, acts: seq<Act>)
    requires e.session != "" && Lossless(e, acts)
    requires Follows(position, e) && position.value.generation == Some(e.generation)
    ensures forall i :: 0 <= i < |Emitted(e, acts)| ==> Touches(Emitted(e, acts)[i]) == Some(e.session)
    ensures var seen := Seen(position, Emitted(e, acts));
            && seen.gap.None? && Follows(seen.position, EmitterAfter(e, acts))
            && seen.position.value.generation.value in Used(e, acts)
  {
    LosslessIsFresh(e, acts);
    FollowingHasNoGap(position, e, acts);
    UsedLast(e, acts);
  }

  lemma {:induction false} SentGeneration(position: Option<Position>, e: Emitter, act: Act)
    requires e.session != "" && Follows(position, e)
    requires act.Direct? ==> act.kind != Closed
    requires act.Restart? ==> Some(act.generation) != position.value.generation
    requires forall i :: 0 <= i < |Sent(e, act)| ==> Touches(Sent(e, act)[i]).Some?
    ensures var after := Seen(position, Sent(e, act)).position;
            after.Some? && after.value.generation in {position.value.generation, Some(e.generation)}
  {
    hide Seen, Sent, Numbered, Touches, Move;
    SeenSent(position, e, act);
  }

  // ----- a loss

  // The tracker stands some numbers short of what was sent: these frames were lost.
  predicate Behind(position: Option<Position>, e: Emitter, lost: nat) {
    && position.Some? && position.value.generation == Some(e.generation)
    && position.value.sequence + lost == e.last - e.parked
  }

  // A direct frame that is not an update, with no update flushed before it.
  predicate Reports(e: Emitter, act: Act) {
    act.Direct? && act.kind != Update && e.parked == 0
  }

  function LossGap(position: Position, e: Emitter, lost: nat): Gap {
    Gap(e.session, Some(e.generation), position.sequence, e.last + 1, lost)
  }

  // What one act shows after a loss: a direct frame that goes out first reports it, an update hides it.
  lemma {:induction false} SentAfterLoss(position: Option<Position>, e: Emitter, act: Act, lost: nat)
    requires e.session != "" && Behind(position, e, lost) && lost > 0
    requires act.Direct? ==> act.kind != Closed
    requires act.Restart? ==> act.generation != e.generation
    ensures forall i :: 0 <= i < |Sent(e, act)| ==> Touches(Sent(e, act)[i]) == Some(e.session)
    ensures var seen := Seen(position, Sent(e, act));
            && seen.position.Some? && seen.position.value.generation == Some(e.generation)
            && seen.gap == (if Reports(e, act) then Some(LossGap(position.value, e, lost)) else None)
            && (if Sent(e, act) != [] || act.Restart? then Follows(seen.position, Step(e, act))
                else Behind(seen.position, Step(e, act), lost))
  {
    hide Seen, Numbered, Touches, Move;
    SeenSent(position, e, act);
  }

  // Some act of these is the first to send anything, before any restart, and reports the loss.
  predicate FirstSentReports(e: Emitter, acts: seq<Act>) {
    acts != []
    && (Reports(e, acts[0]) || (acts[0].Flush? && e.parked == 0 && FirstSentReports(e, acts[1..])))
  }

  // The same runs, taken apart at the first act.
  lemma {:induction false} AfterFront(e: Emitter, act: Act, acts: seq<Act>)
    ensures EmitterAfter(e, [act] + acts) == EmitterAfter(Step(e, act), acts)
    ensures Used(e, [act] + acts) == {e.generation} + Used(Step(e, act), acts)
  {
    hide Step;
    var all := [act] + acts;
    if acts == [] {
      assert all[..0] == [] && all[0] == act;
      assert EmitterAfter(e, []) == e;
    } else {
      AfterFront(e, act, acts[..|acts| - 1]);
      assert all[..|all| - 1] == [act] + acts[..|acts| - 1];
    }
  }

  lemma {:induction false} EmittedFront(e: Emitter, act: Act, acts: seq<Act>)
    ensures Emitted(e, [act] + acts) == Sent(e, act) + Emitted(Step(e, act), acts)
  {
    hide Step;
    hide Sent;
    var all := [act] + acts;
    if acts == [] {
      assert all[..0] == [] && all[0] == act;
      assert Emitted(e, all) == [] + Sent(e, act);
    } else {
      var front, last := acts[..|acts| - 1], acts[|acts| - 1];
      EmittedFront(e, act, front);
      AfterFront(e, act, front);
      assert all[..|all| - 1] == [act] + front;
      var before := EmitterAfter(Step(e, act), front);
      assert Sent(e, act) + Emitted(Step(e, act), front) + Sent(before, last)
          == Sent(e, act) + (Emitted(Step(e, act), front) + Sent(before, last));
    }
  }

  lemma {:induction false} LosslessFront(e: Emitter, act: Act, acts: seq<Act>)
    requires Lossless(e, [act] + acts)
    ensures Lossless(Step(e, act), acts)
    ensures (act.Direct? ==> act.kind != Closed) && (act.Restart? ==> act.generation != e.generation)
    ensures Fresh(Some(e.generation), acts)
  {
    hide Step;
    LosslessIsFresh(e, [act] + acts);
    var all := [act] + acts;
    assert forall i :: 0 <= i < |acts| ==> all[i + 1] == acts[i];
    if acts == [] {
      assert all[..0] == [] && all[0] == act;
    } else {
      var front := acts[..|acts| - 1];
      assert all[..|all| - 1] == [act] + front;
      LosslessFront(e, act, front);
      AfterFront(e, act, front);
    }
  }

  // A loss is reported, with its count, if and only if the next thing the emitter sends is a direct
  // frame that is not an update, with no update flushed before it and no restart in between. It is
  // reported once, and nothing else is: an update that lands first hides the loss for good.
  lemma {:induction false} LossIsReported(position: Position, e: Emitter, lost: nat, acts: seq<Act>)
    requires e.session != "" && Lossless(e, acts) && lost > 0 && Behind(Some(position), e, lost)
    ensures forall i :: 0 <= i < |Emitted(e, acts)| ==> Touches(Emitted(e, acts)[i]) == Some(e.session)
    ensures Seen(Some(position), Emitted(e, acts)).gap
            == if FirstSentReports(e, acts) then Some(LossGap(position, e, lost)) else None
    decreases |acts|
  {
    EmittedTouches(e, acts);
    if acts != [] {
      var act, rest := acts[0], acts[1..];
      var next, seen := Step(e, act), Seen(Some(position), Sent(e, act));
      assert acts == [act] + rest;
      LosslessFront(e, act, rest);
      EmittedFront(e, act, rest);
      SentAfterLoss(Some(position), e, act, lost);
      EmittedTouches(next, rest);
      SeenConcat(Some(position), Sent(e, act), Emitted(next, rest));
      if Sent(e, act) != [] || act.Restart? {
        FollowingHasNoGap(seen.position, next, rest);
      } else {
        assert seen == Observation(Some(position), None);
        LossIsReported(position, next, lost, rest);
        ParkedNeverReports(next, rest);
      }
    }
  }

  // Parked updates go out before anything else does.
  lemma {:induction false} ParkedNeverReports(e: Emitter, acts: seq<Act>)
    ensures e.parked > 0 ==> !FirstSentReports(e, acts)
  {
  }

  // When a turn closes, its parked updates are dropped: a loss like any other, so the next direct
  // frame that is not an update reports as many as were parked.
  lemma {:induction false} DroppedUpdatesAreReported(position: Position, e: Emitter, acts: seq<Act>)
    requires e.session != "" && e.parked > 0 && Lossless(e.(parked := 0), acts)
    requires Follows(Some(position), e) && position.generation == Some(e.generation)
    ensures forall i :: 0 <= i < |Emitted(e.(parked := 0), acts)| ==>
              Touches(Emitted(e.(parked := 0), acts)[i]) == Some(e.session)
    ensures Seen(Some(position), Emitted(e.(parked := 0), acts)).gap
            == if FirstSentReports(e.(parked := 0), acts) then Some(LossGap(position, e, e.parked)) else None
  {
    LossIsReported(position, e.(parked := 0), e.parked, acts);
  }

  // Losing a frame while an update is parked: the update that the next frame flushes hides it.
  lemma {:induction false} FlushedUpdateHidesLoss()
    ensures var e := Emitter("s", "g", 7, 1);
            var frames := Emitted(e, [Direct(Plain)]);
            && (forall i :: 0 <= i < |frames| ==> Touches(frames[i]) == Some("s"))
            && Behind(Some(Position(Some("g"), 5)), e, 1)
            && Seen(Some(Position(Some("g"), 5)), frames).gap == None
  {
    var e, acts := Emitter("s", "g", 7, 1), [Direct(Plain)];
    assert acts[..0] == [];
    LossIsReported(Position(Some("g"), 5), e, 1, acts);
  }

  // ----- where counting begins and ends

  // A snapshot or an attach response says where the session stands.
  ghost predicate Says(frame: Frame, session: string, generation: Option<string>, sequence: int) {
    match frame
    case SnapshotEnd(s, number, cursor) =>
      s == Some(session) && (cursor == Some(Position(generation, sequence))
                             || (cursor.None? && generation.None? && number == Some(sequence)))
    case AttachResponse(success, s, number, cursor) =>
      success && s == Some(session) && (cursor == Some(Position(generation, sequence))
                                        || (cursor.None? && generation.None? && number == Some(sequence)))
    case _ => false
  }

  // The frame's cursor, with the frame's generation if it names none, or else its bare number.
  ghost predicate Numbers(meta: Meta, generation: Option<string>, sequence: int) {
    if meta.cursor.Some? then
      && meta.cursor.value.sequence == sequence
      && generation == (if meta.cursor.value.generation.Some? then meta.cursor.value.generation else meta.generation)
    else meta.sequence == Some(sequence) && generation == meta.generation
  }

  // Whatever was known before: after a baseline the next frame of the session reports exactly the
  // numbers between the two, if it is of the same generation and no update; the baseline itself
  // reports nothing. A frame belongs to the session it names, or else to the one its meta names.
  lemma {:induction false} CountsFromBaseline(before: Option<Position>, baseline: Frame, session: string,
                                              generation: Option<string>, sequence: int, named: Option<string>,
                                              meta: Meta, g: Option<string>, k: int, kind: Kind)
    requires Says(baseline, session, generation, sequence) && session != "" && Numbers(meta, g, k)
    requires named == Some(session) || (named.None? && meta.activeSessionId == Some(session))
    ensures var frame := Session(named, Some(meta), kind);
            && Touches(baseline) == Touches(frame) == Some(session)
            && Seen(before, [baseline]) == Observation(Some(Position(generation, sequence)), None)
            && Seen(before, [baseline] + [frame]).gap
               == if kind != Update && (generation.None? || g.None? || g == generation) && k > sequence + 1
                  then Some(Gap(session, if g.Some? then g else generation, sequence, k, k - sequence - 1)) else None
  {
    var frame := Session(named, Some(meta), kind);
    SeenOne(before, baseline);
    SeenTwo(before, baseline, frame);
  }

  // A binding that replaces the session and a close forget it: the next frame reports nothing.
  lemma {:induction false} Forgets(before: Option<Position>, last: Frame, session: string, next: Frame)
    requires last == SessionBinding(Some(session))
             || (last.Session? && last.kind == Closed && Touches(last) == Some(session))
    requires Touches(next) == Some(session)
    ensures Seen(before, [last]).position == None
    ensures Seen(before, [last] + [next]).gap == Seen(before, [last]).gap
  {
    SeenOne(before, last);
    SeenOne(None, next);
    SeenConcat(before, [last], [next]);
  }
}
