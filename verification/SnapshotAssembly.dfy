/**
 Reassembling a chunked session snapshot from whatever frames were buffered, in any order and
 interleaved with other snapshots.
 */
module SnapshotAssembly {
  import opened Wrappers
  import opened TextLines
  import opened SessionDelivery

  type Message = string

  // A JSON number that may not be an integer.
  datatype Number = Integer(value: int) | NotAnInteger

  datatype Snapshot = Snapshot(activeSessionId: Option<string>, state: string)

  datatype SnapshotFrame =
    | Begin(snapshotId: string, activeSessionId: Option<string>, snapshot: Option<Snapshot>,
        messageCount: Option<Number>)
    | Chunk(snapshotId: string, activeSessionId: Option<string>, index: Number, messages: Option<seq<Message>>)
    | End(snapshotId: string, activeSessionId: Option<string>, chunkCount: Number,
          lastEventSequence: Option<int>, lastEventCursor: Option<Cursor>)
    | Other(snapshotId: string)

  datatype Assembled = Assembled(snapshot: Snapshot, messages: seq<Message>,
                                 lastEventSequence: Option<int>, lastEventCursor: Option<Cursor>)

  datatype Fault =
    | TimedOut | Incomplete | DuplicateBoundary | InconsistentIds
    | InvalidChunk | DuplicateChunk | MissingChunk | WrongCount

  // ----- selecting frames

  datatype Want = AnyBegin | AnyEnd | ChunkAt(index: int)

  predicate Is(frame: SnapshotFrame, want: Want) {
    match want
    case AnyBegin => frame.Begin?
    case AnyEnd => frame.End?
    case ChunkAt(index) => frame.Chunk? && frame.index == Integer(index)
  }

  function Pick(frames: seq<SnapshotFrame>, want: Want): seq<SnapshotFrame> {
    if frames == [] then []
    else Pick(frames[..|frames| - 1], want) + (if Is(frames[|frames| - 1], want) then [frames[|frames| - 1]] else [])
  }

  function Matching(frames: seq<SnapshotFrame>, snapshotId: string): (r: seq<SnapshotFrame>) {
    if frames == [] then []
    else Matching(frames[..|frames| - 1], snapshotId)
         + (if frames[|frames| - 1].snapshotId == snapshotId then [frames[|frames| - 1]] else [])
  }

  lemma {:induction false} PickSound(frames: seq<SnapshotFrame>, want: Want)
    ensures forall i :: 0 <= i < |Pick(frames, want)| ==>
                Is(Pick(frames, want)[i], want) && Pick(frames, want)[i] in frames
  {
    if frames != [] {
      PickSound(frames[..|frames| - 1], want);
    }
  }

  lemma {:induction false} PickHas(frames: seq<SnapshotFrame>, want: Want, frame: SnapshotFrame)
    requires frame in frames && Is(frame, want)
    ensures frame in Pick(frames, want)
  {
    if frame != frames[|frames| - 1] {
      PickHas(frames[..|frames| - 1], want, frame);
    }
  }

  lemma {:induction false} PickCounts(frames: seq<SnapshotFrame>, want: Want)
    ensures forall f :: multiset(Pick(frames, want))[f] == if Is(f, want) then multiset(frames)[f] else 0
  {
    if frames != [] {
      var front, last := frames[..|frames| - 1], frames[|frames| - 1];
      PickCounts(front, want);
      assert frames == front + [last];
    }
  }

  // ----- what a complete snapshot is

  predicate ValidChunk(frame: SnapshotFrame, count: int, session: Option<string>) {
    frame.Chunk? ==>
      && frame.index.Integer? && 0 <= frame.index.value < count
      && frame.messages.Some? && frame.activeSessionId == session
  }

  predicate GoodBoundaries(begin: SnapshotFrame, end: SnapshotFrame) {
    && begin.Begin? && begin.snapshot.Some? && end.End? && end.chunkCount.Integer? && end.chunkCount.value >= 0
  }

  predicate SameSession(begin: SnapshotFrame, end: SnapshotFrame)
    requires GoodBoundaries(begin, end)
  {
    && begin.activeSessionId.Some? && end.activeSessionId == begin.activeSessionId
    && (begin.snapshot.value.activeSessionId.Some? ==> begin.snapshot.value.activeSessionId == begin.activeSessionId)
  }

  // Indexes 0..count-1 once each, every chunk well-formed and of the session.
  ghost predicate EveryIndexOnce(frames: seq<SnapshotFrame>, count: int, session: Option<string>) {
    && (forall f :: f in frames ==> ValidChunk(f, count, session))
    && (forall k :: 0 <= k < count ==> |Pick(frames, ChunkAt(k))| == 1)
  }

  // One begin, one end, consistent sessions, and every index once.
  ghost predicate Whole(frames: seq<SnapshotFrame>) {
    && |Pick(frames, AnyBegin)| == 1 && |Pick(frames, AnyEnd)| == 1
    && GoodBoundaries(Pick(frames, AnyBegin)[0], Pick(frames, AnyEnd)[0])
    && SameSession(Pick(frames, AnyBegin)[0], Pick(frames, AnyEnd)[0])
    && EveryIndexOnce(frames, Pick(frames, AnyEnd)[0].chunkCount.value, Pick(frames, AnyBegin)[0].activeSessionId)
  }

  // The messages of the one chunk with this index.
  function MessagesAt(frames: seq<SnapshotFrame>, k: int): Option<seq<Message>> {
    var chunks := Pick(frames, ChunkAt(k));
    if |chunks| == 1 && chunks[0].Chunk? then chunks[0].messages else None
  }

  // The chunks in index order, whatever order they came in.
  ghost function MessagesUpTo(frames: seq<SnapshotFrame>, count: nat): seq<Message>
    requires forall k :: 0 <= k < count ==> MessagesAt(frames, k).Some?
  {
    if count == 0 then [] else MessagesUpTo(frames, count - 1) + MessagesAt(frames, count - 1).value
  }

  lemma {:induction false} ChunksHold(frames: seq<SnapshotFrame>, count: int, session: Option<string>)
    requires EveryIndexOnce(frames, count, session)
    ensures forall k :: 0 <= k < count ==> MessagesAt(frames, k).Some?
  {
    forall k | 0 <= k < count
      ensures MessagesAt(frames, k).Some?
    {
      PickSound(frames, ChunkAt(k));
      assert ValidChunk(Pick(frames, ChunkAt(k))[0], count, session);
    }
  }

  ghost function Content(frames: seq<SnapshotFrame>): seq<Message>
    requires Whole(frames)
  {
    var count := Pick(frames, AnyEnd)[0].chunkCount.value;
    ChunksHold(frames, count, Pick(frames, AnyBegin)[0].activeSessionId);
    MessagesUpTo(frames, count)
  }

  ghost predicate Complete(frames: seq<SnapshotFrame>) {
    Whole(frames) &&
    (var count := Pick(frames, AnyBegin)[0].messageCount;
     count.None? || count.value == Integer(|Content(frames)|))
  }

  // ----- the collector

  method CollectSnapshotMessages(snapshotId: string, bufferedFrames: seq<SnapshotFrame>)
    returns (r: Result<Assembled, Fault>)
    ensures r.Success? <==> Complete(Matching(bufferedFrames, snapshotId))
    ensures r.Success? ==>
              var frames := Matching(bufferedFrames, snapshotId);
              var begin, end := Pick(frames, AnyBegin)[0], Pick(frames, AnyEnd)[0];
              r.value == Assembled(begin.snapshot.value, Content(frames), end.lastEventSequence, end.lastEventCursor)
  {
    var frames := Matching(bufferedFrames, snapshotId);
    var beginFrames := Pick(frames, AnyBegin);
    var endFrames := Pick(frames, AnyEnd);
    if |endFrames| == 0 { return Failure(TimedOut); }
    if |beginFrames| == 0 || !GoodBoundaries(beginFrames[0], endFrames[0]) { return Failure(Incomplete); }
    if |beginFrames| != 1 || |endFrames| != 1 { return Failure(DuplicateBoundary); }
    var begin, end := beginFrames[0], endFrames[0];
    if !SameSession(begin, end) { return Failure(InconsistentIds); }
    var messages := CollectChunks(frames, end.chunkCount.value, begin.activeSessionId);
    if messages.Failure? { return Failure(messages.error); }
    if begin.messageCount.Some? && begin.messageCount.value != Integer(|messages.value|) { return Failure(WrongCount); }
    return Success(Assembled(begin.snapshot.value, messages.value, end.lastEventSequence, end.lastEventCursor));
  }

  // The two passes: file the chunks by index, then join them in index order.
  method CollectChunks(frames: seq<SnapshotFrame>, count: nat, session: Option<string>)
    returns (r: Result<seq<Message>, Fault>)
    ensures r.Success? <==> EveryIndexOnce(frames, count, session)
    ensures r.Success? ==>
              (forall k :: 0 <= k < count ==> MessagesAt(frames, k).Some?)
              && r.value == MessagesUpTo(frames, count)
  {
    var fault, chunks := IndexChunks(frames, count, session);
    if fault.Some? { return Failure(fault.value); }
    var messages: seq<Message> := [];
    var index := 0;
    while index < count
      invariant 0 <= index <= count
      invariant forall k :: 0 <= k < index ==> MessagesAt(frames, k).Some?
      invariant messages == MessagesUpTo(frames, index)
    {
      if index !in chunks { return Failure(MissingChunk); }
      messages := messages + chunks[index];
      index := index + 1;
    }
    forall k | 0 <= k < count
      ensures |Pick(frames, ChunkAt(k))| == 1
    {
      assert MessagesAt(frames, k).Some?;
    }
    return Success(messages);
  }

  // The chunks of these frames are all good, distinct, and filed under their indexes.
  ghost predicate Filed(frames: seq<SnapshotFrame>, chunks: map<int, seq<Message>>, count: int,
                        session: Option<string>) {
    && (forall f :: f in frames ==> ValidChunk(f, count, session))
    && forall k :: 0 <= k < count ==>
         if k in chunks then MessagesAt(frames, k) == Some(chunks[k]) else Pick(frames, ChunkAt(k)) == []
  }

  lemma {:induction false} FileChunk(frames: seq<SnapshotFrame>, frame: SnapshotFrame, chunks: map<int, seq<Message>>,
                  count: int, session: Option<string>)
    requires Filed(frames, chunks, count, session) && ValidChunk(frame, count, session)
    requires frame.Chunk? ==> frame.index.value !in chunks
    ensures Filed(frames + [frame],
                  if frame.Chunk? then chunks[frame.index.value := frame.messages.value] else chunks, count, session)
  {
    forall k | 0 <= k < count
      ensures Pick(frames + [frame], ChunkAt(k)) == Pick(frames, ChunkAt(k)) + (if Is(frame, ChunkAt(k)) then [frame]
              else [])
    {
      PickSnoc(frames, frame, ChunkAt(k));
    }
  }

  // A frame that cannot be filed after the first i ones spoils the whole.
  lemma {:induction false} CannotFile(frames: seq<SnapshotFrame>, i: nat, done: seq<SnapshotFrame>,
                   chunks: map<int, seq<Message>>, count: int, session: Option<string>)
    requires i < |frames| && done == frames[..i] && Filed(done, chunks, count, session) && frames[i].Chunk?
    requires ValidChunk(frames[i], count, session) ==> frames[i].index.value in chunks
    ensures !EveryIndexOnce(frames, count, session)
  {
    if ValidChunk(frames[i], count, session) {
      var want := ChunkAt(frames[i].index.value);
      assert frames[..i + 1] == frames[..i] + [frames[i]];
      PickSnoc(frames[..i], frames[i], want);
      PickGrows(frames, i + 1, want);
      assert MessagesAt(frames[..i], want.index).Some?;
    } else {
      assert frames[i] in frames;
    }
  }

  // The first pass: every chunk checked and filed under its index, unless one is bad.
  method IndexChunks(frames: seq<SnapshotFrame>, count: int, session: Option<string>)
    returns (fault: Option<Fault>, chunks: map<int, seq<Message>>)
    ensures fault.Some? ==> !EveryIndexOnce(frames, count, session)
    ensures fault.None? ==> Filed(frames, chunks, count, session)
  {
    chunks := map[];
    var i := 0;
    ghost var done: seq<SnapshotFrame> := [];
    while i < |frames|
      invariant 0 <= i <= |frames| && done == frames[..i] && Filed(done, chunks, count, session)
    {
      var frame := frames[i];
      if frame.Chunk? {
        if !ValidChunk(frame, count, session) {
          CannotFile(frames, i, done, chunks, count, session);
          return Some(InvalidChunk), chunks;
        }
        if frame.index.value in chunks {
          CannotFile(frames, i, done, chunks, count, session);
          return Some(DuplicateChunk), chunks;
        }
      }
      FileChunk(done, frame, chunks, count, session);
      done := done + [frame];
      if frame.Chunk? {
        chunks := chunks[frame.index.value := frame.messages.value];
      }
      i := i + 1;
    }
    assert done == frames;
    fault := None;
  }

  lemma {:induction false} PickGrows(frames: seq<SnapshotFrame>, i: nat, want: Want)
    requires i <= |frames|
    ensures |Pick(frames[..i], want)| <= |Pick(frames, want)|
    decreases |frames|
  {
    if i < |frames| {
      assert frames[..|frames| - 1][..i] == frames[..i];
      PickGrows(frames[..|frames| - 1], i, want);
    } else {
      assert frames[..i] == frames;
    }
  }

  // ----- order and interleaving do not matter

  lemma {:induction false} SizesAgree<T>(a: seq<T>, b: seq<T>)
    requires multiset(a) == multiset(b)
    ensures |a| == |b| && (|a| == 1 ==> a == b)
  {
    assert |multiset(a)| == |a| && |multiset(b)| == |b|;
    if |a| == 1 {
      assert a[0] in multiset(b);
    }
  }

  lemma {:induction false} PickPermuted(a: seq<SnapshotFrame>, b: seq<SnapshotFrame>, want: Want)
    requires multiset(a) == multiset(b)
    ensures |Pick(a, want)| == |Pick(b, want)|
    ensures |Pick(a, want)| == 1 ==> Pick(a, want) == Pick(b, want)
  {
    PickCounts(a, want);
    PickCounts(b, want);
    SizesAgree(Pick(a, want), Pick(b, want));
  }

  lemma {:induction false} MessagesPermuted(a: seq<SnapshotFrame>, b: seq<SnapshotFrame>, count: nat)
    requires multiset(a) == multiset(b)
    requires forall k :: 0 <= k < count ==> MessagesAt(a, k).Some?
    requires forall k :: 0 <= k < count ==> MessagesAt(b, k).Some?
    ensures MessagesUpTo(a, count) == MessagesUpTo(b, count)
  {
    if count > 0 {
      MessagesPermuted(a, b, count - 1);
      PickPermuted(a, b, ChunkAt(count - 1));
    }
  }

  // The outcome depends only on which frames of the snapshot arrived, not on their order.
  lemma {:induction false} OrderDoesNotMatter(a: seq<SnapshotFrame>, b: seq<SnapshotFrame>)
    requires multiset(a) == multiset(b) && Complete(a)
    ensures Complete(b) && Content(b) == Content(a)
    ensures Pick(b, AnyBegin) == Pick(a, AnyBegin) && Pick(b, AnyEnd) == Pick(a, AnyEnd)
  {
    PickPermuted(a, b, AnyBegin);
    PickPermuted(a, b, AnyEnd);
    var count, session := Pick(a, AnyEnd)[0].chunkCount.value, Pick(a, AnyBegin)[0].activeSessionId;
    forall f | f in b
      ensures ValidChunk(f, count, session)
    {
      assert f in multiset(b);
    }
    forall k | 0 <= k < count
      ensures |Pick(b, ChunkAt(k))| == 1
    {
      PickPermuted(a, b, ChunkAt(k));
    }
    ChunksHold(a, count, session);
    ChunksHold(b, count, session);
    MessagesPermuted(a, b, count);
  }

  // ----- sending a snapshot in chunks

  function ChunkFrames(snapshotId: string, session: string, parts: seq<seq<Message>>): (r: seq<SnapshotFrame>)
    ensures |r| == |parts|
  {
    if parts == [] then []
    else ChunkFrames(snapshotId, session, parts[..|parts| - 1])
         + [Chunk(snapshotId, Some(session), Integer(|parts| - 1), Some(parts[|parts| - 1]))]
  }

  function Chunked(snapshotId: string, session: string, snapshot: Snapshot, parts: seq<seq<Message>>,
                   lastSequence: Option<int>, lastCursor: Option<Cursor>): seq<SnapshotFrame>
  {
    ChunkFrames(snapshotId, session, parts)
    + [Begin(snapshotId, Some(session), Some(snapshot), Some(Integer(|Flatten(parts)|)))]
    + [End(snapshotId, Some(session), Integer(|parts|), lastSequence, lastCursor)]
  }

  lemma {:induction false} PickSnoc(frames: seq<SnapshotFrame>, frame: SnapshotFrame, want: Want)
    ensures Pick(frames + [frame], want) == Pick(frames, want) + (if Is(frame, want) then [frame] else [])
  {
    assert (frames + [frame])[..|frames + [frame]| - 1] == frames;
  }

  lemma {:induction false} PickChunkFrames(snapshotId: string, session: string, parts: seq<seq<Message>>, want: Want)
    ensures Pick(ChunkFrames(snapshotId, session, parts), want)
            == (if want.ChunkAt? && 0 <= want.index < |parts|
                then [Chunk(snapshotId, Some(session), Integer(want.index), Some(parts[want.index]))] else [])
  {
    if parts != [] {
      var front, n := parts[..|parts| - 1], |parts| - 1;
      PickChunkFrames(snapshotId, session, front, want);
      PickSnoc(ChunkFrames(snapshotId, session, front),
               Chunk(snapshotId, Some(session), Integer(n), Some(parts[n])), want);
    }
  }

  lemma {:induction false} ChunkFramesValid(snapshotId: string, session: string, parts: seq<seq<Message>>, count: int)
    requires |parts| <= count
    ensures forall f :: f in ChunkFrames(snapshotId, session, parts) ==> ValidChunk(f, count, Some(session))
  {
    if parts != [] {
      ChunkFramesValid(snapshotId, session, parts[..|parts| - 1], count);
    }
  }

  // Picking from the whole transmission.
  lemma {:induction false} PickChunked(snapshotId: string, session: string, snapshot: Snapshot,
                                       parts: seq<seq<Message>>,
                    lastSequence: Option<int>, lastCursor: Option<Cursor>, want: Want)
    ensures var frames := Chunked(snapshotId, session, snapshot, parts, lastSequence, lastCursor);
            Pick(frames, want) ==
            match want
            case AnyBegin => [Begin(snapshotId, Some(session), Some(snapshot), Some(Integer(|Flatten(parts)|)))]
            case AnyEnd => [End(snapshotId, Some(session), Integer(|parts|), lastSequence, lastCursor)]
            case ChunkAt(k) =>
              if 0 <= k < |parts| then [Chunk(snapshotId, Some(session), Integer(k), Some(parts[k]))] else []
  {
    var chunks := ChunkFrames(snapshotId, session, parts);
    var begin := Begin(snapshotId, Some(session), Some(snapshot), Some(Integer(|Flatten(parts)|)));
    PickChunkFrames(snapshotId, session, parts, want);
    PickSnoc(chunks, begin, want);
    PickSnoc(chunks + [begin], End(snapshotId, Some(session), Integer(|parts|), lastSequence, lastCursor), want);
  }

  lemma {:induction false} MessagesOfParts(frames: seq<SnapshotFrame>, parts: seq<seq<Message>>)
    requires forall i :: 0 <= i < |parts| ==> MessagesAt(frames, i) == Some(parts[i])
    ensures MessagesUpTo(frames, |parts|) == Flatten(parts)
  {
    if parts != [] {
      var front, last := parts[..|parts| - 1], parts[|parts| - 1];
      MessagesOfParts(frames, front);
      assert parts == front + [last];
      FlattenConcat(front, [last]);
      assert Flatten([last]) == last;
    }
  }

  lemma {:induction false} ChunkedIndexes(snapshotId: string, session: string, snapshot: Snapshot,
                                          parts: seq<seq<Message>>,
                       lastSequence: Option<int>, lastCursor: Option<Cursor>)
    ensures var sent := Chunked(snapshotId, session, snapshot, parts, lastSequence, lastCursor);
            && EveryIndexOnce(sent, |parts|, Some(session))
            && (forall k :: 0 <= k < |parts| ==> MessagesAt(sent, k) == Some(parts[k]))
  {
    var sent := Chunked(snapshotId, session, snapshot, parts, lastSequence, lastCursor);
    forall k | 0 <= k < |parts|
      ensures |Pick(sent, ChunkAt(k))| == 1 && MessagesAt(sent, k) == Some(parts[k])
    {
      PickChunked(snapshotId, session, snapshot, parts, lastSequence, lastCursor, ChunkAt(k));
    }
    ChunkFramesValid(snapshotId, session, parts, |parts|);
  }

  lemma {:induction false} CompleteFrom(frames: seq<SnapshotFrame>, begin: SnapshotFrame, end: SnapshotFrame)
    requires Pick(frames, AnyBegin) == [begin] && Pick(frames, AnyEnd) == [end]
    requires GoodBoundaries(begin, end) && SameSession(begin, end)
    requires EveryIndexOnce(frames, end.chunkCount.value, begin.activeSessionId)
    requires forall k :: 0 <= k < end.chunkCount.value ==> MessagesAt(frames, k).Some?
    requires begin.messageCount == Some(Integer(|MessagesUpTo(frames, end.chunkCount.value)|))
    ensures Complete(frames) && Content(frames) == MessagesUpTo(frames, end.chunkCount.value)
  {}

  lemma {:induction false} ChunkedComplete(snapshotId: string, session: string, snapshot: Snapshot,
                                           parts: seq<seq<Message>>,
                        lastSequence: Option<int>, lastCursor: Option<Cursor>)
    requires snapshot.activeSessionId.None? || snapshot.activeSessionId == Some(session)
    ensures var sent := Chunked(snapshotId, session, snapshot, parts, lastSequence, lastCursor);
            && Complete(sent) && Content(sent) == Flatten(parts)
            && Pick(sent, AnyBegin)[0].snapshot == Some(snapshot)
            && Pick(sent, AnyEnd)[0].lastEventCursor == lastCursor
  {
    var sent := Chunked(snapshotId, session, snapshot, parts, lastSequence, lastCursor);
    PickChunked(snapshotId, session, snapshot, parts, lastSequence, lastCursor, AnyBegin);
    PickChunked(snapshotId, session, snapshot, parts, lastSequence, lastCursor, AnyEnd);
    ChunkedIndexes(snapshotId, session, snapshot, parts, lastSequence, lastCursor);
    MessagesOfParts(sent, parts);
    CompleteFrom(sent, Pick(sent, AnyBegin)[0], Pick(sent, AnyEnd)[0]);
  }

  // Chunking and collecting is the identity, whatever order the frames arrive in and whatever
  // other snapshots' frames lie between them.
  lemma {:induction false} ChunkThenCollect(snapshotId: string, session: string, snapshot: Snapshot,
                                            parts: seq<seq<Message>>,
                         lastSequence: Option<int>, lastCursor: Option<Cursor>, buffered: seq<SnapshotFrame>)
    requires snapshot.activeSessionId.None? || snapshot.activeSessionId == Some(session)
    requires multiset(Matching(buffered, snapshotId))
          == multiset(Chunked(snapshotId, session, snapshot, parts, lastSequence, lastCursor))
    ensures var frames := Matching(buffered, snapshotId);
            && Complete(frames) && Content(frames) == Flatten(parts)
            && Pick(frames, AnyBegin)[0].snapshot == Some(snapshot)
            && Pick(frames, AnyEnd)[0].lastEventCursor == lastCursor
  {
    ChunkedComplete(snapshotId, session, snapshot, parts, lastSequence, lastCursor);
    OrderDoesNotMatter(Chunked(snapshotId, session, snapshot, parts, lastSequence, lastCursor),
                       Matching(buffered, snapshotId));
  }
}
