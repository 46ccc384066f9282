/**
 The per-session replay buffer: frames are numbered as they are pushed, the oldest are evicted, and
 the ones after a cursor are replayed.
 */
module RingReplay {
  import opened Wrappers

  // A fresh UUID: two buffers never share one.
  type Generation = nat

  datatype Cursor = Cursor(generation: Generation, sequence: nat)

  datatype Kind = Done | Question(toolCallId: Option<string>) | Plain

  datatype Frame = Frame(kind: Kind, sessionId: string, payload: string, eventCursor: Option<Cursor>)

  datatype Entry = Entry(sequence: nat, event: Frame)

  // What a buffer has been given since it was made: the frames as dispatched, oldest first.
  datatype Channel = Channel(generation: Generation, log: seq<Frame>)

  function Min(a: nat, b: nat): nat {
    if a < b then a else b
  }

  function Stamp(frame: Frame, generation: Generation, sequence: nat): Frame {
    frame.(eventCursor := Some(Cursor(generation, sequence)))
  }

  // The entries of a channel after sequence number `after`.
  function EntriesAfter(ch: Channel, after: nat): (r: seq<Entry>)
    requires after <= |ch.log|
    ensures |r| == |ch.log| - after
  {
    seq(|ch.log| - after, i requires 0 <= i < |ch.log| - after =>
      Entry(after + i + 1, Stamp(ch.log[after + i], ch.generation, after + i + 1)))
  }

  // How many frames a buffer of this capacity has evicted.
  function Evicted(ch: Channel, capacity: nat): nat {
    |ch.log| - Min(|ch.log|, capacity)
  }

  function Above(entries: seq<Entry>, after: int): seq<Entry> {
    if entries == [] then []
    else (if entries[0].sequence > after then [entries[0]] else []) + Above(entries[1..], after)
  }

  lemma {:induction false} AboveSuffix(ch: Channel, from: nat, after: nat)
    requires from <= after <= |ch.log|
    ensures Above(EntriesAfter(ch, from), after) == EntriesAfter(ch, after)
    decreases |ch.log| - from
  {
    var all := EntriesAfter(ch, from);
    if from < |ch.log| {
      assert all[1..] == EntriesAfter(ch, from + 1);
      if from < after {
        AboveSuffix(ch, from + 1, after);
      } else {
        AboveAll(ch, from + 1, after);
        assert all == [all[0]] + all[1..];
      }
    }
  }

  lemma {:induction false} AboveAll(ch: Channel, from: nat, after: nat)
    requires after <= from <= |ch.log|
    ensures Above(EntriesAfter(ch, from), after) == EntriesAfter(ch, from)
    decreases |ch.log| - from
  {
    var all := EntriesAfter(ch, from);
    if from < |ch.log| {
      assert all[1..] == EntriesAfter(ch, from + 1);
      AboveAll(ch, from + 1, after);
      assert all == [all[0]] + all[1..];
    }
  }

  // A replay is refused when frames after the cursor are gone, or the cursor is not of this buffer.
  predicate Overflows(ch: Channel, capacity: nat, after: int) {
    after > |ch.log| || (ch.log != [] && after < Evicted(ch, capacity))
  }

  class RingBuffer {
    const capacity: nat
    var entries: seq<Entry>
    var nextSeq: nat
    var generation: Generation
    ghost var log: seq<Frame>

    ghost function State(): Channel
      reads this
    {
      Channel(generation, log)
    }

    ghost predicate Valid()
      reads this
    {
      capacity >= 1 && nextSeq == |log| + 1 && entries == EntriesAfter(State(), Evicted(State(), capacity))
    }

    constructor (capacity: int, generation: Generation)
      ensures Valid() && State() == Channel(generation, [])
      ensures this.capacity == if capacity < 1 then 1 else capacity
    {
      this.capacity := if capacity < 1 then 1 else capacity;
      entries := [];
      nextSeq := 1;
      this.generation := generation;
      log := [];
    }

    method Push(event: Frame) returns (entry: Entry)
      requires Valid()
      modifies this
      ensures Valid()
      ensures State() == Channel(old(generation), old(log) + [event])
      ensures entry == Entry(|old(log)| + 1, Stamp(event, generation, |old(log)| + 1))
    {
      var sequence := nextSeq;
      nextSeq := nextSeq + 1;
      entry := Entry(sequence, Stamp(event, generation, sequence));
      entries := entries + [entry];
      if |entries| > capacity {
        entries := entries[|entries| - capacity..];
      }
      log := log + [event];
    }

    method LatestSequence() returns (r: nat)
      requires Valid()
      ensures r == |log|
    {
      r := if entries == [] then 0 else entries[|entries| - 1].sequence;
    }

    method ReplaySince(lastEventId: int) returns (replayed: seq<Entry>, overflowed: bool)
      requires Valid()
      ensures overflowed == Overflows(State(), capacity, lastEventId)
      ensures overflowed <==> lastEventId > |log| || (log != [] && (lastEventId < 0 || lastEventId + capacity < |log|))
      ensures overflowed ==> replayed == EntriesAfter(State(), Evicted(State(), capacity))
      ensures !overflowed ==> replayed == EntriesAfter(State(), if lastEventId < 0 then 0 else lastEventId)
    {
      var latest := LatestSequence();
      if lastEventId > latest {
        return entries, true;
      }
      if entries == [] {
        return [], false;
      }
      if lastEventId < entries[0].sequence - 1 {
        return entries, true;
      }
      AboveSuffix(State(), Evicted(State(), capacity), lastEventId);
      return Above(entries, lastEventId), false;
    }

    method Clear(uuid: Generation)
      requires Valid()
      modifies this
      ensures Valid() && State() == Channel(uuid, [])
    {
      entries := [];
      nextSeq := 1;
      generation := uuid;
      log := [];
    }
  }
}
