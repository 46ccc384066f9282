/**
 The daemon client's request table: pending commands, acknowledgements of mutating ones, and the
 commands whose outcome is unknown.
 */
module CommandSettlement {
  import opened Wrappers

  const MAX_UNKNOWN := 256

  datatype Id = RequestId(number: nat) | AckId(number: nat) | ForeignId(text: string)

  datatype Command = Command(name: string, readOnly: bool)

  datatype Entry = Entry(id: Id, command: Command)

  datatype Outcome = Answered | NoAnswer | OutcomeUnknown | ConnectionLost

  datatype Settlement = Settlement(id: Id, outcome: Outcome)

  datatype Client = Client(
    nextId: nat,
    pending: seq<Entry>,               // a Map, in insertion order
    unknown: seq<Entry>,
    connected: bool,                   // a socket that is not destroyed
    closed: bool,                      // closedError is set
    // what the outside has seen
    issued: seq<Entry>,
    envelopes: seq<Id>,
    settled: seq<Settlement>,
    answers: seq<Id>,
    acked: seq<Id>,
    forwarded: seq<Option<Id>>,
    orphaned: seq<Id>,                 // answered, but writing the acknowledgement threw
    remembered: seq<Entry>)            // every command ever put into the unknown table

  const IDLE := Client(0, [], [], false, false, [], [], [], [], [], [], [], [])

  function Ids(entries: seq<Entry>): (r: seq<Id>)
    ensures |r| == |entries|
    ensures forall i :: 0 <= i < |r| ==> r[i] == entries[i].id
  {
    seq(|entries|, i requires 0 <= i < |entries| => entries[i].id)
  }

  predicate Has(entries: seq<Entry>, id: Id) {
    exists e :: e in entries && e.id == id
  }

  function Get(entries: seq<Entry>, id: Id): (r: Entry)
    requires Has(entries, id)
    ensures r.id == id && r in entries
  {
    if entries[0].id == id then entries[0]
    else
      assert entries == [entries[0]] + entries[1..];
      Get(entries[1..], id)
  }

  function Without(entries: seq<Entry>, id: Id): (r: seq<Entry>)
    ensures forall e :: e in r <==> e in entries && e.id != id
  {
    if entries == [] then []
    else (if entries[0].id == id then [] else [entries[0]]) + Without(entries[1..], id)
  }

  // The newest 256 are kept, the oldest dropped first.
  function Newest(entries: seq<Entry>): (r: seq<Entry>)
    ensures |r| <= MAX_UNKNOWN
  {
    if |entries| > MAX_UNKNOWN then entries[|entries| - MAX_UNKNOWN..] else entries
  }

  lemma {:induction false} NewestIs(all: seq<Entry>, kept: seq<Entry>)
    requires |kept| <= |all| && kept == all[|all| - |kept|..]
    requires |kept| == if |all| > MAX_UNKNOWN then MAX_UNKNOWN else |all|
    ensures kept == Newest(all)
  {}

  function Remember(c: Client, entry: Entry): Client {
    c.(unknown := Newest(c.unknown + [entry]), remembered := c.remembered + [entry])
  }

  function Acknowledge(c: Client, id: Id, writeOk: bool): Client {
    if !c.connected then c
    else c.(nextId := c.nextId + 1, envelopes := c.envelopes + [AckId(c.nextId + 1)],
            acked := if writeOk then c.acked + [id] else c.acked)
  }

  function Settle(c: Client, id: Id, outcome: Outcome): Client {
    c.(settled := c.settled + [Settlement(id, outcome)])
  }

  function Issue(c: Client, command: Command, writeOk: bool): Client {
    if !c.connected || c.closed then c
    else
      var id := RequestId(c.nextId + 1);
      var c1 := c.(nextId := c.nextId + 1, issued := c.issued + [Entry(id, command)], envelopes := c.envelopes + [id]);
      if writeOk then c1.(pending := c1.pending + [Entry(id, command)])
      else Settle(if command.readOnly then c1 else Remember(c1, Entry(id, command)), id, OutcomeUnknown)
  }

  function Expire(c: Client, id: Id): Client {
    if !Has(c.pending, id) then c
    else
      var entry := Get(c.pending, id);
      var c1 := c.(pending := Without(c.pending, id));
      if entry.command.readOnly then Settle(c1, id, NoAnswer)
      else Settle(Remember(c1, entry), id, OutcomeUnknown)
  }

  function Respond(c: Client, id: Option<Id>, ackOk: bool): Client {
    if id.None? then c.(forwarded := c.forwarded + [id])
    else if Has(c.pending, id.value) then
      var entry := Get(c.pending, id.value);
      var c1 := c.(pending := Without(c.pending, id.value), answers := c.answers + [id.value]);
      if entry.command.readOnly then Settle(c1, id.value, Answered)
      else if c.connected && !ackOk then
        Acknowledge(c1, id.value, false).(orphaned := c1.orphaned + [id.value])
      else Settle(Acknowledge(c1, id.value, true), id.value, Answered)
    else if Has(c.unknown, id.value) then
      var c1 := c.(unknown := Without(c.unknown, id.value), answers := c.answers + [id.value]);
      if Get(c.unknown, id.value).command.readOnly then c1 else Acknowledge(c1, id.value, ackOk)
    else c.(forwarded := c.forwarded + [id])
  }

  // Every pending command is settled: a mutating one may have been applied.
  function FailAll(c: Client, entries: seq<Entry>): Client {
    if entries == [] then c
    else
      var before := FailAll(c, entries[..|entries| - 1]);
      var entry := entries[|entries| - 1];
      if entry.command.readOnly then Settle(before, entry.id, ConnectionLost)
      else Settle(Remember(before, entry), entry.id, OutcomeUnknown)
  }

  function Fail(c: Client): Client {
    if c.closed then c else FailAll(c, c.pending).(closed := true, pending := [])
  }

  datatype Step =
    | Requested(command: Command, writeOk: bool)
    | TimedOut(id: Id)
    | Response(answered: Option<Id>, ackOk: bool)
    | Failed
    | SocketGone
    | Connected

  function Next(c: Client, step: Step): Client {
    match step
    case Requested(command, writeOk) => Issue(c, command, writeOk)
    case TimedOut(id) => Expire(c, id)
    case Response(id, ackOk) => Respond(c, id, ackOk)
    case Failed => Fail(c)
    case SocketGone => c.(connected := false)
    case Connected => c.(connected := true, closed := false)
  }

  // ----- the client

  class DaemonSocketClient {
    var nextId: nat
    var pending: seq<Entry>
    var unacknowledgedOutcomes: seq<Entry>
    var connected: bool
    var closed: bool
    ghost var outside: Client

    ghost function State(): Client
      reads this
    {
      outside.(nextId := nextId, pending := pending, unknown := unacknowledgedOutcomes,
               connected := connected, closed := closed)
    }

    constructor ()
      ensures State() == IDLE
    {
      nextId := 0;
      pending := [];
      unacknowledgedOutcomes := [];
      connected := false;
      closed := false;
      outside := IDLE;
    }

    method RememberUnknownOutcome(id: Id, command: Command)
      requires |unacknowledgedOutcomes| <= MAX_UNKNOWN
      modifies this`unacknowledgedOutcomes, this`outside
      ensures State() == Remember(old(State()), Entry(id, command))
    {
      hide Newest;
      unacknowledgedOutcomes := unacknowledgedOutcomes + [Entry(id, command)];
      ghost var all := unacknowledgedOutcomes;
      while |unacknowledgedOutcomes| > MAX_UNKNOWN
        invariant |unacknowledgedOutcomes| <= |all|
        invariant outside == old(outside)
        invariant unacknowledgedOutcomes == all[|all| - |unacknowledgedOutcomes|..]
        invariant |all| > MAX_UNKNOWN ==> |unacknowledgedOutcomes| >= MAX_UNKNOWN
        invariant |all| <= MAX_UNKNOWN ==> |unacknowledgedOutcomes| == |all|
      {
        unacknowledgedOutcomes := unacknowledgedOutcomes[1..];
      }
      NewestIs(all, unacknowledgedOutcomes);
      outside := outside.(remembered := outside.remembered + [Entry(id, command)]);
    }

    // Returns the id the command was sent under, if it was.
    method Request(command: Command, writeOk: bool) returns (sent: Option<Id>)
      requires |unacknowledgedOutcomes| <= MAX_UNKNOWN
      modifies this
      ensures State() == Issue(old(State()), command, writeOk)
      ensures sent == if old(connected) && !old(closed) then Some(RequestId(old(nextId) + 1)) else None
    {
      if !connected || closed { return None; }
      nextId := nextId + 1;
      var id := RequestId(nextId);
      outside := outside.(issued := outside.issued + [Entry(id, command)], envelopes := outside.envelopes + [id]);
      if writeOk {
        pending := pending + [Entry(id, command)];
      } else {
        if !command.readOnly { RememberUnknownOutcome(id, command); }
        outside := Settle(outside, id, OutcomeUnknown);
      }
      return Some(id);
    }

    method OnTimeout(id: Id)
      requires |unacknowledgedOutcomes| <= MAX_UNKNOWN
      modifies this
      ensures State() == Expire(old(State()), id)
    {
      if !Has(pending, id) { return; }
      var entry := Get(pending, id);
      pending := Without(pending, id);
      if entry.command.readOnly {
        outside := Settle(outside, id, NoAnswer);
      } else {
        RememberUnknownOutcome(id, entry.command);
        outside := Settle(outside, id, OutcomeUnknown);
      }
    }

    // False when writing the envelope threw.
    method SendAcknowledgement(commandId: Id, writeOk: bool) returns (ok: bool)
      modifies this`nextId, this`outside
      ensures State() == Acknowledge(old(State()), commandId, writeOk)
      ensures ok == (!connected || writeOk)
    {
      if !connected { return true; }
      nextId := nextId + 1;
      outside := outside.(envelopes := outside.envelopes + [AckId(nextId)]);
      if writeOk { outside := outside.(acked := outside.acked + [commandId]); }
      return writeOk;
    }

    method OnResponse(id: Option<Id>, ackOk: bool)
      modifies this
      ensures State() == Respond(old(State()), id, ackOk)
    {
      if id.Some? {
        if Has(pending, id.value) {
          var entry := Get(pending, id.value);
          pending := Without(pending, id.value);
          outside := outside.(answers := outside.answers + [id.value]);
          if !entry.command.readOnly {
            var ok := SendAcknowledgement(id.value, ackOk);
            if !ok {
              outside := outside.(orphaned := outside.orphaned + [id.value]);
              return;
            }
          }
          outside := Settle(outside, id.value, Answered);
          return;
        }
        if Has(unacknowledgedOutcomes, id.value) {
          var entry := Get(unacknowledgedOutcomes, id.value);
          unacknowledgedOutcomes := Without(unacknowledgedOutcomes, id.value);
          outside := outside.(answers := outside.answers + [id.value]);
          if !entry.command.readOnly {
            var ok := SendAcknowledgement(id.value, ackOk);
          }
          return;
        }
      }
      outside := outside.(forwarded := outside.forwarded + [id]);
    }

    method OnFail()
      requires |unacknowledgedOutcomes| <= MAX_UNKNOWN
      modifies this
      ensures State() == Fail(old(State()))
    {
      if closed { return; }
      closed := true;
      ghost var before := old(State()).(closed := true);
      ghost var done: seq<Entry> := [];
      for i := 0 to |pending|
        invariant pending == old(pending) && done == pending[..i] && closed
        invariant |unacknowledgedOutcomes| <= MAX_UNKNOWN
        invariant State() == FailAll(before, done)
      {
        var entry := pending[i];
        assert (done + [entry])[..|done|] == done;
        done := done + [entry];
        if !entry.command.readOnly {
          RememberUnknownOutcome(entry.id, entry.command);
          outside := Settle(outside, entry.id, OutcomeUnknown);
        } else {
          outside := Settle(outside, entry.id, ConnectionLost);
        }
      }
      assert done == pending;
      FailAllIgnoresClosed(old(State()), pending);
      pending := [];
    }

    method OnSocketGone()
      modifies this`connected
      ensures State() == old(State()).(connected := false)
    {
      connected := false;
    }

    method Reconnect()
      modifies this`connected, this`closed
      ensures State() == Next(old(State()), Connected)
    {
      connected := true;
      closed := false;
    }
  }

  lemma {:induction false} FailAllIgnoresClosed(c: Client, entries: seq<Entry>)
    ensures FailAll(c.(closed := true), entries) == FailAll(c, entries).(closed := true)
  {
    if entries != [] {
      FailAllIgnoresClosed(c, entries[..|entries| - 1]);
    }
  }

  // ----- what every step keeps

  function Number(id: Id): int {
    match id
    case RequestId(n) => n
    case AckId(n) => n
    case ForeignId(_) => -1
  }

  // Numbers go up, so nothing repeats.
  ghost predicate Rising(ids: seq<Id>, limit: nat) {
    && (forall i, j :: 0 <= i < j < |ids| ==> Number(ids[i]) < Number(ids[j]))
    && (forall i :: 0 <= i < |ids| ==> 0 < Number(ids[i]) <= limit)
  }

  ghost predicate Distinct(entries: seq<Entry>) {
    forall i, j :: 0 <= i < j < |entries| ==> entries[i].id != entries[j].id
  }

  function SettledIds(settled: seq<Settlement>): (r: seq<Id>)
    ensures |r| == |settled|
  {
    seq(|settled|, i requires 0 <= i < |settled| => settled[i].id)
  }

  // Every issued command is pending, settled or orphaned, and only one of them, once.
  ghost predicate Balanced(c: Client) {
    multiset(Ids(c.issued)) == multiset(Ids(c.pending)) + multiset(SettledIds(c.settled)) + multiset(c.orphaned)
  }

  // The two tables hold issued commands and never the same one.
  ghost predicate TablesOf(pending: seq<Entry>, unknown: seq<Entry>, issued: seq<Entry>) {
    && Distinct(pending) && Distinct(unknown) && |unknown| <= MAX_UNKNOWN
    && (forall e :: e in pending ==> e in issued)
    && (forall e :: e in unknown ==> e in issued && !e.command.readOnly && !Has(pending, e.id))
  }

  // An answer is used once, and only used answers to mutating commands are acknowledged, once.
  ghost predicate AcksOf(answers: seq<Id>, acked: seq<Id>, pending: seq<Entry>, unknown: seq<Entry>,
                         issued: seq<Entry>) {
    && NoRepeats(answers) && NoRepeats(acked)
    && (forall a :: a in answers ==> Has(issued, a) && !Has(pending, a) && !Has(unknown, a))
    && (forall a :: a in acked ==> a in answers && exists e :: e in issued && e.id == a && !e.command.readOnly)
  }

  ghost predicate Tables(c: Client) {
    TablesOf(c.pending, c.unknown, c.issued)
  }

  ghost predicate Acks(c: Client) {
    AcksOf(c.answers, c.acked, c.pending, c.unknown, c.issued)
  }

  ghost predicate NoRepeats(ids: seq<Id>) {
    forall i, j :: 0 <= i < j < |ids| ==> ids[i] != ids[j]
  }

  ghost predicate Invariant(c: Client) {
    && Rising(c.envelopes, c.nextId) && Rising(Ids(c.issued), c.nextId)
    && Balanced(c) && Tables(c) && Acks(c) && (c.closed ==> c.pending == [])
  }

  lemma {:induction false} WithoutAbsent(entries: seq<Entry>, id: Id)
    requires forall e :: e in entries ==> e.id != id
    ensures Without(entries, id) == entries
  {
    if entries != [] {
      assert entries[0] in entries;
      WithoutAbsent(entries[1..], id);
    }
  }

  lemma {:induction false} WithoutDistinct(entries: seq<Entry>, id: Id)
    requires Distinct(entries)
    ensures Distinct(Without(entries, id))
  {
    if entries != [] {
      WithoutDistinct(entries[1..], id);
    }
  }

  lemma {:induction false} WithoutMiddle(a: seq<Entry>, entry: Entry, b: seq<Entry>)
    requires forall e :: e in a || e in b ==> e.id != entry.id
    ensures Without(a + [entry] + b, entry.id) == a + b
  {
    var all := a + [entry] + b;
    if a == [] {
      assert all[1..] == b;
      WithoutAbsent(b, entry.id);
    } else {
      assert all[1..] == a[1..] + [entry] + b;
      WithoutMiddle(a[1..], entry, b);
      assert a[0] in a && a + b == [a[0]] + (a[1..] + b);
    }
  }

  lemma {:induction false} WithoutIds(entries: seq<Entry>, entry: Entry)
    requires Distinct(entries) && entry in entries
    ensures multiset(Ids(entries)) == multiset(Ids(Without(entries, entry.id))) + multiset{entry.id}
  {
    var i: nat :| i < |entries| && entries[i] == entry;
    var a, b := entries[..i], entries[i + 1..];
    assert entries == a + [entry] + b;
    WithoutMiddle(a, entry, b);
    IdsDrop(entries, i);
    DropOne(Ids(entries), i);
  }

  lemma {:induction false} IdsDrop(entries: seq<Entry>, i: nat)
    requires i < |entries|
    ensures Ids(entries[..i] + entries[i + 1..]) == Ids(entries)[..i] + Ids(entries)[i + 1..]
  {}

  lemma {:induction false} DropOne(ids: seq<Id>, i: nat)
    requires i < |ids|
    ensures multiset(ids) == multiset(ids[..i] + ids[i + 1..]) + multiset{ids[i]}
  {
    assert ids == ids[..i] + [ids[i]] + ids[i + 1..];
  }

  lemma {:induction false} IdsSnoc(entries: seq<Entry>, entry: Entry)
    ensures Ids(entries + [entry]) == Ids(entries) + [entry.id]
  {}

  lemma {:induction false} SettledSnoc(settled: seq<Settlement>, s: Settlement)
    ensures SettledIds(settled + [s]) == SettledIds(settled) + [s.id]
  {}

  // Remembering a command that is not remembered yet keeps the unknown table sound.
  lemma {:induction false} NewestKeeps(unknown: seq<Entry>, entry: Entry)
    requires Distinct(unknown) && !Has(unknown, entry.id)
    ensures Distinct(Newest(unknown + [entry]))
    ensures forall e :: e in Newest(unknown + [entry]) ==> e in unknown || e == entry
  {
    forall i | 0 <= i < |unknown|
      ensures unknown[i].id != entry.id
    {
      assert unknown[i] in unknown;
    }
  }

  // ----- a command leaves the pending table

  function Leave(c: Client, entry: Entry): Client {
    c.(pending := Without(c.pending, entry.id))
  }

  lemma {:induction false} LeaveBalance(c: Client, entry: Entry)
    requires Balanced(c) && Distinct(c.pending) && entry in c.pending
    ensures multiset(Ids(c.issued)) == multiset(Ids(Leave(c, entry).pending)) + multiset(SettledIds(c.settled))
                                       + multiset(c.orphaned) + multiset{entry.id}
  {
    WithoutIds(c.pending, entry);
  }

  lemma {:induction false} LeaveTables(c: Client, entry: Entry)
    requires Tables(c) && Acks(c) && entry in c.pending
    ensures var after := Leave(c, entry);
            && Tables(after) && Acks(after) && entry in c.issued
            && !Has(after.pending, entry.id) && !Has(after.unknown, entry.id) && entry.id !in after.answers
  {
    WithoutDistinct(c.pending, entry.id);
    assert Has(c.pending, entry.id);
    var after := Leave(c, entry);
    forall a | a in c.answers
      ensures !Has(after.pending, a)
    {}
    forall e | e in c.unknown
      ensures !Has(after.pending, e.id)
    {}
  }

  // A command that is in no table is remembered.
  lemma {:induction false} RememberKeeps(c: Client, entry: Entry)
    requires Tables(c) && Acks(c) && entry in c.issued && !entry.command.readOnly
    requires !Has(c.pending, entry.id) && !Has(c.unknown, entry.id) && entry.id !in c.answers
    ensures Tables(Remember(c, entry)) && Acks(Remember(c, entry))
  {
    NewestKeeps(c.unknown, entry);
  }

  lemma {:induction false} SettleBalance(c: Client, id: Id, outcome: Outcome)
    requires multiset(Ids(c.issued)) == multiset(Ids(c.pending)) + multiset(SettledIds(c.settled))
                                        + multiset(c.orphaned) + multiset{id}
    ensures Balanced(Settle(c, id, outcome))
  {
    SettledSnoc(c.settled, Settlement(id, outcome));
  }

  // ----- the steps

  lemma {:induction false} SettlePending(c: Client, entry: Entry, outcome: Outcome)
    requires Invariant(c) && entry in c.pending
    ensures Invariant(Settle(if entry.command.readOnly then Leave(c, entry) else Remember(Leave(c, entry), entry),
                             entry.id, outcome))
  {
    LeaveBalance(c, entry);
    LeaveTables(c, entry);
    if entry.command.readOnly {
      SettleBalance(Leave(c, entry), entry.id, outcome);
    } else {
      RememberKeeps(Leave(c, entry), entry);
      SettleBalance(Remember(Leave(c, entry), entry), entry.id, outcome);
    }
  }

  lemma {:induction false} RisingSnoc(ids: seq<Id>, limit: nat, id: Id)
    requires Rising(ids, limit) && Number(id) == limit + 1
    ensures Rising(ids + [id], limit + 1)
  {}

  lemma {:induction false} RisingRaise(ids: seq<Id>, limit: nat)
    requires Rising(ids, limit)
    ensures Rising(ids, limit + 1)
  {}

  lemma {:induction false} IssueKeeps(c: Client, command: Command, writeOk: bool)
    requires Invariant(c)
    ensures Invariant(Issue(c, command, writeOk))
  {
    if c.connected && !c.closed {
      var id := RequestId(c.nextId + 1);
      var entry := Entry(id, command);
      RisingSnoc(c.envelopes, c.nextId, id);
      RisingSnoc(Ids(c.issued), c.nextId, id);
      IdsSnoc(c.issued, entry);
      var c1 := c.(nextId := c.nextId + 1, issued := c.issued + [entry], envelopes := c.envelopes + [id]);
      assert Tables(c1) && Acks(c1);
      if writeOk {
        IssuedPending(c1, entry);
      } else {
        if !command.readOnly {
          RememberKeeps(c1, entry);
        }
        SettleBalance(if command.readOnly then c1 else Remember(c1, entry), id, OutcomeUnknown);
      }
    }
  }

  lemma {:induction false} IssuedPending(c: Client, entry: Entry)
    requires Tables(c) && Acks(c) && entry in c.issued && !c.closed
    requires !Has(c.pending, entry.id) && !Has(c.unknown, entry.id) && entry.id !in c.answers
    requires multiset(Ids(c.issued)) == multiset(Ids(c.pending)) + multiset(SettledIds(c.settled))
                                        + multiset(c.orphaned) + multiset{entry.id}
    ensures var after := c.(pending := c.pending + [entry]);
            Tables(after) && Acks(after) && Balanced(after)
  {
    IdsSnoc(c.pending, entry);
    forall i | 0 <= i < |c.pending|
      ensures c.pending[i].id != entry.id
    {
      assert c.pending[i] in c.pending;
    }
  }

  lemma {:induction false} RespondKeeps(c: Client, id: Id, ackOk: bool)
    requires Invariant(c)
    ensures Invariant(Respond(c, Some(id), ackOk))
  {
    if Has(c.pending, id) {
      RespondPending(c, Get(c.pending, id), ackOk);
    } else if Has(c.unknown, id) {
      var entry := Get(c.unknown, id);
      var c1 := c.(unknown := Without(c.unknown, id));
      WithoutDistinct(c.unknown, id);
      WithoutShorter(c.unknown, id);
      assert Tables(c1) && Acks(c1);
      AcknowledgeKeeps(c1.(answers := c.answers + [id]), entry, ackOk);
    }
  }

  // The answered command leaves the pending table, read-only or with its acknowledgement.
  lemma {:induction false} RespondPending(c: Client, entry: Entry, ackOk: bool)
    requires Invariant(c) && entry in c.pending && Get(c.pending, entry.id) == entry
    ensures Invariant(Respond(c, Some(entry.id), ackOk))
  {
    LeaveBalance(c, entry);
    LeaveTables(c, entry);
    var c1 := Leave(c, entry).(answers := c.answers + [entry.id]);
    assert Has(c.pending, entry.id);
    if entry.command.readOnly {
      SettleBalance(c1, entry.id, Answered);
    } else {
      AcknowledgeKeeps(c1, entry, ackOk || !c.connected);
      AnsweredBalance(Acknowledge(c1, entry.id, ackOk || !c.connected), entry.id, c.connected && !ackOk);
    }
  }

  lemma {:induction false} AnsweredBalance(c: Client, id: Id, orphan: bool)
    requires multiset(Ids(c.issued)) == multiset(Ids(c.pending)) + multiset(SettledIds(c.settled))
                                        + multiset(c.orphaned) + multiset{id}
    ensures Balanced(if orphan then c.(orphaned := c.orphaned + [id]) else Settle(c, id, Answered))
  {
    SettleBalance(c, id, Answered);
    assert multiset(c.orphaned + [id]) == multiset(c.orphaned) + multiset{id};
  }

  lemma {:induction false} WithoutShorter(entries: seq<Entry>, id: Id)
    ensures |Without(entries, id)| <= |entries|
  {
    if entries != [] {
      WithoutShorter(entries[1..], id);
    }
  }

  lemma {:induction false} AcknowledgeKeeps(c: Client, entry: Entry, writeOk: bool)
    requires Rising(c.envelopes, c.nextId) && Rising(Ids(c.issued), c.nextId) && Tables(c) && Acks(c)
    requires entry in c.issued && !entry.command.readOnly && entry.id in c.answers && entry.id !in c.acked
    ensures var after := Acknowledge(c, entry.id, writeOk);
            && Rising(after.envelopes, after.nextId) && Rising(Ids(after.issued), after.nextId)
            && Tables(after) && Acks(after)
  {
    if c.connected {
      RisingSnoc(c.envelopes, c.nextId, AckId(c.nextId + 1));
      RisingRaise(Ids(c.issued), c.nextId);
    }
  }

  // Failing settles the pending commands one after the other.
  lemma {:induction false} FailAllKeeps(c: Client, done: seq<Entry>, rest: seq<Entry>)
    requires Invariant(c) && c.pending == done + rest
    ensures Invariant(FailAll(c, done).(pending := rest))
  {
    if done == [] {
      assert c.pending == rest;
    } else {
      var front, entry := done[..|done| - 1], done[|done| - 1];
      assert done + rest == front + ([entry] + rest);
      FailAllKeeps(c, front, [entry] + rest);
      FailOneKeeps(FailAll(c, front).(pending := [entry] + rest), entry, rest);
    }
  }

  lemma {:induction false} FailOneKeeps(c: Client, entry: Entry, rest: seq<Entry>)
    requires Invariant(c) && c.pending == [entry] + rest
    ensures Invariant((if entry.command.readOnly then Settle(c, entry.id, ConnectionLost)
                       else Settle(Remember(c, entry), entry.id, OutcomeUnknown)).(pending := rest))
  {
    SettlePending(c, entry, if entry.command.readOnly then ConnectionLost else OutcomeUnknown);
    forall e | e in rest
      ensures e.id != entry.id
    {
      var i: nat :| i < |rest| && rest[i] == e;
      assert c.pending[i + 1] == e && c.pending[0] == entry;
    }
    WithoutAbsent(rest, entry.id);
    assert ([entry] + rest)[1..] == rest;
    assert Leave(c, entry).pending == rest;
  }

  lemma {:induction false} FailKeeps(c: Client)
    requires Invariant(c)
    ensures Invariant(Fail(c))
  {
    if !c.closed {
      assert c.pending == c.pending + [];
      FailAllKeeps(c, c.pending, []);
    }
  }

  lemma {:induction false} StepKeeps(c: Client, step: Step)
    requires Invariant(c)
    ensures Invariant(Next(c, step))
  {
    match step
    case Requested(command, writeOk) => IssueKeeps(c, command, writeOk);
    case TimedOut(id) =>
      if Has(c.pending, id) {
        var entry := Get(c.pending, id);
        SettlePending(c, entry, if entry.command.readOnly then NoAnswer else OutcomeUnknown);
      }
    case Response(id, ackOk) => if id.Some? { RespondKeeps(c, id.value, ackOk); }
    case Failed => FailKeeps(c);
    case SocketGone =>
    case Connected =>
  }

  function Run(steps: seq<Step>): Client {
    if steps == [] then IDLE else Next(Run(steps[..|steps| - 1]), steps[|steps| - 1])
  }

  lemma {:induction false} RunsKeep(steps: seq<Step>)
    ensures Invariant(Run(steps))
  {
    if steps != [] {
      RunsKeep(steps[..|steps| - 1]);
      StepKeeps(Run(steps[..|steps| - 1]), steps[|steps| - 1]);
    }
  }

  // Over every run: no envelope id repeats; each issued command is pending, settled or orphaned,
  // exactly once; acknowledgements are of answered mutating commands, once each; the unknown table
  // is bounded, mutating and disjoint from the pending one.
  lemma {:induction false} SettlementIsExact(steps: seq<Step>)
    ensures var c := Run(steps);
            && NoRepeats(c.envelopes) && NoRepeats(c.acked) && |c.unknown| <= MAX_UNKNOWN
            && (forall e :: e in c.issued ==>
                  multiset(Ids(c.pending))[e.id] + multiset(SettledIds(c.settled))[e.id] + multiset(c.orphaned)[e.id]
                      == 1)
            && (forall a :: a in c.acked ==>
                  a in c.answers && exists e :: e in c.issued && e.id == a && !e.command.readOnly)
            && (forall e :: e in c.unknown ==> !e.command.readOnly && !Has(c.pending, e.id))
  {
    RunsKeep(steps);
    var c := Run(steps);
    forall e | e in c.issued
      ensures multiset(Ids(c.issued))[e.id] == 1
    {
      var i :| 0 <= i < |c.issued| && c.issued[i] == e;
      CountOnce(Ids(c.issued), i);
    }
  }

  lemma {:induction false} CountOnce(ids: seq<Id>, i: nat)
    requires i < |ids| && NoRepeats(ids)
    ensures multiset(ids)[ids[i]] == 1
  {
    assert ids == ids[..i] + [ids[i]] + ids[i + 1..];
    assert ids[i] !in ids[..i] && ids[i] !in ids[i + 1..];
  }

  // ----- the oldest unknown outcomes drop first

  // What no response has settled yet, in the order it was remembered.
  function Unanswered(entries: seq<Entry>, answers: seq<Id>): (r: seq<Entry>)
    ensures |r| <= |entries|
  {
    if entries == [] then []
    else (if entries[0].id in answers then [] else [entries[0]]) + Unanswered(entries[1..], answers)
  }

  // The table is the unanswered part of the log from d on; before d everything is answered or old.
  ghost predicate KeptFrom(c: Client, d: nat) {
    && d <= |c.remembered| && c.unknown == Unanswered(c.remembered[d..], c.answers)
    && forall i :: 0 <= i < d ==> c.remembered[i].id in c.answers || |c.remembered| - i > MAX_UNKNOWN
  }

  ghost predicate Logged(c: Client) {
    exists d :: KeptFrom(c, d)
  }

  lemma {:induction false} UnansweredSnoc(entries: seq<Entry>, answers: seq<Id>, entry: Entry)
    requires entry.id !in answers
    ensures Unanswered(entries + [entry], answers) == Unanswered(entries, answers) + [entry]
  {
    if entries != [] {
      assert (entries + [entry])[1..] == entries[1..] + [entry];
      UnansweredSnoc(entries[1..], answers, entry);
    }
  }

  lemma {:induction false} WithoutPlus(front: seq<Entry>, rest: seq<Entry>, id: Id)
    requires |front| <= 1
    ensures Without(front + rest, id) == (if front != [] && front[0].id != id then front else []) + Without(rest, id)
  {
    if front == [] {
      assert front + rest == rest;
    } else {
      assert (front + rest)[1..] == rest;
    }
  }

  // A response takes its command out, wherever it is.
  lemma {:induction false} UnansweredAnswer(entries: seq<Entry>, answers: seq<Id>, id: Id)
    ensures Unanswered(entries, answers + [id]) == Without(Unanswered(entries, answers), id)
  {
    if entries != [] {
      UnansweredAnswer(entries[1..], answers, id);
      WithoutPlus(if entries[0].id in answers then [] else [entries[0]], Unanswered(entries[1..], answers), id);
    }
  }

  // The cut that drops the first unanswered entry.
  lemma {:induction false} DropFirst(log: seq<Entry>, answers: seq<Id>, d: nat) returns (cut: nat)
    requires d <= |log| && Unanswered(log[d..], answers) != []
    ensures d < cut <= |log| && Unanswered(log[cut..], answers) == Unanswered(log[d..], answers)[1..]
    ensures forall i :: d <= i < cut - 1 ==> log[i].id in answers
    ensures |log| - cut + 1 >= |Unanswered(log[d..], answers)|
    decreases |log| - d
  {
    assert log[d..][1..] == log[d + 1..];
    if log[d].id in answers {
      cut := DropFirst(log, answers, d + 1);
    } else {
      cut := d + 1;
    }
  }

  lemma {:induction false} RememberLogs(c: Client, entry: Entry)
    requires Logged(c) && |c.unknown| <= MAX_UNKNOWN && entry.id !in c.answers
    ensures Logged(Remember(c, entry))
  {
    var d: nat :| KeptFrom(c, d);
    var after := Remember(c, entry);
    assert after.remembered[d..] == c.remembered[d..] + [entry];
    UnansweredSnoc(c.remembered[d..], c.answers, entry);
    if |c.unknown| < MAX_UNKNOWN {
      assert KeptFrom(after, d);
    } else {
      var cut := DropFirst(after.remembered, c.answers, d);
      assert KeptFrom(after, cut);
    }
  }

  lemma {:induction false} AnswerLogs(c: Client, id: Id)
    requires Logged(c)
    ensures Logged(c.(unknown := Without(c.unknown, id), answers := c.answers + [id]))
  {
    var d: nat :| KeptFrom(c, d);
    UnansweredAnswer(c.remembered[d..], c.answers, id);
    assert KeptFrom(c.(unknown := Without(c.unknown, id), answers := c.answers + [id]), d);
  }

  // Only these three fields matter.
  lemma {:induction false} LoggedAlike(c: Client, other: Client)
    requires Logged(c) && c.unknown == other.unknown && c.answers == other.answers && c.remembered == other.remembered
    ensures Logged(other)
  {
    var d: nat :| KeptFrom(c, d);
    assert KeptFrom(other, d);
  }

  lemma {:induction false} PendingIsUnanswered(c: Client, entry: Entry)
    requires Invariant(c) && entry in c.pending
    ensures entry.id !in c.answers && |c.unknown| <= MAX_UNKNOWN && Without(c.unknown, entry.id) == c.unknown
  {
    assert Has(c.pending, entry.id);
    WithoutAbsent(c.unknown, entry.id);
  }

  lemma {:induction false} FailAllLogs(c: Client, done: seq<Entry>, rest: seq<Entry>)
    requires Invariant(c) && Logged(c) && c.pending == done + rest
    ensures Logged(FailAll(c, done))
  {
    if done != [] {
      var front, entry := done[..|done| - 1], done[|done| - 1];
      assert done + rest == front + ([entry] + rest);
      FailAllLogs(c, front, [entry] + rest);
      FailAllKeeps(c, front, [entry] + rest);
      var before := FailAll(c, front);
      PendingIsUnanswered(before.(pending := [entry] + rest), entry);
      SettleLogs(before, entry, OutcomeUnknown, ConnectionLost);
    }
  }

  lemma {:induction false} SettleLogs(c: Client, entry: Entry, mutated: Outcome, kept: Outcome)
    requires Logged(c) && |c.unknown| <= MAX_UNKNOWN && entry.id !in c.answers
    ensures Logged(if entry.command.readOnly then Settle(c, entry.id, kept)
                   else Settle(Remember(c, entry), entry.id, mutated))
  {
    if entry.command.readOnly {
      LoggedAlike(c, Settle(c, entry.id, kept));
    } else {
      RememberLogs(c, entry);
      LoggedAlike(Remember(c, entry), Settle(Remember(c, entry), entry.id, mutated));
    }
  }

  lemma {:induction false} FreshUnanswered(c: Client, id: Id)
    requires Rising(Ids(c.issued), c.nextId) && Acks(c) && Number(id) == c.nextId + 1
    ensures id !in c.answers
  {
    assert forall i :: 0 <= i < |c.issued| ==> Ids(c.issued)[i] != id;
    assert !Has(c.issued, id);
  }

  lemma {:induction false} IssueLogs(c: Client, command: Command, writeOk: bool)
    requires Invariant(c) && Logged(c)
    ensures Logged(Issue(c, command, writeOk))
  {
    var after := Issue(c, command, writeOk);
    if !c.connected || c.closed || writeOk || command.readOnly {
      LoggedAlike(c, after);
    } else {
      var entry := Entry(RequestId(c.nextId + 1), command);
      FreshUnanswered(c, entry.id);
      RememberLogs(c, entry);
      hide Logged, Invariant;
      LoggedAlike(Remember(c, entry), after);
    }
  }

  lemma {:induction false} RespondLogs(c: Client, id: Id, ackOk: bool)
    requires Invariant(c) && Logged(c)
    ensures Logged(Respond(c, Some(id), ackOk))
  {
    var after := Respond(c, Some(id), ackOk);
    if Has(c.pending, id) {
      PendingIsUnanswered(c, Get(c.pending, id));
    }
    if Has(c.pending, id) || Has(c.unknown, id) {
      AnswerLogs(c, id);
      LoggedAlike(c.(unknown := Without(c.unknown, id), answers := c.answers + [id]), after);
    } else {
      LoggedAlike(c, after);
    }
  }

  lemma {:induction false} StepLogs(c: Client, step: Step)
    requires Invariant(c) && Logged(c)
    ensures Logged(Next(c, step))
  {
    var after := Next(c, step);
    match step
    case Requested(command, writeOk) => IssueLogs(c, command, writeOk);
    case TimedOut(id) =>
      if Has(c.pending, id) {
        var entry := Get(c.pending, id);
        PendingIsUnanswered(c, entry);
        LoggedAlike(c, Leave(c, entry));
        SettleLogs(Leave(c, entry), entry, OutcomeUnknown, NoAnswer);
      }
    case Response(id, ackOk) =>
      if id.Some? { RespondLogs(c, id.value, ackOk); } else { LoggedAlike(c, after); }
    case Failed =>
      if !c.closed {
        assert c.pending == c.pending + [];
        FailAllLogs(c, c.pending, []);
        LoggedAlike(FailAll(c, c.pending), after);
      }
    case SocketGone => LoggedAlike(c, after);
    case Connected => LoggedAlike(c, after);
  }

  lemma {:induction false} RunsLog(steps: seq<Step>)
    ensures Logged(Run(steps))
  {
    if steps == [] {
      assert KeptFrom(IDLE, 0);
    } else {
      RunsLog(steps[..|steps| - 1]);
      RunsKeep(steps[..|steps| - 1]);
      StepLogs(Run(steps[..|steps| - 1]), steps[|steps| - 1]);
    }
  }

  // Over every run, late responses included: the table holds the unanswered commands remembered
  // from some point on, in order, and one remembered before that point and never answered has at
  // least 256 remembered after it.
  lemma {:induction false} OldestDropFirst(steps: seq<Step>) returns (d: nat)
    ensures var c := Run(steps);
            && d <= |c.remembered| && c.unknown == Unanswered(c.remembered[d..], c.answers)
            && (forall i :: d <= i < |c.remembered| ==> c.remembered[i] in c.unknown || c.remembered[i].id in c.answers)
            && (forall i :: 0 <= i < d ==> c.remembered[i].id in c.answers || |c.remembered| - (i + 1) >= MAX_UNKNOWN)
  {
    RunsLog(steps);
    var c := Run(steps);
    d :| KeptFrom(c, d);
    forall i | d <= i < |c.remembered| && c.remembered[i].id !in c.answers
      ensures c.remembered[i] in c.unknown
    {
      assert c.remembered[d..][i - d] == c.remembered[i];
      UnansweredHolds(c.remembered[d..], c.answers, i - d);
    }
  }

  lemma {:induction false} UnansweredHolds(entries: seq<Entry>, answers: seq<Id>, i: nat)
    requires i < |entries| && entries[i].id !in answers
    ensures entries[i] in Unanswered(entries, answers)
  {
    if i > 0 {
      assert entries[1..][i - 1] == entries[i];
      UnansweredHolds(entries[1..], answers, i - 1);
    }
  }

  // ----- which commands are never settled

  // A response to a pending mutating command whose acknowledgement throws.
  ghost predicate Orphans(c: Client, step: Step) {
    && step.Response? && step.answered.Some? && !step.ackOk && c.connected
    && Has(c.pending, step.answered.value) && !Get(c.pending, step.answered.value).command.readOnly
  }

  ghost predicate OrphanedAt(steps: seq<Step>, i: nat)
    requires i < |steps|
  {
    Orphans(Run(steps[..i]), steps[i])
  }

  lemma {:induction false} StepOrphans(c: Client, step: Step)
    ensures Next(c, step).orphaned == c.orphaned + (if Orphans(c, step) then [step.answered.value] else [])
  {
    if step.Failed? {
      FailAllOrphans(c, c.pending);
    }
  }

  // Every issued command is pending or settled, exactly once, if and only if no such response came.
  lemma {:induction false} OrphansComeFromThrows(steps: seq<Step>)
    ensures var c := Run(steps);
            && (c.orphaned == [] <==> forall i :: 0 <= i < |steps| ==> !OrphanedAt(steps, i))
            && (c.orphaned == [] <==>
                  multiset(Ids(c.issued)) == multiset(Ids(c.pending)) + multiset(SettledIds(c.settled)))
  {
    RunsKeep(steps);
    OrphanedExactly(steps);
    var c := Run(steps);
    if c.orphaned != [] {
      var answered := multiset(Ids(c.pending)) + multiset(SettledIds(c.settled));
      assert c.orphaned[0] in multiset(c.orphaned);
      assert (answered + multiset(c.orphaned))[c.orphaned[0]] > answered[c.orphaned[0]];
    }
  }

  lemma {:induction false} OrphanedExactly(steps: seq<Step>)
    ensures Run(steps).orphaned == [] <==> forall i :: 0 <= i < |steps| ==> !OrphanedAt(steps, i)
  {
    if steps != [] {
      var n := |steps| - 1;
      var front := steps[..n];
      OrphanedExactly(front);
      StepOrphans(Run(front), steps[n]);
      forall i | 0 <= i < n
        ensures OrphanedAt(front, i) == OrphanedAt(steps, i)
      {
        assert front[..i] == steps[..i];
      }
      assert OrphanedAt(steps, n) == Orphans(Run(front), steps[n]);
    }
  }

  lemma {:induction false} FailAllOrphans(c: Client, entries: seq<Entry>)
    ensures FailAll(c, entries).orphaned == c.orphaned
  {
    if entries != [] {
      FailAllOrphans(c, entries[..|entries| - 1]);
    }
  }

  // When writing an acknowledgement throws, the answered command is never settled.
  lemma {:induction false} ThrowingAcknowledgementOrphans(command: Command)
    requires !command.readOnly
    ensures var c := Run([Connected, Requested(command, true), Response(Some(RequestId(1)), false)]);
            c.pending == [] && c.settled == [] && c.orphaned == [RequestId(1)]
  {
    var c1 := Next(IDLE, Connected);
    var c2 := Next(c1, Requested(command, true));
    var steps := [Connected, Requested(command, true), Response(Some(RequestId(1)), false)];
    assert steps[..2] == [Connected, Requested(command, true)] && steps[..2][..1] == [Connected]
           && steps[..2][..1][..0] == [];
    assert Run(steps[..2][..1]) == c1;
    assert Run(steps[..2]) == c2;
    assert c2.pending == [Entry(RequestId(1), command)];
    assert Entry(RequestId(1), command) in c2.pending && Has(c2.pending, RequestId(1));
    assert Without(c2.pending, RequestId(1)) == [] by { assert c2.pending[1..] == []; }
  }

  // ----- which outcome a command gets

  // What a step does to a command: an answer settles it unless its acknowledgement throws; a timeout
  // and a failure leave a mutating one unknown; a request that cannot be written is unknown at once.
  ghost predicate Settles(c: Client, step: Step, s: Settlement) {
    var waiting := Has(c.pending, s.id);
    match s.outcome
    case Answered =>
      && step.Response? && step.answered == Some(s.id) && waiting
      && (Get(c.pending, s.id).command.readOnly || step.ackOk || !c.connected)
    case NoAnswer => step == TimedOut(s.id) && waiting && Get(c.pending, s.id).command.readOnly
    case ConnectionLost => step.Failed? && !c.closed && waiting && Get(c.pending, s.id).command.readOnly
    case OutcomeUnknown =>
      || ((step == TimedOut(s.id) || (step.Failed? && !c.closed)) && waiting && !Get(c.pending, s.id).command.readOnly)
      || (step.Requested? && !step.writeOk && c.connected && !c.closed && s.id == RequestId(c.nextId + 1))
  }

  // A mutating command whose outcome the step leaves unknown.
  ghost predicate Remembers(c: Client, step: Step, e: Entry) {
    && !e.command.readOnly
    && (|| ((step == TimedOut(e.id) || (step.Failed? && !c.closed)) && e in c.pending)
        || (step.Requested? && !step.writeOk && c.connected && !c.closed
            && e == Entry(RequestId(c.nextId + 1), step.command)))
  }

  lemma {:induction false} GetIs(entries: seq<Entry>, e: Entry)
    requires Distinct(entries) && e in entries
    ensures Has(entries, e.id) && Get(entries, e.id) == e
  {
    var got := Get(entries, e.id);
    var i :| 0 <= i < |entries| && entries[i] == e;
    var j :| 0 <= j < |entries| && entries[j] == got;
  }

  function Lost(e: Entry): Settlement {
    Settlement(e.id, if e.command.readOnly then ConnectionLost else OutcomeUnknown)
  }

  lemma {:induction false} FailAllSettles(c: Client, entries: seq<Entry>)
    ensures forall s :: s in FailAll(c, entries).settled <==> s in c.settled || exists e :: e in entries && s == Lost(e)
    ensures forall e :: e in FailAll(c, entries).remembered
                        <==> e in c.remembered || (e in entries && !e.command.readOnly)
  {
    if entries != [] {
      var front, last := entries[..|entries| - 1], entries[|entries| - 1];
      FailAllSettles(c, front);
      assert entries == front + [last];
      hide Remember, Settle;
      FailOneSettles(FailAll(c, front), last);
    }
  }

  lemma {:induction false} FailOneSettles(c: Client, entry: Entry)
    ensures var after := if entry.command.readOnly then Settle(c, entry.id, ConnectionLost)
                         else Settle(Remember(c, entry), entry.id, OutcomeUnknown);
            && after.settled == c.settled + [Lost(entry)]
            && after.remembered == c.remembered + (if entry.command.readOnly then [] else [entry])
  {}

  lemma {:induction false} FailSettles(c: Client, s: Settlement)
    requires Distinct(c.pending) && !c.closed
    ensures s in Fail(c).settled <==> s in c.settled || Settles(c, Failed, s)
  {
    FailAllSettles(c, c.pending);
    if e :| e in c.pending && s == Lost(e) {
      GetIs(c.pending, e);
    }
    if Has(c.pending, s.id) {
      assert Get(c.pending, s.id) in c.pending;
    }
    hide FailAll, Get;
  }

  lemma {:induction false} RespondSettles(c: Client, id: Option<Id>, ackOk: bool, s: Settlement)
    ensures s in Next(c, Response(id, ackOk)).settled <==> s in c.settled || Settles(c, Response(id, ackOk), s)
  {
    hide Get, Without, Newest, Has;
  }

  lemma {:induction false} ExpireSettles(c: Client, id: Id, s: Settlement)
    ensures s in Next(c, TimedOut(id)).settled <==> s in c.settled || Settles(c, TimedOut(id), s)
  {
    hide Get, Without, Newest, Has;
  }

  lemma {:induction false} StepSettles(c: Client, step: Step, s: Settlement)
    requires Distinct(c.pending)
    ensures s in Next(c, step).settled <==> s in c.settled || Settles(c, step, s)
  {
    match step
    case Response(id, ackOk) => RespondSettles(c, id, ackOk, s);
    case TimedOut(id) => ExpireSettles(c, id, s);
    case Failed => if !c.closed { FailSettles(c, s); }
    case _ =>
  }

  lemma {:induction false} StepRemembers(c: Client, step: Step, e: Entry)
    requires Distinct(c.pending)
    ensures e in Next(c, step).remembered <==> e in c.remembered || Remembers(c, step, e)
  {
    if step.Failed? && !c.closed {
      FailAllSettles(c, c.pending);
    } else if step.TimedOut? {
      if Has(c.pending, step.id) {
        GetIs(c.pending, Get(c.pending, step.id));
        if e in c.pending && e.id == step.id {
          GetIs(c.pending, e);
        }
      }
      hide Get, Without, Newest;
    }
  }

  ghost predicate SettledAt(steps: seq<Step>, i: nat, s: Settlement)
    requires i < |steps|
  {
    Settles(Run(steps[..i]), steps[i], s)
  }

  // Over every run, a command is settled with an outcome if and only if some step gives it that one.
  lemma {:induction false} SettledExactly(steps: seq<Step>, s: Settlement)
    ensures s in Run(steps).settled <==> exists i :: 0 <= i < |steps| && SettledAt(steps, i, s)
  {
    if steps != [] {
      var n := |steps| - 1;
      var front := steps[..n];
      SettledExactly(front, s);
      RunsKeep(front);
      StepSettles(Run(front), steps[n], s);
      forall i | 0 <= i < n
        ensures SettledAt(front, i, s) == SettledAt(steps, i, s)
      {
        assert front[..i] == steps[..i];
      }
      assert SettledAt(steps, n, s) == Settles(Run(front), steps[n], s);
      hide SettledAt, Settles, Next, Invariant;
    }
  }

  // The remembered commands are the mutating ones that were settled as unknown.
  ghost predicate RememberedIs(c: Client) {
    && (forall e :: e in c.remembered ==> e in c.issued)
    && (forall e :: e in c.issued ==> (e in c.remembered <==> IsUnknown(c, e)))
  }

  ghost predicate IsUnknown(c: Client, e: Entry) {
    !e.command.readOnly && Settlement(e.id, OutcomeUnknown) in c.settled
  }

  lemma {:induction false} IssuedOnce(c: Client, a: Entry, b: Entry)
    requires Rising(Ids(c.issued), c.nextId) && a in c.issued && b in c.issued && a.id == b.id
    ensures a == b && Number(a.id) <= c.nextId
  {
    var i :| 0 <= i < |c.issued| && c.issued[i] == a;
    var j :| 0 <= j < |c.issued| && c.issued[j] == b;
    assert Ids(c.issued)[i] == Ids(c.issued)[j];
  }

  // The same step that settles a mutating command as unknown remembers it.
  lemma {:induction false} UnknownIsRemembered(c: Client, step: Step, e: Entry)
    requires Invariant(c) && e in Next(c, step).issued
    ensures Remembers(c, step, e) <==> !e.command.readOnly && Settles(c, step, Settlement(e.id, OutcomeUnknown))
  {
    IssuedBy(c, step);
    if e in c.issued {
      IssuedOnce(c, e, e);
      if Has(c.pending, e.id) {
        IssuedOnce(c, e, Get(c.pending, e.id));
      }
    }
    if e in c.pending {
      GetIs(c.pending, e);
    }
    hide Next, Get;
  }

  // A command is issued under the next id while there is a connection.
  lemma {:induction false} IssuedBy(c: Client, step: Step)
    ensures Next(c, step).issued
            == c.issued + (if step.Requested? && c.connected && !c.closed
                           then [Entry(RequestId(c.nextId + 1), step.command)] else [])
  {
    if step.Failed? {
      FailAllIssued(c, c.pending);
    }
  }

  lemma {:induction false} FailAllIssued(c: Client, entries: seq<Entry>)
    ensures var after := FailAll(c, entries);
            && after.issued == c.issued && after.answers == c.answers && after.acked == c.acked
            && after.forwarded == c.forwarded && after.envelopes == c.envelopes
  {
    if entries != [] {
      FailAllIssued(c, entries[..|entries| - 1]);
    }
  }

  lemma {:induction false} StepRemembered(c: Client, step: Step)
    requires Invariant(c) && RememberedIs(c)
    ensures RememberedIs(Next(c, step))
  {
    var after := Next(c, step);
    IssuedBy(c, step);
    forall e | e in after.remembered
      ensures e in after.issued
    {
      StepRemembers(c, step, e);
    }
    forall e | e in after.issued
      ensures e in after.remembered <==> IsUnknown(after, e)
    {
      StepRemembers(c, step, e);
      StepSettles(c, step, Settlement(e.id, OutcomeUnknown));
      UnknownIsRemembered(c, step, e);
      if e !in c.issued {
        NewIsUnsettled(c, e);
      }
    }
  }

  lemma {:induction false} SettledWasIssued(c: Client, s: Settlement)
    requires Balanced(c) && s in c.settled
    ensures Has(c.issued, s.id)
  {
    var i :| 0 <= i < |c.settled| && c.settled[i] == s;
    assert SettledIds(c.settled)[i] in multiset(SettledIds(c.settled));
    assert s.id in multiset(Ids(c.issued));
    var j :| 0 <= j < |c.issued| && Ids(c.issued)[j] == s.id;
    assert c.issued[j] in c.issued;
  }

  // A command that is not issued yet has no outcome.
  lemma {:induction false} NewIsUnsettled(c: Client, e: Entry)
    requires Invariant(c) && Number(e.id) == c.nextId + 1
    ensures Settlement(e.id, OutcomeUnknown) !in c.settled
  {
    assert forall i :: 0 <= i < |c.issued| ==> Ids(c.issued)[i] != e.id;
    assert !Has(c.issued, e.id);
    forall s | s in c.settled
      ensures Has(c.issued, s.id)
    {
      SettledWasIssued(c, s);
    }
  }

  lemma {:induction false} RunsRemember(steps: seq<Step>)
    ensures RememberedIs(Run(steps))
  {
    if steps != [] {
      RunsRemember(steps[..|steps| - 1]);
      RunsKeep(steps[..|steps| - 1]);
      hide RememberedIs, Invariant, Next;
      StepRemembered(Run(steps[..|steps| - 1]), steps[|steps| - 1]);
    }
  }

  // Over every run: a mutating command is settled as answered or as unknown only, as unknown exactly
  // when it was remembered; only read-only ones are left without an answer or lose their connection.
  lemma {:induction false} OutcomesAreExact(steps: seq<Step>, e: Entry, outcome: Outcome)
    requires e in Run(steps).issued && Settlement(e.id, outcome) in Run(steps).settled
    ensures !e.command.readOnly ==> outcome in {Answered, OutcomeUnknown}
    ensures outcome == OutcomeUnknown && !e.command.readOnly <==> e in Run(steps).remembered
  {
    RunsRemember(steps);
    SettledExactly(steps, Settlement(e.id, outcome));
    var i :| 0 <= i < |steps| && SettledAt(steps, i, Settlement(e.id, outcome));
    RunsKeep(steps);
    if Has(Run(steps[..i]).pending, e.id) {
      PendingWasIssued(steps, i, Get(Run(steps[..i]).pending, e.id));
      IssuedOnce(Run(steps), e, Get(Run(steps[..i]).pending, e.id));
    }
    if e in Run(steps).remembered {
      SettledOnce(Run(steps), e.id, outcome, OutcomeUnknown);
    }
  }

  lemma {:induction false} PendingWasIssued(steps: seq<Step>, i: nat, e: Entry)
    requires i <= |steps| && e in Run(steps[..i]).pending
    ensures e in Run(steps).issued
    decreases |steps| - i
  {
    RunsKeep(steps[..i]);
    IssuedStays(steps, i, e);
  }

  lemma {:induction false} IssuedStays(steps: seq<Step>, i: nat, e: Entry)
    requires i <= |steps| && e in Run(steps[..i]).issued
    ensures e in Run(steps).issued
    decreases |steps| - i
  {
    if i == |steps| {
      assert steps[..i] == steps;
    } else {
      assert steps[..i + 1][..i] == steps[..i];
      IssuedBy(Run(steps[..i]), steps[i]);
      IssuedStays(steps, i + 1, e);
    }
  }

  // A command has one outcome.
  lemma {:induction false} SettledOnce(c: Client, id: Id, a: Outcome, b: Outcome)
    requires Invariant(c) && Settlement(id, a) in c.settled && Settlement(id, b) in c.settled
    ensures a == b
  {
    var ids := SettledIds(c.settled);
    var i :| 0 <= i < |c.settled| && c.settled[i] == Settlement(id, a);
    var j :| 0 <= j < |c.settled| && c.settled[j] == Settlement(id, b);
    TwiceCounts(ids, i, j);
    CountAtMostOne(Ids(c.issued), id);
    assert multiset(ids)[id] <= multiset(Ids(c.issued))[id];
  }

  lemma {:induction false} CountAtMostOne(ids: seq<Id>, id: Id)
    requires NoRepeats(ids)
    ensures multiset(ids)[id] <= 1
  {
    if i :| 0 <= i < |ids| && ids[i] == id {
      CountOnce(ids, i);
    } else {
      assert id !in multiset(ids);
    }
  }

  lemma {:induction false} TwiceCounts(ids: seq<Id>, i: nat, j: nat)
    requires i < |ids| && j < |ids| && ids[i] == ids[j]
    ensures i != j ==> multiset(ids)[ids[i]] >= 2
  {
    var lo, hi := if i < j then i else j, if i < j then j else i;
    assert ids == ids[..hi] + [ids[hi]] + ids[hi + 1..];
    assert lo < hi ==> ids[lo] in ids[..hi];
  }

  // ----- what else the outside sees

  ghost predicate Known(c: Client, id: Id) {
    Has(c.pending, id) || Has(c.unknown, id)
  }

  // An answered command waits no longer and its outcome is known.
  lemma {:induction false} UsedIsGone(c: Client, id: Id, ackOk: bool)
    requires Invariant(c) && Known(c, id)
    ensures !Known(Next(c, Response(Some(id), ackOk)), id)
  {
    if Has(c.pending, id) {
      LeaveTables(c, Get(c.pending, id));
    }
    hide Without, Get, Rising, Balanced, Acks, Newest;
  }

  // A response is used if its command waits or its outcome is unknown, and passed on otherwise; an
  // acknowledgement reaches the daemon for each used response to a mutating command that could be
  // written; each gets an envelope of its own.
  lemma {:induction false} ResponseIsUsed(c: Client, id: Option<Id>, ackOk: bool)
    requires Tables(c)
    ensures var after := Next(c, Response(id, ackOk));
            var used := id.Some? && Known(c, id.value);
            var mutating := used && (Has(c.pending, id.value) ==> !Get(c.pending, id.value).command.readOnly);
            && after.answers == c.answers + (if used then [id.value] else [])
            && after.forwarded == c.forwarded + (if used then [] else [id])
            && after.acked == c.acked + (if mutating && c.connected && ackOk then [id.value] else [])
            && after.envelopes == c.envelopes + (if mutating && c.connected then [AckId(c.nextId + 1)] else [])
            && after.issued == c.issued
  {
    assert id.Some? && Has(c.unknown, id.value) ==> !Get(c.unknown, id.value).command.readOnly;
    hide Without, Get, Has, Tables, Newest;
  }

  // Nothing else is answered, passed on or acknowledged.
  lemma {:induction false} OtherStepsAreSilent(c: Client, step: Step)
    requires !step.Response?
    ensures var after := Next(c, step);
            && after.answers == c.answers && after.forwarded == c.forwarded && after.acked == c.acked
            && after.envelopes == c.envelopes + (if step.Requested? && c.connected && !c.closed
                                                 then [RequestId(c.nextId + 1)] else [])
  {
    if step.Failed? {
      FailAllIssued(c, c.pending);
    }
  }

  // A new connection opens the way for commands, a lost socket closes it, and a failure closes it
  // until the next connection; nothing else touches it.
  lemma {:induction false} ConnectionGates(c: Client, step: Step)
    ensures var after := Next(c, step);
            && (after.connected <==> step.Connected? || (c.connected && !step.SocketGone?))
            && (after.closed <==> step.Failed? || (c.closed && !step.Connected?))
            && (step.Failed? && !c.closed ==> after.pending == [])
  {
    if step.Failed? {
      FailAllGates(c, c.pending);
    }
  }

  lemma {:induction false} FailAllGates(c: Client, entries: seq<Entry>)
    ensures FailAll(c, entries).connected == c.connected && FailAll(c, entries).closed == c.closed
  {
    if entries != [] {
      FailAllGates(c, entries[..|entries| - 1]);
    }
  }
}
