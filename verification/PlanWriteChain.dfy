/** A session's plan presentations: writes queued one behind the other, deletes that void queued writes. */
module PlanWriteChain {
  import opened Wrappers

  datatype Record = Record(assistantMessageId: string, content: string)

  // A queued operation, and the one it waits for.
  datatype Op =
    | Upsert(record: Record, captured: nat, previous: Option<nat>)
    | Delete(previous: Option<nat>)

  datatype State =
    | Queued
    | Reading
    | Writing(next: seq<Record>)
    | Removing
    | Applied
    | WriteFailed
    | Skipped
    | Removed
    | RemoveFailed

  predicate Settled(state: State) {
    state.Applied? || state.WriteFailed? || state.Skipped? || state.Removed? || state.RemoveFailed?
  }

  // The stored file is absent until the first write and after a delete; `chain` names the newest
  // operation that is still recorded, `generation` is absent when it was dropped.
  datatype Store = Store(ops: seq<Op>, states: seq<State>, chain: Option<nat>, generation: Option<nat>,
                         file: Option<seq<Record>>)

  predicate Valid(s: Store) {
    |s.states| == |s.ops| && (s.chain.Some? ==> s.chain.value < |s.ops|)
    && forall i :: 0 <= i < |s.ops| ==> s.ops[i].previous.Some? ==> s.ops[i].previous.value < i
  }

  function FindRecord(records: seq<Record>, id: string): (k: int)
    ensures -1 <= k < |records|
    ensures k >= 0 ==> records[k].assistantMessageId == id
    ensures forall i :: 0 <= i < (if k < 0 then |records| else k) ==> records[i].assistantMessageId != id
  {
    if records == [] then -1
    else if records[0].assistantMessageId == id then 0
    else
      var k := FindRecord(records[1..], id);
      if k < 0 then -1 else k + 1
  }

  function Put(records: seq<Record>, record: Record): seq<Record> {
    var k := FindRecord(records, record.assistantMessageId);
    if k < 0 then records + [record] else records[k := record]
  }

  // ----- the steps between awaits

  function IssueUpsert(s: Store, record: Record): Store {
    s.(ops := s.ops + [Upsert(record, s.generation.GetOr(0), s.chain)], states := s.states + [Queued],
        chain := Some(|s.ops|))
  }

  function IssueDelete(s: Store): Store {
    s.(ops := s.ops + [Delete(s.chain)], states := s.states + [Queued], chain := Some(|s.ops|),
       generation := Some(s.generation.GetOr(0) + 1))
  }

  predicate CanStart(s: Store, i: nat) {
    Valid(s) && i < |s.ops| && s.states[i] == Queued
    && (s.ops[i].previous.Some? ==> Settled(s.states[s.ops[i].previous.value]))
  }

  // An upsert from before a delete does nothing.
  function Start(s: Store, i: nat): Store
    requires CanStart(s, i)
  {
    var state :=
      if s.ops[i].Delete? then Removing
      else if s.generation.GetOr(0) != s.ops[i].captured then Skipped else Reading;
    s.(states := s.states[i := state])
  }

  predicate IsReading(s: Store, i: nat) {
    Valid(s) && i < |s.ops| && s.states[i] == Reading && s.ops[i].Upsert?
  }

  function Read(s: Store, i: nat): Store
    requires IsReading(s, i)
  {
    s.(states := s.states[i := Writing(Put(s.file.GetOr([]), s.ops[i].record))])
  }

  predicate IsWriting(s: Store, i: nat) {
    Valid(s) && i < |s.ops| && s.states[i].Writing?
  }

  // The write replaces the file as a whole, or fails and leaves it.
  function Written(s: Store, i: nat, ok: bool): Store
    requires IsWriting(s, i)
  {
    if ok then s.(states := s.states[i := Applied], file := Some(s.states[i].next))
    else s.(states := s.states[i := WriteFailed])
  }

  predicate IsRemoving(s: Store, i: nat) {
    Valid(s) && i < |s.ops| && s.states[i] == Removing
  }

  function FinishRemoving(s: Store, i: nat, ok: bool): Store
    requires IsRemoving(s, i)
  {
    if ok then s.(states := s.states[i := Removed], file := None) else s.(states := s.states[i := RemoveFailed])
  }

  predicate CanCleanUp(s: Store, i: nat) {
    Valid(s) && i < |s.ops| && Settled(s.states[i])
  }

  // After an operation: drop the chain if nothing was queued behind it, and after a delete the
  // generation with it.
  function CleanUp(s: Store, i: nat): Store
    requires CanCleanUp(s, i)
  {
    if s.chain != Some(i) then s
    else if s.ops[i].Delete? then s.(chain := None, generation := None)
    else s.(chain := None)
  }

  datatype Step =
    | DoUpsert(record: Record)
    | DoDelete
    | DoStart(op: nat)
    | DoRead(op: nat)
    | DoWrite(op: nat, ok: bool)
    | DoRemove(op: nat, ok: bool)
    | DoCleanUp(op: nat)

  function Next(s: Store, step: Step): Store {
    match step
    case DoUpsert(record) => IssueUpsert(s, record)
    case DoDelete => IssueDelete(s)
    case DoStart(i) => if CanStart(s, i) then Start(s, i) else s
    case DoRead(i) => if IsReading(s, i) then Read(s, i) else s
    case DoWrite(i, ok) => if IsWriting(s, i) then Written(s, i, ok) else s
    case DoRemove(i, ok) => if IsRemoving(s, i) then FinishRemoving(s, i, ok) else s
    case DoCleanUp(i) => if CanCleanUp(s, i) then CleanUp(s, i) else s
  }

  // ----- the store object

  class PlanStore {
    var ops: seq<Op>
    var states: seq<State>
    var chain: Option<nat>
    var generation: Option<nat>
    var file: Option<seq<Record>>

    ghost function Value(): Store
      reads this
    {
      Store(ops, states, chain, generation, file)
    }

    constructor (stored: Option<seq<Record>>)
      ensures Value() == Store([], [], None, None, stored)
    {
      ops, states, chain, generation, file := [], [], None, None, stored;
    }

    method UpsertManagedPlanPresentation(record: Record)
      modifies this`ops, this`states, this`chain
      ensures Value() == IssueUpsert(old(Value()), record)
    {
      var captured := generation.GetOr(0);
      var operation := |ops|;
      ops := ops + [Upsert(record, captured, chain)];
      states := states + [Queued];
      chain := Some(operation);
    }

    method DeleteManagedPlanPresentationsForSession()
      modifies this`ops, this`states, this`chain, this`generation
      ensures Value() == IssueDelete(old(Value()))
    {
      generation := Some(generation.GetOr(0) + 1);
      var operation := |ops|;
      ops := ops + [Delete(chain)];
      states := states + [Queued];
      chain := Some(operation);
    }

    method StartOperation(i: nat)
      requires CanStart(Value(), i)
      modifies this`states
      ensures Value() == Start(old(Value()), i)
    {
      if ops[i].Delete? {
        states := states[i := Removing];
      } else if generation.GetOr(0) != ops[i].captured {
        states := states[i := Skipped];
      } else {
        states := states[i := Reading];
      }
    }

    method ReadCurrent(i: nat)
      requires IsReading(Value(), i)
      modifies this`states
      ensures Value() == Read(old(Value()), i)
    {
      var current := if file.Some? then file.value else [];
      var index := FindRecord(current, ops[i].record.assistantMessageId);
      var next := if index < 0 then current + [ops[i].record] else current[index := ops[i].record];
      states := states[i := Writing(next)];
    }

    method FinishWrite(i: nat, ok: bool)
      requires IsWriting(Value(), i)
      modifies this`states, this`file
      ensures Value() == Written(old(Value()), i, ok)
    {
      if ok {
        file := Some(states[i].next);
      }
      states := states[i := if ok then Applied else WriteFailed];
    }

    method FinishRemove(i: nat, ok: bool)
      requires IsRemoving(Value(), i)
      modifies this`states, this`file
      ensures Value() == FinishRemoving(old(Value()), i, ok)
    {
      if ok {
        file := None;
      }
      states := states[i := if ok then Removed else RemoveFailed];
    }

    method CleanUpAfter(i: nat)
      requires CanCleanUp(Value(), i)
      modifies this`chain, this`generation
      ensures Value() == CleanUp(old(Value()), i)
    {
      if chain == Some(i) {
        chain := None;
        if ops[i].Delete? {
          generation := None;
        }
      }
    }
  }

  // ----- the reference: outcomes applied in issue order

  function Outcome(file: Option<seq<Record>>, op: Op, state: State): Option<seq<Record>> {
    if op.Upsert? && state.Applied? then Some(Put(file.GetOr([]), op.record))
    else if op.Delete? && state.Removed? then None
    else file
  }

  // The file after the first n operations, one after the other.
  function FileAfter(stored: Option<seq<Record>>, s: Store, n: nat): Option<seq<Record>>
    requires n <= |s.ops| == |s.states|
  {
    if n == 0 then stored else Outcome(FileAfter(stored, s, n - 1), s.ops[n - 1], s.states[n - 1])
  }

  function DeletesFrom(ops: seq<Op>, i: nat): nat
    requires i <= |ops|
    decreases |ops| - i
  {
    if i == |ops| then 0 else (if ops[i].Delete? then 1 else 0) + DeletesFrom(ops, i + 1)
  }

  // ----- what every reachable state satisfies

  // Operations settle in issue order: nothing has begun before all earlier ones are settled.
  predicate Serial(s: Store)
    requires Valid(s)
  {
    forall i, j :: 0 <= i < j < |s.ops| && s.states[j] != Queued ==> Settled(s.states[i])
  }

  predicate SettledBefore(s: Store, n: nat)
    requires Valid(s) && n <= |s.ops|
  {
    forall i :: 0 <= i < n ==> Settled(s.states[i])
  }

  // Each operation waits for its predecessor, or all earlier ones were already settled; the chain
  // names the last one while any is unsettled.
  predicate Linked(s: Store)
    requires Valid(s)
  {
    && (forall i :: 0 <= i < |s.ops| ==>
          if s.ops[i].previous.Some? then s.ops[i].previous.value == i - 1 else SettledBefore(s, i))
    && (if s.chain.Some? then s.chain.value == |s.ops| - 1 else SettledBefore(s, |s.ops|))
  }

  predicate Kinds(s: Store)
    requires Valid(s)
  {
    forall i :: 0 <= i < |s.ops| ==>
      match s.states[i]
      case Queued => true
      case Removing => s.ops[i].Delete?
      case Removed => s.ops[i].Delete?
      case RemoveFailed => s.ops[i].Delete?
      case _ => s.ops[i].Upsert?
  }

  // A queued upsert is behind by exactly the deletes issued after it.
  predicate Counted(s: Store)
    requires Valid(s)
  {
    forall i :: 0 <= i < |s.ops| && s.ops[i].Upsert? && s.states[i] == Queued ==>
      s.generation.GetOr(0) == s.ops[i].captured + DeletesFrom(s.ops, i + 1)
  }

  // Only a delete issued later voids an upsert.
  predicate Voided(s: Store)
    requires Valid(s)
  {
    forall i :: 0 <= i < |s.ops| && s.states[i] == Skipped ==> DeletesFrom(s.ops, i + 1) > 0
  }

  // The file is what the settled operations made of it, and an upsert about to write has read it.
  predicate Stored(stored: Option<seq<Record>>, s: Store)
    requires Valid(s)
  {
    && s.file == FileAfter(stored, s, |s.ops|)
    && forall i :: 0 <= i < |s.ops| && s.states[i].Writing? ==>
         s.ops[i].Upsert? && s.states[i].next == Put(s.file.GetOr([]), s.ops[i].record)
  }

  predicate Sound(stored: Option<seq<Record>>, s: Store) {
    Valid(s) && Serial(s) && Linked(s) && Kinds(s) && Counted(s) && Voided(s) && Stored(stored, s)
  }

  lemma {:induction false} DeletesSnoc(ops: seq<Op>, op: Op, i: nat)
    requires i <= |ops|
    ensures DeletesFrom(ops + [op], i) == DeletesFrom(ops, i) + if op.Delete? then 1 else 0
    decreases |ops| - i
  {
    if i < |ops| {
      DeletesSnoc(ops, op, i + 1);
      assert (ops + [op])[i] == ops[i];
    } else {
      assert (ops + [op])[i] == op;
      assert DeletesFrom(ops + [op], i + 1) == 0;
    }
  }

  predicate Idle(state: State) {
    !state.Applied? && !state.Removed?
  }

  // Undecided operations change nothing, so the file after the first n does not depend on the rest.
  lemma {:induction false} SameOutcomes(stored: Option<seq<Record>>, s: Store, t: Store, n: nat)
    requires |s.ops| == |s.states| && |t.ops| == |t.states| && n <= |s.ops| && n <= |t.ops|
    requires forall i :: 0 <= i < n ==> s.ops[i] == t.ops[i]
    requires forall i :: 0 <= i < n ==> (s.states[i] == t.states[i] || (Idle(s.states[i]) && Idle(t.states[i])))
    ensures FileAfter(stored, s, n) == FileAfter(stored, t, n)
  {
    if n > 0 {
      SameOutcomes(stored, s, t, n - 1);
    }
  }

  lemma {:induction false} IdleTail(stored: Option<seq<Record>>, s: Store, i: nat, n: nat)
    requires i <= n <= |s.ops| == |s.states|
    requires forall k :: i <= k < n ==> Idle(s.states[k])
    ensures FileAfter(stored, s, n) == FileAfter(stored, s, i)
  {
    if i < n {
      IdleTail(stored, s, i, n - 1);
    }
  }

  lemma {:induction false} MovedFile(stored: Option<seq<Record>>, s: Store, t: Store, i: nat)
    requires Valid(s) && Valid(t) && t.ops == s.ops && i < |s.ops|
    requires Idle(s.states[i]) && forall k :: i < k < |s.ops| ==> s.states[k] == Queued == t.states[k]
    requires forall k :: 0 <= k < i ==> t.states[k] == s.states[k]
    ensures FileAfter(stored, t, |t.ops|) == Outcome(FileAfter(stored, s, |s.ops|), s.ops[i], t.states[i])
  {
    IdleTail(stored, s, i, |s.ops|);
    IdleTail(stored, t, i + 1, |t.ops|);
    SameOutcomes(stored, s, t, i);
  }

  lemma {:induction false} IssueKeepsRest(stored: Option<seq<Record>>, s: Store, t: Store, op: Op)
    requires Sound(stored, s) && Valid(t)
    requires t.ops == s.ops + [op] && t.states == s.states + [Queued] && t.file == s.file
    requires t.generation.GetOr(0) == s.generation.GetOr(0) + if op.Delete? then 1 else 0
    requires op.Upsert? ==> op.captured == s.generation.GetOr(0)
    ensures Counted(t) && Voided(t) && Stored(stored, t)
  {
    forall i | 0 <= i < |s.ops|
      ensures t.ops[i] == s.ops[i] && t.states[i] == s.states[i]
      ensures DeletesFrom(t.ops, i + 1) == DeletesFrom(s.ops, i + 1) + if op.Delete? then 1 else 0
    {
      DeletesSnoc(s.ops, op, i + 1);
    }
    assert DeletesFrom(t.ops, |t.ops|) == 0;
    SameOutcomes(stored, s, t, |s.ops|);
  }

  lemma {:induction false} UpsertKeeps(stored: Option<seq<Record>>, s: Store, record: Record)
    requires Sound(stored, s)
    ensures Sound(stored, IssueUpsert(s, record))
  {
    var op := Upsert(record, s.generation.GetOr(0), s.chain);
    IssueKeepsRest(stored, s, IssueUpsert(s, record), op);
  }

  lemma {:induction false} DeleteKeeps(stored: Option<seq<Record>>, s: Store)
    requires Sound(stored, s)
    ensures Sound(stored, IssueDelete(s))
  {
    IssueKeepsRest(stored, s, IssueDelete(s), Delete(s.chain));
  }

  lemma {:induction false} StartKeeps(stored: Option<seq<Record>>, s: Store, i: nat)
    requires Sound(stored, s) && CanStart(s, i)
    ensures Sound(stored, Start(s, i))
  {
    hide FileAfter;
    hide DeletesFrom;
    var t := Start(s, i);
    MovedFile(stored, s, t, i);
  }

  lemma {:induction false} ReadKeeps(stored: Option<seq<Record>>, s: Store, i: nat)
    requires Sound(stored, s) && IsReading(s, i)
    ensures Sound(stored, Read(s, i))
  {
    hide FileAfter;
    hide DeletesFrom;
    var t := Read(s, i);
    MovedFile(stored, s, t, i);
  }

  lemma {:induction false} WriteKeeps(stored: Option<seq<Record>>, s: Store, i: nat, ok: bool)
    requires Sound(stored, s) && IsWriting(s, i)
    ensures Sound(stored, Written(s, i, ok))
  {
    hide FileAfter;
    hide DeletesFrom;
    var t := Written(s, i, ok);
    MovedFile(stored, s, t, i);
  }

  lemma {:induction false} RemoveKeeps(stored: Option<seq<Record>>, s: Store, i: nat, ok: bool)
    requires Sound(stored, s) && IsRemoving(s, i)
    ensures Sound(stored, FinishRemoving(s, i, ok))
  {
    hide FileAfter;
    hide DeletesFrom;
    var t := FinishRemoving(s, i, ok);
    MovedFile(stored, s, t, i);
  }

  // The generation is dropped only when nothing is queued that could have captured it.
  lemma {:induction false} CleanUpKeeps(stored: Option<seq<Record>>, s: Store, i: nat)
    requires Sound(stored, s) && CanCleanUp(s, i)
    ensures Sound(stored, CleanUp(s, i))
  {
    var t := CleanUp(s, i);
    if s.chain == Some(i) {
      assert SettledBefore(s, |s.ops|);
      SameOutcomes(stored, s, t, |s.ops|);
    }
  }

  lemma {:induction false} StepKeeps(stored: Option<seq<Record>>, s: Store, step: Step)
    requires Sound(stored, s)
    ensures Sound(stored, Next(s, step))
  {
    match step
    case DoUpsert(record) => UpsertKeeps(stored, s, record);
    case DoDelete => DeleteKeeps(stored, s);
    case DoStart(i) => if CanStart(s, i) { StartKeeps(stored, s, i); }
    case DoRead(i) => if IsReading(s, i) { ReadKeeps(stored, s, i); }
    case DoWrite(i, ok) => if IsWriting(s, i) { WriteKeeps(stored, s, i, ok); }
    case DoRemove(i, ok) => if IsRemoving(s, i) { RemoveKeeps(stored, s, i, ok); }
    case DoCleanUp(i) => if CanCleanUp(s, i) { CleanUpKeeps(stored, s, i); }
  }

  // ----- runs

  function Run(stored: Option<seq<Record>>, steps: seq<Step>): Store {
    if steps == [] then Store([], [], None, None, stored)
    else Next(Run(stored, steps[..|steps| - 1]), steps[|steps| - 1])
  }

  lemma {:induction false} RunsAreSound(stored: Option<seq<Record>>, steps: seq<Step>)
    ensures Sound(stored, Run(stored, steps))
  {
    if steps != [] {
      RunsAreSound(stored, steps[..|steps| - 1]);
      StepKeeps(stored, Run(stored, steps[..|steps| - 1]), steps[|steps| - 1]);
    }
  }

  predicate Quiescent(s: Store) {
    |s.states| == |s.ops| && forall i :: 0 <= i < |s.ops| ==> Settled(s.states[i])
  }

  // The upserts from the d-th operation on that were written, in issue order.
  function WrittenFrom(s: Store, d: nat, n: nat): seq<Record>
    requires d <= n <= |s.ops| == |s.states|
  {
    if n == d then []
    else
      WrittenFrom(s, d, n - 1)
      + (if s.ops[n - 1].Upsert? && s.states[n - 1].Applied? then [s.ops[n - 1].record] else [])
  }

  function PutAll(records: seq<Record>, puts: seq<Record>): seq<Record> {
    if puts == [] then records else Put(PutAll(records, puts[..|puts| - 1]), puts[|puts| - 1])
  }

  lemma {:induction false} PutOutcome(file: Option<seq<Record>>, records: seq<Record>, puts: seq<Record>, op: Op,
                                      state: State)
    requires op.Upsert? && file.GetOr([]) == PutAll(records, puts)
    ensures Outcome(file, op, state).GetOr([]) == PutAll(records, puts + if state.Applied? then [op.record] else [])
  {
    assert puts + [] == puts;
  }

  lemma {:induction false} FileFrom(stored: Option<seq<Record>>, s: Store, d: nat, n: nat)
    requires d <= n <= |s.ops| == |s.states|
    requires forall i :: d <= i < n ==> s.ops[i].Upsert?
    ensures FileAfter(stored, s, n).GetOr([]) == PutAll(FileAfter(stored, s, d).GetOr([]), WrittenFrom(s, d, n))
  {
    if n > d {
      FileFrom(stored, s, d, n - 1);
      PutOutcome(FileAfter(stored, s, n - 1), FileAfter(stored, s, d).GetOr([]), WrittenFrom(s, d, n - 1),
                 s.ops[n - 1], s.states[n - 1]);
    }
  }

  lemma {:induction false} NoDeletesAfter(ops: seq<Op>, i: nat)
    requires i <= |ops| && forall k :: i <= k < |ops| ==> ops[k].Upsert?
    ensures DeletesFrom(ops, i) == 0
    decreases |ops| - i
  {
    if i < |ops| {
      NoDeletesAfter(ops, i + 1);
    }
  }

  lemma {:induction false} LaterAreDecided(stored: Option<seq<Record>>, s: Store, d: nat, i: nat)
    requires Sound(stored, s) && Quiescent(s) && d <= i < |s.ops|
    requires forall k :: d <= k < |s.ops| ==> s.ops[k].Upsert?
    ensures s.states[i] == Applied || s.states[i] == WriteFailed
  {
    NoDeletesAfter(s.ops, i + 1);
  }

  // Nothing but upserts since the first d operations, and the last of those a delete.
  predicate LastDelete(s: Store, d: nat) {
    |s.states| == |s.ops| && d <= |s.ops|
    && (forall i :: d <= i < |s.ops| ==> s.ops[i].Upsert?)
    && (d > 0 ==> s.ops[d - 1].Delete?)
  }

  // The records that the first d operations left: none if the last of them removed the file.
  function Left(stored: Option<seq<Record>>, s: Store, d: nat): seq<Record>
    requires d <= |s.ops| == |s.states|
  {
    if d == 0 then stored.GetOr([])
    else if s.states[d - 1] == Removed then []
    else FileAfter(stored, s, d - 1).GetOr([])
  }

  // When everything has settled, whatever the last delete's outcome: on top of what it left, the
  // file holds the upserts issued since whose writes succeeded, put in issue order; and none of
  // those was voided.
  lemma {:induction false} QuiescentFile(stored: Option<seq<Record>>, steps: seq<Step>, d: nat)
    requires Quiescent(Run(stored, steps)) && LastDelete(Run(stored, steps), d)
    ensures var s := Run(stored, steps);
            && s.file.GetOr([]) == PutAll(Left(stored, s, d), WrittenFrom(s, d, |s.ops|))
            && forall i :: d <= i < |s.ops| ==> s.states[i] == Applied || s.states[i] == WriteFailed
  {
    var s := Run(stored, steps);
    RunsAreSound(stored, steps);
    FileFrom(stored, s, d, |s.ops|);
    if d > 0 {
      assert FileAfter(stored, s, d) == Outcome(FileAfter(stored, s, d - 1), s.ops[d - 1], s.states[d - 1]);
    }
    forall i | d <= i < |s.ops|
      ensures s.states[i] == Applied || s.states[i] == WriteFailed
    {
      LaterAreDecided(stored, s, d, i);
    }
  }

  // ----- which upserts are lost

  // It starts after a delete that was issued behind it.
  ghost predicate StartsLate(s: Store, i: nat) {
    CanStart(s, i) && s.ops[i].Upsert? && exists j :: i < j < |s.ops| && s.ops[j].Delete?
  }

  lemma {:induction false} DeletesCounted(ops: seq<Op>, i: nat)
    requires i <= |ops|
    ensures DeletesFrom(ops, i) > 0 <==> exists j :: i <= j < |ops| && ops[j].Delete?
    decreases |ops| - i
  {
    if i < |ops| {
      DeletesCounted(ops, i + 1);
    }
  }

  lemma {:induction false} LateCanStart(s: Store, i: nat)
    ensures StartsLate(s, i) ==> CanStart(s, i)
  {}

  lemma {:induction false} StartVoids(s: Store, i: nat)
    requires CanStart(s, i) && Counted(s)
    ensures Start(s, i).states[i] == Skipped <==> StartsLate(s, i)
  {
    DeletesCounted(s.ops, i + 1);
  }

  lemma {:induction false} StepVoids(stored: Option<seq<Record>>, s: Store, step: Step, i: nat)
    requires Sound(stored, s) && i < |Next(s, step).ops| == |Next(s, step).states|
    ensures Next(s, step).states[i] == Skipped
            <==> (i < |s.ops| && s.states[i] == Skipped) || (step == DoStart(i) && StartsLate(s, i))
  {
    hide Serial, Linked, Kinds, Stored, Voided, Counted, StartsLate;
    if step == DoStart(i) {
      assert StartsLate(s, i) ==> CanStart(s, i) by { LateCanStart(s, i); }
      if CanStart(s, i) {
        StartVoids(s, i);
      }
    }
  }

  // Over every run: an upsert is voided if and only if it starts after a delete issued behind it,
  // whether that delete then succeeds or not.
  lemma {:induction false} VoidedExactly(stored: Option<seq<Record>>, steps: seq<Step>, i: nat)
    requires i < |Run(stored, steps).ops|
    ensures |Run(stored, steps).states| == |Run(stored, steps).ops|
    ensures Run(stored, steps).states[i] == Skipped
            <==> EverVoids(stored, steps, i)
  {
    SameLength(stored, steps);
    if steps != [] {
      var front := steps[..|steps| - 1];
      var before := Run(stored, front);
      assert Run(stored, steps) == Next(before, steps[|steps| - 1]);
      RunsAreSound(stored, front);
      SameLength(stored, front);
      StepVoids(stored, before, steps[|steps| - 1], i);
      EverVoidsLast(stored, steps, i);
      hide StartsLate, Sound, Next, Run, EverVoids;
      if i < |before.ops| {
        VoidedExactly(stored, front, i);
      }
    }
  }

  lemma {:induction false} SameLength(stored: Option<seq<Record>>, steps: seq<Step>)
    ensures |Run(stored, steps).states| == |Run(stored, steps).ops|
  {
    RunsAreSound(stored, steps);
  }

  ghost predicate VoidsAt(stored: Option<seq<Record>>, steps: seq<Step>, k: nat, i: nat)
    requires k < |steps|
  {
    steps[k] == DoStart(i) && StartsLate(Run(stored, steps[..k]), i)
  }

  ghost predicate EverVoids(stored: Option<seq<Record>>, steps: seq<Step>, i: nat) {
    exists k :: 0 <= k < |steps| && VoidsAt(stored, steps, k, i)
  }

  lemma {:induction false} EverVoidsLast(stored: Option<seq<Record>>, steps: seq<Step>, i: nat)
    requires steps != []
    ensures var front, last := steps[..|steps| - 1], steps[|steps| - 1];
            && (EverVoids(stored, front, i) ==> i < |Run(stored, front).ops|)
            && (EverVoids(stored, steps, i)
                <==> EverVoids(stored, front, i) || (last == DoStart(i) && StartsLate(Run(stored, front), i)))
  {
    hide Run;
    var front := steps[..|steps| - 1];
    assert VoidsAt(stored, steps, |front|, i) <==> steps[|front|] == DoStart(i) && StartsLate(Run(stored, front), i);
    forall k | 0 <= k < |front|
      ensures VoidsAt(stored, front, k, i) == VoidsAt(stored, steps, k, i)
      ensures VoidsAt(stored, steps, k, i) ==> i < |Run(stored, front).ops|
    {
      assert front[..k] == steps[..k];
      OpsGrow(stored, front, k);
    }
    hide VoidsAt, StartsLate;
  }

  lemma {:induction false} OpsGrow(stored: Option<seq<Record>>, steps: seq<Step>, k: nat)
    requires k <= |steps|
    ensures |Run(stored, steps[..k]).ops| <= |Run(stored, steps).ops|
  {
    if k == |steps| {
      assert steps[..k] == steps;
    } else {
      var front := steps[..|steps| - 1];
      OpsGrow(stored, front, k);
      assert front[..k] == steps[..k];
    }
  }

  // ----- one record per message

  predicate OnePerMessage(records: seq<Record>) {
    forall i, j :: 0 <= i < j < |records| ==> records[i].assistantMessageId != records[j].assistantMessageId
  }

  function RecordOf(records: seq<Record>, id: string): Option<Record> {
    var k := FindRecord(records, id);
    if k < 0 then None else Some(records[k])
  }

  lemma {:induction false} PutKeeps(records: seq<Record>, record: Record, id: string)
    ensures OnePerMessage(records) ==> OnePerMessage(Put(records, record))
    ensures RecordOf(Put(records, record), id)
            == if id == record.assistantMessageId then Some(record) else RecordOf(records, id)
  {
    var k, j, after := FindRecord(records, record.assistantMessageId), FindRecord(records, id), Put(records, record);
    assert k < 0 ==> after[|records|] == record;
    assert k >= 0 ==> after[k] == record;
    assert j >= 0 && id != record.assistantMessageId ==> after[j] == records[j];
  }

  // The last upsert for a message among some, if any.
  function LastFor(puts: seq<Record>, id: string): Option<Record> {
    if puts == [] then None
    else if puts[|puts| - 1].assistantMessageId == id then Some(puts[|puts| - 1])
    else LastFor(puts[..|puts| - 1], id)
  }

  lemma {:induction false} PutAllKeeps(records: seq<Record>, puts: seq<Record>, id: string)
    ensures OnePerMessage(records) ==> OnePerMessage(PutAll(records, puts))
    ensures RecordOf(PutAll(records, puts), id) == if LastFor(puts, id).Some? then LastFor(puts, id)
            else RecordOf(records, id)
  {
    if puts != [] {
      var front, last := puts[..|puts| - 1], puts[|puts| - 1];
      PutAllKeeps(records, front, id);
      PutKeeps(PutAll(records, front), last, id);
    }
  }

  // One record per message: the one written last since the last delete, else the one that was left.
  lemma {:induction false} LatestRecordIsKept(stored: Option<seq<Record>>, steps: seq<Step>, d: nat, id: string)
    requires Quiescent(Run(stored, steps)) && LastDelete(Run(stored, steps), d)
    ensures var s := Run(stored, steps); var written := WrittenFrom(s, d, |s.ops|);
            && (OnePerMessage(stored.GetOr([])) ==> OnePerMessage(s.file.GetOr([])))
            && RecordOf(s.file.GetOr([]), id)
               == if LastFor(written, id).Some? then LastFor(written, id) else RecordOf(Left(stored, s, d), id)
  {
    var s := Run(stored, steps);
    QuiescentFile(stored, steps, d);
    PutAllKeeps(Left(stored, s, d), WrittenFrom(s, d, |s.ops|), id);
    hide PutAll, WrittenFrom, Put, LastFor, RecordOf, OnePerMessage, Quiescent, LastDelete, Left, Run;
    if OnePerMessage(stored.GetOr([])) {
      LeftOnePerMessage(stored, s, d);
    }
  }

  lemma {:induction false} LeftOnePerMessage(stored: Option<seq<Record>>, s: Store, d: nat)
    requires OnePerMessage(stored.GetOr([])) && d <= |s.ops| == |s.states|
    ensures OnePerMessage(Left(stored, s, d))
  {
    if d > 0 {
      StaysOnePerMessage(stored, s, d - 1);
    }
  }

  lemma {:induction false} StaysOnePerMessage(stored: Option<seq<Record>>, s: Store, n: nat)
    requires OnePerMessage(stored.GetOr([])) && n <= |s.ops| == |s.states|
    ensures OnePerMessage(FileAfter(stored, s, n).GetOr([]))
  {
    if n > 0 {
      StaysOnePerMessage(stored, s, n - 1);
      hide OnePerMessage;
      var op := s.ops[n - 1];
      if op.Upsert? {
        PutKeeps(FileAfter(stored, s, n - 1).GetOr([]), op.record, "");
      }
    }
  }

  // The file holds the records written since the last delete and no others if and only if that
  // delete succeeded, or every message with a record in the file it should have removed was written
  // again.
  lemma {:induction false} FileIsExact(stored: Option<seq<Record>>, steps: seq<Step>, d: nat)
    requires Quiescent(Run(stored, steps)) && d > 0 && LastDelete(Run(stored, steps), d)
    ensures var s := Run(stored, steps); var written := WrittenFrom(s, d, |s.ops|);
            (forall id :: RecordOf(s.file.GetOr([]), id) == LastFor(written, id))
            <==> s.states[d - 1] == Removed
                 || forall r :: r in FileAfter(stored, s, d - 1).GetOr([])
                     ==> LastFor(written, r.assistantMessageId).Some?
  {
    var s := Run(stored, steps);
    var written, left := WrittenFrom(s, d, |s.ops|), Left(stored, s, d);
    forall id
      ensures RecordOf(s.file.GetOr([]), id) == LastFor(written, id)
              <==> LastFor(written, id).Some? || RecordOf(left, id).None?
    {
      LatestRecordIsKept(stored, steps, d, id);
    }
    forall r | r in left
      ensures RecordOf(left, r.assistantMessageId).Some?
    {
      var k :| 0 <= k < |left| && left[k] == r;
    }
  }

  // A delete that fails leaves what it should have removed, and an upsert queued before it is lost
  // all the same.
  lemma {:induction false} FailedDeleteKeepsFile(record: Record, queued: Record)
    ensures var s := Run(Some([record]), [DoUpsert(queued), DoDelete, DoStart(0), DoStart(1), DoRemove(1, false)]);
            && Quiescent(s) && |s.ops| == 2 && s.ops[0].Upsert? && s.ops[0].record == queued && s.ops[1].Delete?
            && s.states == [Skipped, RemoveFailed] && s.file == Some([record])
  {
    var stored := Some([record]);
    var steps := [DoUpsert(queued), DoDelete, DoStart(0), DoStart(1), DoRemove(1, false)];
    var s2 := IssueDelete(IssueUpsert(Store([], [], None, None, stored), queued));
    var s5 := s2.(states := [Skipped, RemoveFailed]);
    assert s2.states == [Queued, Queued] && Next(s2, DoStart(0)) == s2.(states := [Skipped, Queued]);
    assert Next(s2.(states := [Skipped, Queued]), DoStart(1)) == s2.(states := [Skipped, Removing]);
    assert Next(s2.(states := [Skipped, Removing]), DoRemove(1, false)) == s5;
    assert Run(stored, steps[..0]) == Store([], [], None, None, stored);
    assert steps[..5] == steps && Quiescent(s5);
    hide Run;
    RunStep(stored, steps, 0);
    RunStep(stored, steps, 1);
    assert Run(stored, steps[..2]) == s2;
    hide Next;
    RunStep(stored, steps, 2);
    RunStep(stored, steps, 3);
    RunStep(stored, steps, 4);
  }

  lemma {:induction false} RunStep(stored: Option<seq<Record>>, steps: seq<Step>, k: nat)
    requires k < |steps|
    ensures Run(stored, steps[..k + 1]) == Next(Run(stored, steps[..k]), steps[k])
  {
    assert steps[..k + 1][..k] == steps[..k];
  }
}
