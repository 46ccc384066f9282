/** The process-wide model catalog cache: one refresh at a time, invalidated by generation. */
module CatalogCache {
  import opened Wrappers

  // A published catalog: what was read, when, and by which refresh.
  datatype Snap = Snap(catalog: nat, fetchedAt: int, refresh: nat)

  datatype Cache = Cache(snapshot: Option<Snap>, lastGood: Option<Snap>, inFlight: Option<nat>, generation: nat)

  const EMPTY := Cache(None, None, None, 0)

  // The synchronous part of a load: an answer from the cache, or a refresh to wait for.
  datatype Load = Cached(snap: Snap) | Awaiting(refresh: nat)

  datatype Reply = Answer(snap: Snap, fallback: bool) | Exhausted | Again(refresh: nat)

  function ReadSnapshot(c: Cache, now: int, maxAge: int): Option<Snap> {
    if c.snapshot.Some? && now - c.snapshot.value.fetchedAt <= maxAge then c.snapshot else None
  }

  // Join the refresh in flight, or start the one named `next`.
  function OnLoad(c: Cache, now: int, maxAge: int, next: nat): (Cache, Load) {
    var cached := ReadSnapshot(c, now, maxAge);
    if cached.Some? then (c, Cached(cached.value))
    else if c.inFlight.Some? then (c, Awaiting(c.inFlight.value))
    else (c.(inFlight := Some(next)), Awaiting(next))
  }

  // A successful refresh: published, unless an invalidation landed since it started.
  function OnSettle(c: Cache, refresh: nat, startedAt: nat, catalog: nat, now: int): (Cache, Option<Snap>) {
    var next, idle := Snap(catalog, now, refresh), c.(inFlight := None);
    if c.generation != startedAt then (idle, None)
    else (idle.(snapshot := Some(next), lastGood := Some(next)), Some(next))
  }

  function OnReject(c: Cache): Cache {
    c.(inFlight := None)
  }

  function OnInvalidate(c: Cache): Cache {
    c.(snapshot := None, generation := c.generation + 1)
  }

  // A caller whose refresh delivered a snapshot, or was discarded.
  function OnResume(c: Cache, settled: Option<Snap>, attemptsRemaining: nat, now: int, maxAge: int, next: nat)
    : (Cache, Reply)
  {
    if settled.Some? then (c, Answer(settled.value, false))
    else if attemptsRemaining == 0 then
      (c, if c.lastGood.Some? then Answer(c.lastGood.value, true) else Exhausted)
    else
      var (after, load) := OnLoad(c, now, maxAge, next);
      (after, match load case Cached(snap) => Answer(snap, false) case Awaiting(r) => Again(r))
  }

  // ----- the shared state object

  class CacheState {
    var snapshot: Option<Snap>
    var lastGood: Option<Snap>
    var inFlight: Option<nat>
    var generation: nat

    ghost function Value(): Cache
      reads this
    {
      Cache(snapshot, lastGood, inFlight, generation)
    }

    constructor ()
      ensures Value() == EMPTY
    {
      snapshot, lastGood, inFlight, generation := None, None, None, 0;
    }

    method ReadModelCatalogSnapshot(now: int, maxAge: int) returns (cached: Option<Snap>)
      ensures cached == ReadSnapshot(Value(), now, maxAge)
    {
      if snapshot.None? { return None; }
      cached := if now - snapshot.value.fetchedAt <= maxAge then snapshot else None;
    }

    method LoadModelCatalog(now: int, maxAge: int, next: nat) returns (load: Load)
      modifies this`inFlight
      ensures (Value(), load) == OnLoad(old(Value()), now, maxAge, next)
    {
      var cached := ReadModelCatalogSnapshot(now, maxAge);
      if cached.Some? { return Cached(cached.value); }
      if inFlight.None? {
        inFlight := Some(next);
      }
      load := Awaiting(inFlight.value);
    }

    method RefreshSettled(refresh: nat, startedAt: nat, catalog: nat, now: int) returns (settled: Option<Snap>)
      modifies this
      ensures (Value(), settled) == OnSettle(old(Value()), refresh, startedAt, catalog, now)
    {
      settled := None;
      if generation == startedAt {
        settled := Some(Snap(catalog, now, refresh));
        snapshot, lastGood := settled, settled;
      }
      inFlight := None;
    }

    method RefreshRejected()
      modifies this`inFlight
      ensures Value() == OnReject(old(Value()))
    {
      inFlight := None;
    }

    method Resume(settled: Option<Snap>, attemptsRemaining: nat, now: int, maxAge: int, next: nat)
      returns (reply: Reply)
      modifies this`inFlight
      ensures (Value(), reply) == OnResume(old(Value()), settled, attemptsRemaining, now, maxAge, next)
    {
      if settled.Some? { return Answer(settled.value, false); }
      if attemptsRemaining == 0 {
        return if lastGood.Some? then Answer(lastGood.value, true) else Exhausted;
      }
      var load := LoadModelCatalog(now, maxAge, next);
      match load
      case Cached(snap) => reply := Answer(snap, false);
      case Awaiting(r) => reply := Again(r);
    }

    method InvalidateModelCatalog()
      modifies this`snapshot, this`generation
      ensures Value() == OnInvalidate(old(Value()))
    {
      snapshot := None;
      generation := generation + 1;
    }
  }

  // ----- callers, refreshes and invalidations in any interleaving

  datatype Outcome = Running | Landed(snap: Snap) | Discarded | Failed

  datatype Refresh = Refresh(startedAt: nat, outcome: Outcome)

  // What became of a call. A refused call got the error of its refresh.
  datatype Status = Waiting(refresh: nat) | Returned(snap: Snap, fallback: bool) | Refused | GaveUp

  // `begun` is the generation when the call was made; `awaited` the refreshes it waited for.
  datatype Call = Call(begun: nat, awaited: seq<nat>, status: Status)

  datatype System = System(cache: Cache, refreshes: seq<Refresh>, calls: seq<Call>)

  const START := System(EMPTY, [], [])

  const ATTEMPTS := 1

  datatype Step =
    | Begin(now: int, maxAge: int)
    | BeginThrowing(now: int, maxAge: int)
    | Settle(refresh: nat, catalog: nat, now: int)
    | Reject(refresh: nat)
    | Continue(call: nat, now: int, maxAge: int)
    | ContinueThrowing(call: nat, now: int, maxAge: int)
    | Invalidate

  // The refreshes after a load: one more when the load started it.
  function Started(s: System, refresh: nat): seq<Refresh> {
    if refresh == |s.refreshes| then s.refreshes + [Refresh(s.cache.generation, Running)] else s.refreshes
  }

  function BeginCall(s: System, now: int, maxAge: int): System {
    var (cache, load) := OnLoad(s.cache, now, maxAge, |s.refreshes|);
    match load
    case Cached(snap) => s.(calls := s.calls + [Call(s.cache.generation, [], Returned(snap, false))])
    case Awaiting(r) => System(cache, Started(s, r), s.calls + [Call(s.cache.generation, [r], Waiting(r))])
  }

  // A refresh that throws before it returns a promise runs its cleanup before it is recorded as
  // being in flight.
  function Thrown(s: System, after: System): System {
    if |after.refreshes| == |s.refreshes| then after
    else after.(refreshes := s.refreshes + [Refresh(s.cache.generation, Failed)])
  }

  predicate IsRunning(s: System, refresh: nat) {
    refresh < |s.refreshes| && s.refreshes[refresh].outcome == Running
  }

  function WithOutcome(s: System, refresh: nat, outcome: Outcome): seq<Refresh>
    requires refresh < |s.refreshes|
  {
    s.refreshes[refresh := s.refreshes[refresh].(outcome := outcome)]
  }

  function SettleRefresh(s: System, refresh: nat, catalog: nat, now: int): System
    requires IsRunning(s, refresh)
  {
    var (cache, settled) := OnSettle(s.cache, refresh, s.refreshes[refresh].startedAt, catalog, now);
    s.(cache := cache, refreshes := WithOutcome(s, refresh, if settled.Some? then Landed(settled.value) else Discarded))
  }

  predicate CanContinue(s: System, call: nat) {
    call < |s.calls| && s.calls[call].status.Waiting? && s.calls[call].status.refresh < |s.refreshes|
    && s.refreshes[s.calls[call].status.refresh].outcome != Running && 1 <= |s.calls[call].awaited| <= ATTEMPTS + 1
  }

  function ContinueCall(s: System, call: nat, now: int, maxAge: int): System
    requires CanContinue(s, call)
  {
    var c := s.calls[call];
    var outcome := s.refreshes[c.status.refresh].outcome;
    if outcome.Failed? then s.(calls := s.calls[call := c.(status := Refused)])
    else
      var settled := if outcome.Landed? then Some(outcome.snap) else None;
      var (cache, reply) := OnResume(s.cache, settled, ATTEMPTS + 1 - |c.awaited|, now, maxAge, |s.refreshes|);
      match reply
      case Answer(snap, fallback) => s.(calls := s.calls[call := c.(status := Returned(snap, fallback))])
      case Exhausted => s.(calls := s.calls[call := c.(status := GaveUp)])
      case Again(r) =>
        System(cache, Started(s, r), s.calls[call := c.(awaited := c.awaited + [r], status := Waiting(r))])
  }

  function Next(s: System, step: Step): System {
    match step
    case Begin(now, maxAge) => BeginCall(s, now, maxAge)
    case BeginThrowing(now, maxAge) => Thrown(s, BeginCall(s, now, maxAge))
    case Settle(refresh, catalog, now) => if IsRunning(s, refresh) then SettleRefresh(s, refresh, catalog, now) else s
    case Reject(refresh) =>
      if IsRunning(s, refresh) then System(OnReject(s.cache), WithOutcome(s, refresh, Failed), s.calls) else s
    case Continue(call, now, maxAge) => if CanContinue(s, call) then ContinueCall(s, call, now, maxAge) else s
    case ContinueThrowing(call, now, maxAge) =>
      if CanContinue(s, call) then Thrown(s, ContinueCall(s, call, now, maxAge)) else s
    case Invalidate => s.(cache := OnInvalidate(s.cache))
  }

  function Run(steps: seq<Step>): System {
    if steps == [] then START else Next(Run(steps[..|steps| - 1]), steps[|steps| - 1])
  }

  // ----- what every reachable state satisfies

  predicate LandedAs(refreshes: seq<Refresh>, snap: Snap) {
    snap.refresh < |refreshes| && refreshes[snap.refresh].outcome == Landed(snap)
  }

  // Only the recorded refresh is running, unless it threw; a published snapshot is of the current
  // generation.
  predicate CacheSound(cache: Cache, refreshes: seq<Refresh>) {
    && (forall r :: 0 <= r < |refreshes| && refreshes[r].outcome == Running ==> cache.inFlight == Some(r))
    && (cache.inFlight.Some? ==>
          cache.inFlight.value < |refreshes| && refreshes[cache.inFlight.value].outcome in {Running, Failed})
    && (forall r :: 0 <= r < |refreshes| ==> refreshes[r].startedAt <= cache.generation)
    && (cache.snapshot.Some? ==> LandedAs(refreshes, cache.snapshot.value)
                                 && refreshes[cache.snapshot.value.refresh].startedAt == cache.generation)
    && (cache.lastGood.Some? ==> LandedAs(refreshes, cache.lastGood.value))
  }

  predicate AllDiscarded(refreshes: seq<Refresh>, awaited: seq<nat>) {
    forall k :: 0 <= k < |awaited| ==> awaited[k] < |refreshes| && refreshes[awaited[k]].outcome == Discarded
  }

  // A call waits for at most two refreshes, the earlier one discarded. What it returns was read by
  // a refresh that started no earlier than the call, unless two refreshes were discarded under it.
  predicate CallSound(refreshes: seq<Refresh>, call: Call) {
    match call.status
    case Waiting(r) =>
      && 1 <= |call.awaited| <= ATTEMPTS + 1 && call.awaited[|call.awaited| - 1] == r && r < |refreshes|
      && AllDiscarded(refreshes, call.awaited[..|call.awaited| - 1])
      && (refreshes[r].outcome.Landed? ==>
            refreshes[r].startedAt >= call.begun && refreshes[r].outcome.snap.refresh == r)
    case Returned(snap, fallback) =>
      && |call.awaited| <= ATTEMPTS + 1 && LandedAs(refreshes, snap)
      && (if fallback then |call.awaited| == ATTEMPTS + 1 && AllDiscarded(refreshes, call.awaited)
          else refreshes[snap.refresh].startedAt >= call.begun)
    case Refused =>
      && 1 <= |call.awaited| <= ATTEMPTS + 1 && call.awaited[|call.awaited| - 1] < |refreshes|
      && refreshes[call.awaited[|call.awaited| - 1]].outcome == Failed
    case GaveUp => |call.awaited| == ATTEMPTS + 1 && AllDiscarded(refreshes, call.awaited)
  }

  predicate Sound(s: System) {
    && CacheSound(s.cache, s.refreshes)
    && (forall c :: 0 <= c < |s.calls| ==> s.calls[c].begun <= s.cache.generation && CallSound(s.refreshes, s.calls[c]))
  }

  // Outcomes that are decided stay; new refreshes are added at the end.
  predicate Grows(before: seq<Refresh>, after: seq<Refresh>) {
    |before| <= |after|
    && forall r :: 0 <= r < |before| ==>
         after[r].startedAt == before[r].startedAt && (before[r].outcome != Running ==> after[r] == before[r])
  }

  lemma {:induction false} StartKeeps(s: System, refresh: nat, cache: Cache)
    requires CacheSound(s.cache, s.refreshes)
    requires cache == if s.cache.inFlight.Some? then s.cache else s.cache.(inFlight := Some(|s.refreshes|))
    requires Some(refresh) == cache.inFlight
    ensures CacheSound(cache, Started(s, refresh)) && Grows(s.refreshes, Started(s, refresh))
    ensures refresh < |Started(s, refresh)| && Started(s, refresh)[refresh].outcome in {Running, Failed}
  {
  }

  lemma {:induction false} SettleKeeps(s: System, refresh: nat, catalog: nat, now: int)
    requires Sound(s) && IsRunning(s, refresh)
    ensures Sound(SettleRefresh(s, refresh, catalog, now))
  {
    var after := SettleRefresh(s, refresh, catalog, now);
    assert Grows(s.refreshes, after.refreshes);
  }

  lemma {:induction false} RejectKeeps(s: System, refresh: nat)
    requires Sound(s) && IsRunning(s, refresh)
    ensures Sound(System(OnReject(s.cache), WithOutcome(s, refresh, Failed), s.calls))
  {
  }

  lemma {:induction false} InvalidateKeeps(s: System)
    requires Sound(s)
    ensures Sound(s.(cache := OnInvalidate(s.cache)))
  {
  }

  // The call that is resumed, once its refresh is decided.
  lemma {:induction false} ResumedSound(s: System, call: nat, now: int, maxAge: int)
    requires Sound(s) && CanContinue(s, call)
    ensures var after := ContinueCall(s, call, now, maxAge);
            && CacheSound(after.cache, after.refreshes) && Grows(s.refreshes, after.refreshes)
            && after.cache.generation == s.cache.generation
            && (forall r :: 0 <= r < |s.refreshes| ==> after.refreshes[r] == s.refreshes[r])
  {
    var c := s.calls[call];
    var outcome := s.refreshes[c.status.refresh].outcome;
    if !outcome.Failed? {
      var settled := if outcome.Landed? then Some(outcome.snap) else None;
      var (cache, reply) := OnResume(s.cache, settled, ATTEMPTS + 1 - |c.awaited|, now, maxAge, |s.refreshes|);
      if reply.Again? {
        StartKeeps(s, reply.refresh, cache);
      }
    }
  }

  lemma {:induction false} ResumedCall(s: System, call: nat, now: int, maxAge: int)
    requires Sound(s) && CanContinue(s, call)
    ensures var after := ContinueCall(s, call, now, maxAge);
            CallSound(after.refreshes, after.calls[call]) && after.calls[call].begun == s.calls[call].begun
  {
    var c := s.calls[call];
    var outcome := s.refreshes[c.status.refresh].outcome;
    assert CallSound(s.refreshes, c);
    assert c.awaited == c.awaited[..|c.awaited| - 1] + [c.status.refresh];
    if outcome.Discarded? {
      assert AllDiscarded(s.refreshes, c.awaited);
      var (cache, reply) := OnResume(s.cache, None, ATTEMPTS + 1 - |c.awaited|, now, maxAge, |s.refreshes|);
      if reply.Again? {
        StartKeeps(s, reply.refresh, cache);
        var all := c.awaited + [reply.refresh];
        assert all[..|all| - 1] == c.awaited;
      }
    }
  }

  lemma {:induction false} ContinueKeeps(s: System, call: nat, now: int, maxAge: int)
    requires Sound(s) && CanContinue(s, call)
    ensures Sound(ContinueCall(s, call, now, maxAge))
  {
    var after := ContinueCall(s, call, now, maxAge);
    ResumedSound(s, call, now, maxAge);
    ResumedCall(s, call, now, maxAge);
  }

  lemma {:induction false} BeginKeeps(s: System, now: int, maxAge: int)
    requires Sound(s)
    ensures Sound(BeginCall(s, now, maxAge))
  {
    var (cache, load) := OnLoad(s.cache, now, maxAge, |s.refreshes|);
    if load.Awaiting? {
      StartKeeps(s, load.refresh, cache);
    }
  }

  // A refresh that was just started fails instead.
  lemma {:induction false} ThrownKeeps(s: System, after: System)
    requires Sound(after) && |s.refreshes| <= |after.refreshes| <= |s.refreshes| + 1
    requires after.refreshes[..|s.refreshes|] == s.refreshes
    requires |after.refreshes| > |s.refreshes| ==>
               after.refreshes[|s.refreshes|] == Refresh(s.cache.generation, Running)
    ensures Sound(Thrown(s, after))
  {
    if |after.refreshes| > |s.refreshes| {
      var failed := Thrown(s, after);
      assert forall r :: 0 <= r < |s.refreshes| ==> failed.refreshes[r] == after.refreshes[r];
      assert Grows(after.refreshes, failed.refreshes);
    }
  }

  lemma {:induction false} StepKeeps(s: System, step: Step)
    requires Sound(s)
    ensures Sound(Next(s, step))
  {
    match step
    case Begin(now, maxAge) => BeginKeeps(s, now, maxAge);
    case BeginThrowing(now, maxAge) =>
      BeginKeeps(s, now, maxAge);
      ThrownKeeps(s, BeginCall(s, now, maxAge));
    case Settle(refresh, catalog, now) =>
      if IsRunning(s, refresh) { SettleKeeps(s, refresh, catalog, now); }
    case Reject(refresh) =>
      if IsRunning(s, refresh) { RejectKeeps(s, refresh); }
    case Continue(call, now, maxAge) =>
      if CanContinue(s, call) { ContinueKeeps(s, call, now, maxAge); }
    case ContinueThrowing(call, now, maxAge) =>
      if CanContinue(s, call) {
        ContinueKeeps(s, call, now, maxAge);
        ThrownKeeps(s, ContinueCall(s, call, now, maxAge));
      }
    case Invalidate => InvalidateKeeps(s);
  }

  lemma {:induction false} RunsAreSound(steps: seq<Step>)
    ensures Sound(Run(steps))
  {
    if steps != [] {
      RunsAreSound(steps[..|steps| - 1]);
      StepKeeps(Run(steps[..|steps| - 1]), steps[|steps| - 1]);
    }
  }

  // In any interleaving, throwing refreshes included: at most one refresh runs at a time, a call
  // waits for at most two, and what a call returns was read by a refresh that started after every
  // invalidation before the call, or is the fallback after two discarded refreshes.
  lemma {:induction false} CallsReturnFreshCatalogs(steps: seq<Step>, c: nat)
    requires c < |Run(steps).calls|
    ensures var s := Run(steps); var call := s.calls[c];
            && |call.awaited| <= 2
            && (call.status.Returned? && !call.status.fallback ==>
                  && LandedAs(s.refreshes, call.status.snap)
                  && s.refreshes[call.status.snap.refresh].startedAt >= call.begun)
            && (call.status.Returned? && call.status.fallback
                ==> |call.awaited| == 2 && AllDiscarded(s.refreshes, call.awaited))
            && (call.status.GaveUp? ==> |call.awaited| == 2 && AllDiscarded(s.refreshes, call.awaited))
    ensures forall r, q :: IsRunning(Run(steps), r) && IsRunning(Run(steps), q) ==> r == q
  {
    RunsAreSound(steps);
    assert CallSound(Run(steps).refreshes, Run(steps).calls[c]);
  }

  // ----- a refresh that throws before it returns

  // The slot holds a refresh that is no longer running.
  predicate Stuck(s: System) {
    s.cache.inFlight.Some? && s.cache.inFlight.value < |s.refreshes|
    && forall r :: 0 <= r < |s.refreshes| ==> s.refreshes[r].outcome != Running
  }

  // Then no refresh ever starts again, whatever is called; only what is cached is answered.
  lemma {:induction false} StuckForever(s: System, step: Step)
    requires Stuck(s)
    ensures Stuck(Next(s, step)) && Next(s, step).refreshes == s.refreshes
    ensures Next(s, step).cache.inFlight == s.cache.inFlight
  {
    match step
    case Begin(now, maxAge) =>
    case BeginThrowing(now, maxAge) =>
    case Continue(call, now, maxAge) =>
    case ContinueThrowing(call, now, maxAge) =>
    case _ =>
  }

  // The slot is left holding a dead refresh exactly when it already did, or a load that had to start
  // one threw: at the call, or at its retry.
  lemma {:induction false} ThrowingRefreshSticks(s: System, now: int, maxAge: int)
    requires Sound(s)
    ensures Stuck(Next(s, BeginThrowing(now, maxAge)))
            <==> Stuck(s) || (s.cache.inFlight.None? && ReadSnapshot(s.cache, now, maxAge).None?)
  {
    var after := Next(s, BeginThrowing(now, maxAge));
    if s.cache.inFlight.Some? || ReadSnapshot(s.cache, now, maxAge).Some? {
      assert after.refreshes == s.refreshes && after.cache.inFlight == s.cache.inFlight;
    }
  }

  lemma {:induction false} ThrowingRetrySticks(s: System, call: nat, now: int, maxAge: int)
    requires Sound(s) && CanContinue(s, call)
    ensures var c := s.calls[call];
            Stuck(Next(s, ContinueThrowing(call, now, maxAge)))
            <==> Stuck(s) || (s.refreshes[c.status.refresh].outcome == Discarded && |c.awaited| <= ATTEMPTS
                              && s.cache.inFlight.None? && ReadSnapshot(s.cache, now, maxAge).None?)
  {
    var c := s.calls[call];
    var after := Next(s, ContinueThrowing(call, now, maxAge));
    var retries := s.refreshes[c.status.refresh].outcome == Discarded && |c.awaited| <= ATTEMPTS;
    if !retries || s.cache.inFlight.Some? || ReadSnapshot(s.cache, now, maxAge).Some? {
      assert after.refreshes == s.refreshes && after.cache.inFlight == s.cache.inFlight;
    }
  }

  // ----- what is answered at once

  function Invalidations(steps: seq<Step>): nat {
    if steps == [] then 0
    else Invalidations(steps[..|steps| - 1]) + (if steps[|steps| - 1].Invalidate? then 1 else 0)
  }

  // The step lets a refresh land: it was running, and nothing was invalidated since it started.
  ghost predicate Lands(steps: seq<Step>, step: Step) {
    && step.Settle? && IsRunning(Run(steps), step.refresh)
    && Run(steps).refreshes[step.refresh].startedAt == Invalidations(steps)
  }

  // The newest refresh that landed, of those since the last invalidation or of all.
  ghost function Newest(steps: seq<Step>, all: bool): Option<Snap> {
    if steps == [] then None
    else
      var front, last := steps[..|steps| - 1], steps[|steps| - 1];
      if Lands(front, last) then Some(Snap(last.catalog, last.now, last.refresh))
      else if last.Invalidate? && !all then None
      else Newest(front, all)
  }

  lemma {:induction false} SnapshotIsNewest(steps: seq<Step>)
    ensures var c := Run(steps).cache;
            && c.generation == Invalidations(steps)
            && c.snapshot == Newest(steps, false) && c.lastGood == Newest(steps, true)
  {
    if steps != [] {
      var front, last := steps[..|steps| - 1], steps[|steps| - 1];
      SnapshotIsNewest(front);
      CacheMoves(Run(front), last);
      hide Next, ReadSnapshot, IsRunning;
    }
  }

  // Only a refresh that settles and an invalidation change what is published.
  lemma {:induction false} CacheMoves(s: System, step: Step)
    ensures var c, after := s.cache, Next(s, step).cache;
            && after.generation == c.generation + (if step.Invalidate? then 1 else 0)
            && if step.Settle? && IsRunning(s, step.refresh) && s.refreshes[step.refresh].startedAt == c.generation
               then after.snapshot == after.lastGood == Some(Snap(step.catalog, step.now, step.refresh))
               else after.lastGood == c.lastGood && after.snapshot == if step.Invalidate? then None else c.snapshot
  {
    hide ReadSnapshot;
  }

  // Over every run: a call is answered at once, by the newest refresh that landed since the last
  // invalidation, if and only if that is no older than asked; otherwise it waits, and a refresh is
  // started exactly when none is in flight.
  lemma {:induction false} AnsweredAtOnce(steps: seq<Step>, now: int, maxAge: int)
    ensures var s := Run(steps);
            var after := Run(steps + [Begin(now, maxAge)]);
            var cached := Newest(steps, false);
            |after.calls| == |s.calls| + 1 &&
            var call := after.calls[|s.calls|];
            && call.begun == Invalidations(steps)
            && if cached.Some? && now - cached.value.fetchedAt <= maxAge
               then call.status == Returned(cached.value, false) && call.awaited == [] && after.refreshes == s.refreshes
               else call.status.Waiting?
                    && |after.refreshes| == |s.refreshes| + (if s.cache.inFlight.Some? then 0 else 1)
  {
    var s := Run(steps);
    SnapshotIsNewest(steps);
    RunsAreSound(steps);
    assert (steps + [Begin(now, maxAge)])[..|steps|] == steps;
  }

  // Over every run: a call whose second refresh was discarded falls back to the newest refresh that
  // ever landed, and gives up only if none did.
  lemma {:induction false} FallsBack(steps: seq<Step>, call: nat, now: int, maxAge: int)
    requires CanContinue(Run(steps), call)
    ensures var s := Run(steps); var c := s.calls[call];
            var status := Run(steps + [Continue(call, now, maxAge)]).calls[call].status;
            var outcome := s.refreshes[c.status.refresh].outcome;
            var cached, good := Newest(steps, false), Newest(steps, true);
            if outcome.Landed? then status == Returned(outcome.snap, false)
            else if outcome.Failed? then status == Refused
            else if |c.awaited| == 2 then status == (if good.Some? then Returned(good.value, true) else GaveUp)
            else if cached.Some? && now - cached.value.fetchedAt <= maxAge then status == Returned(cached.value, false)
            else status.Waiting?
  {
    SnapshotIsNewest(steps);
    assert (steps + [Continue(call, now, maxAge)])[..|steps|] == steps;
    assert Run(steps + [Continue(call, now, maxAge)]) == Next(Run(steps), Continue(call, now, maxAge));
    hide Run, Newest;
  }
}
