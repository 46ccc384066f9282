/** Which message of the transcript an entry of the active branch is shown in. */
module TreePositions {
  import opened Wrappers
  import opened SessionTree

  // ----- the entries that make up the context

  // The last compaction of the branch, or -1.
  function LastCompaction(active: seq<Entry>): (c: int)
    ensures -1 <= c < |active|
    ensures c >= 0 ==> active[c].body.Compaction?
    ensures forall i :: c < i < |active| ==> !active[i].body.Compaction?
  {
    if active == [] then -1
    else if active[|active| - 1].body.Compaction? then |active| - 1
    else LastCompaction(active[..|active| - 1])
  }

  predicate IsDigest(entry: Entry) {
    entry.body.CustomMessage? && entry.body.digest
  }

  // The newest digest message of the branch, or -1.
  function NewestDigest(active: seq<Entry>): (d: int)
    ensures -1 <= d < |active|
    ensures d >= 0 ==> IsDigest(active[d])
    ensures forall i :: d < i < |active| ==> !IsDigest(active[i])
  {
    if active == [] then -1
    else if IsDigest(active[|active| - 1]) then |active| - 1
    else NewestDigest(active[..|active| - 1])
  }

  // The one digest that stays, unless a later compaction already carries its own.
  function KeptDigest(active: seq<Entry>): Option<string> {
    var c, d := LastCompaction(active), NewestDigest(active);
    if d < 0 || (c >= 0 && active[c].body.harnessDigest && d < c) then None else Some(active[d].id)
  }

  predicate IsContext(entry: Entry, keep: Option<string>) {
    match entry.body
    case UserMessage => true
    case AssistantMessage(_) => true
    case ToolResultMessage(_, _) => true
    case CustomRoleMessage(_) => true
    case CustomMessage(digest, _) => !(digest && Some(entry.id) != keep)
    case BranchSummary(summarised) => summarised
    case Compaction(_, _) => false
    case OtherEntry => false
  }

  function Kept(entries: seq<Entry>, keep: Option<string>): seq<Entry> {
    if entries == [] then []
    else
      var last := entries[|entries| - 1];
      Kept(entries[..|entries| - 1], keep) + (if IsContext(last, keep) then [last] else [])
  }

  // The entries from the first kept one on.
  function FromFirst(entries: seq<Entry>, first: Option<string>): seq<Entry> {
    if entries == [] then []
    else if Some(entries[0].id) == first then entries
    else FromFirst(entries[1..], first)
  }

  // The compaction, what it kept of the entries before it, and everything after it.
  function ContextEntries(active: seq<Entry>): seq<Entry> {
    var c, keep := LastCompaction(active), KeptDigest(active);
    if c < 0 then Kept(active, keep)
    else [active[c]] + Kept(FromFirst(active[..c], active[c].body.firstKeptEntryId), keep) + Kept(active[c + 1..], keep)
  }

  lemma {:induction false} FromFirstSnoc(entries: seq<Entry>, entry: Entry, first: Option<string>)
    ensures FromFirst(entries + [entry], first)
            == if FromFirst(entries, first) != [] || Some(entry.id) == first then FromFirst(entries, first) + [entry]
                else []
  {
    if entries == [] {
      assert [] + [entry] == [entry] && [entry][1..] == [];
    } else {
      assert (entries + [entry])[1..] == entries[1..] + [entry];
      FromFirstSnoc(entries[1..], entry, first);
    }
  }

  lemma {:induction false} KeepStep(done: seq<Entry>, entry: Entry, first: Option<string>, keep: Option<string>)
    ensures var found := FromFirst(done, first) != [] || Some(entry.id) == first;
            && (FromFirst(done + [entry], first) != [] <==> found)
            && Kept(FromFirst(done + [entry], first), keep)
               == Kept(FromFirst(done, first), keep) + if found && IsContext(entry, keep) then [entry] else []
  {
    FromFirstSnoc(done, entry, first);
  }

  method KeepAll(entries: seq<Entry>, before: seq<Entry>, keep: Option<string>) returns (context: seq<Entry>)
    ensures context == before + Kept(entries, keep)
  {
    context := before;
    ghost var done: seq<Entry> := [];
    for i := 0 to |entries|
      invariant done == entries[..i] && context == before + Kept(done, keep)
    {
      assert (done + [entries[i]])[..i] == done;
      done := done + [entries[i]];
      if IsContext(entries[i], keep) {
        context := context + [entries[i]];
      }
    }
    assert done == entries;
  }

  method KeepFromFirst(entries: seq<Entry>, first: Option<string>, before: seq<Entry>, keep: Option<string>)
    returns (context: seq<Entry>)
    ensures context == before + Kept(FromFirst(entries, first), keep)
  {
    context := before;
    var foundFirstKept := false;
    ghost var done: seq<Entry> := [];
    for i := 0 to |entries|
      invariant done == entries[..i] && (foundFirstKept <==> FromFirst(done, first) != [])
      invariant context == before + Kept(FromFirst(done, first), keep)
    {
      KeepStep(done, entries[i], first, keep);
      assert (done + [entries[i]])[..i] == done;
      done := done + [entries[i]];
      if Some(entries[i].id) == first {
        foundFirstKept := true;
      }
      if foundFirstKept && IsContext(entries[i], keep) {
        context := context + [entries[i]];
      }
    }
    assert done == entries;
  }

  method FindLastCompaction(active: seq<Entry>) returns (compactionIdx: int)
    ensures compactionIdx == LastCompaction(active)
  {
    compactionIdx := -1;
    for i := 0 to |active|
      invariant -1 <= compactionIdx < i
      invariant compactionIdx >= 0 ==> active[compactionIdx].body.Compaction?
      invariant forall k :: compactionIdx < k < i ==> !active[k].body.Compaction?
    {
      if active[i].body.Compaction? {
        compactionIdx := i;
      }
    }
  }

  method FindNewestDigest(active: seq<Entry>) returns (newestDigestIdx: int)
    ensures newestDigestIdx == NewestDigest(active)
  {
    newestDigestIdx := |active| - 1;
    while newestDigestIdx >= 0
      invariant -1 <= newestDigestIdx < |active|
      invariant forall k :: newestDigestIdx < k < |active| ==> !IsDigest(active[k])
    {
      if IsDigest(active[newestDigestIdx]) { break; }
      newestDigestIdx := newestDigestIdx - 1;
    }
  }

  method CollectContext(active: seq<Entry>) returns (context: seq<Entry>)
    ensures context == ContextEntries(active)
  {
    var compactionIdx := FindLastCompaction(active);
    var newestDigestIdx := FindNewestDigest(active);
    var outranked := compactionIdx >= 0 && active[compactionIdx].body.harnessDigest
                     && (newestDigestIdx == -1 || newestDigestIdx < compactionIdx);
    var keep := if outranked || newestDigestIdx < 0 then None else Some(active[newestDigestIdx].id);
    if compactionIdx >= 0 {
      var kept := KeepFromFirst(active[..compactionIdx], active[compactionIdx].body.firstKeptEntryId,
                                [active[compactionIdx]], keep);
      context := KeepAll(active[compactionIdx + 1..], kept, keep);
    } else {
      context := KeepAll(active, [], keep);
      assert [] + Kept(active, keep) == Kept(active, keep);
    }
  }

  lemma {:induction false} KeptAreEntries(entries: seq<Entry>, keep: Option<string>)
    ensures forall e :: e in Kept(entries, keep) ==> e in entries && IsContext(e, keep)
    ensures DistinctIds(entries) ==> DistinctIds(Kept(entries, keep))
  {
    if entries != [] {
      var front, last := entries[..|entries| - 1], entries[|entries| - 1];
      KeptAreEntries(front, keep);
      assert forall e :: e in front ==> e in entries;
      assert forall i :: 0 <= i < |Kept(front, keep)| ==> Kept(front, keep)[i] in Kept(front, keep);
    }
  }

  lemma {:induction false} FromFirstIsSuffix(entries: seq<Entry>, first: Option<string>)
    ensures forall e :: e in FromFirst(entries, first) ==> e in entries
    ensures DistinctIds(entries) ==> DistinctIds(FromFirst(entries, first))
  {
    if entries != [] && Some(entries[0].id) != first {
      FromFirstIsSuffix(entries[1..], first);
      assert forall i :: 1 <= i < |entries| ==> entries[1..][i - 1] == entries[i];
    }
  }

  lemma {:induction false} KeptFrom(entries: seq<Entry>, first: Option<string>, keep: Option<string>)
    ensures forall e :: e in Kept(FromFirst(entries, first), keep) ==> e in entries
    ensures DistinctIds(entries) ==> DistinctIds(Kept(FromFirst(entries, first), keep))
  {
    FromFirstIsSuffix(entries, first);
    KeptAreEntries(FromFirst(entries, first), keep);
  }

  // ----- which entries of the branch belong to the context

  ghost predicate IsLastCompaction(active: seq<Entry>, c: int) {
    && 0 <= c < |active| && active[c].body.Compaction?
    && forall i :: c < i < |active| ==> !active[i].body.Compaction?
  }

  ghost predicate IsNewestDigest(active: seq<Entry>, d: int) {
    && 0 <= d < |active| && active[d].body.CustomMessage? && active[d].body.digest
    && forall i :: d < i < |active| && active[i].body.CustomMessage? ==> !active[i].body.digest
  }

  // The digest of this id is the newest one, and no later compaction carries its own.
  ghost predicate DigestStays(active: seq<Entry>, id: string) {
    exists d :: IsNewestDigest(active, d) && active[d].id == id && !Outranked(active, d)
  }

  ghost predicate Outranked(active: seq<Entry>, d: int) {
    exists c :: IsLastCompaction(active, c) && active[c].body.harnessDigest && d < c
  }

  // Messages, custom messages but old digests, and branch summaries that say something.
  ghost predicate IsMessage(active: seq<Entry>, entry: Entry) {
    match entry.body
    case CustomMessage(digest, _) => digest ==> DigestStays(active, entry.id)
    case BranchSummary(summarised) => summarised
    case Compaction(_, _) => false
    case OtherEntry => false
    case _ => true
  }

  // Entries after the last compaction, and before it those from the first one with the kept id on.
  ghost predicate Belongs(active: seq<Entry>, i: nat) {
    && i < |active| && IsMessage(active, active[i])
    && forall c :: IsLastCompaction(active, c) && i < c ==> KeptBefore(active, c, i)
  }

  ghost predicate KeptBefore(active: seq<Entry>, c: nat, i: nat) {
    && i < c < |active| && active[c].body.Compaction?
    && exists f :: 0 <= f <= i && active[c].body.firstKeptEntryId == Some(active[f].id)
  }

  // The entries at these places.
  function Picked(active: seq<Entry>, places: seq<nat>): seq<Entry> {
    if places == [] then []
    else
      var last := places[|places| - 1];
      Picked(active, places[..|places| - 1]) + (if last < |active| then [active[last]] else [])
  }

  lemma {:induction false} PickedSnoc(active: seq<Entry>, places: seq<nat>, last: nat)
    ensures Picked(active, places + [last]) == Picked(active, places) + (if last < |active| then [active[last]] else [])
  {
    assert (places + [last])[..|places|] == places;
  }

  lemma {:induction false} PickedConcat(active: seq<Entry>, a: seq<nat>, b: seq<nat>)
    ensures Picked(active, a + b) == Picked(active, a) + Picked(active, b)
  {
    if b == [] {
      assert a + b == a && Picked(active, a) + [] == Picked(active, a);
    } else {
      var front, last := b[..|b| - 1], b[|b| - 1];
      PickedConcat(active, a, front);
      PickedSnoc(active, a + front, last);
      PickedSnoc(active, front, last);
      assert a + front + [last] == a + b && front + [last] == b;
    }
  }

  ghost predicate Ascends(places: seq<nat>, lo: nat, hi: nat) {
    && (forall k :: 0 <= k < |places| ==> lo <= places[k] < hi)
    && forall j, k :: 0 <= j < k < |places| ==> places[j] < places[k]
  }

  lemma {:induction false} KeptRange(active: seq<Entry>, lo: nat, hi: nat, keep: Option<string>)
    requires lo < hi <= |active|
    ensures Kept(active[lo..hi], keep)
            == Kept(active[lo..hi - 1], keep) + (if IsContext(active[hi - 1], keep) then [active[hi - 1]] else [])
  {
    hide IsContext;
    var piece := active[lo..hi];
    assert piece[..|piece| - 1] == active[lo..hi - 1] && piece[|piece| - 1] == active[hi - 1];
  }

  function WithPlace(places: seq<nat>, place: nat, more: bool): seq<nat> {
    if more then places + [place] else places
  }

  lemma {:induction false} KeptStep(active: seq<Entry>, lo: nat, hi: nat, keep: Option<string>, places: seq<nat>)
    requires lo < hi <= |active| && Kept(active[lo..hi - 1], keep) == Picked(active, places)
    ensures Kept(active[lo..hi], keep)
            == Picked(active, WithPlace(places, hi - 1, IsContext(active[hi - 1], keep)))
  {
    hide Kept, Picked, IsContext;
    var sofar := Picked(active, places);
    KeptRange(active, lo, hi, keep);
    PickedSnoc(active, places, hi - 1);
    if !IsContext(active[hi - 1], keep) {
      assert sofar + [] == sofar;
    }
  }

  lemma {:induction false} PlacesStep(places: seq<nat>, lo: nat, hi: nat, more: bool)
    requires lo < hi && Ascends(places, lo, hi - 1)
    ensures Ascends(WithPlace(places, hi - 1, more), lo, hi)
    ensures forall i: nat :: i in WithPlace(places, hi - 1, more) <==> i in places || (more && i == hi - 1)
  {}

  lemma {:induction false} EmptyStretch(active: seq<Entry>, lo: nat, keep: Option<string>)
    requires lo <= |active|
    ensures Kept(active[lo..lo], keep) == Picked(active, []) && Ascends([], lo, lo)
  {
    assert active[lo..lo] == [];
  }

  // The context entries of a stretch of the branch.
  lemma {:induction false} KeptPlaces(active: seq<Entry>, lo: nat, hi: nat, keep: Option<string>)
    returns (places: seq<nat>)
    requires lo <= hi <= |active|
    ensures Ascends(places, lo, hi)
    ensures forall i: nat :: i in places <==> lo <= i < hi && IsContext(active[i], keep)
    ensures Kept(active[lo..hi], keep) == Picked(active, places)
  {
    hide Kept, IsContext, Picked, Ascends, WithPlace;
    if lo == hi {
      EmptyStretch(active, lo, keep);
      places := [];
    } else {
      var front := KeptPlaces(active, lo, hi - 1, keep);
      places := WithPlace(front, hi - 1, IsContext(active[hi - 1], keep));
      KeptStep(active, lo, hi, keep, front);
      PlacesStep(front, lo, hi, IsContext(active[hi - 1], keep));
      forall i: nat
        ensures i in places <==> lo <= i < hi && IsContext(active[i], keep)
      {
        assert i in front <==> lo <= i < hi - 1 && IsContext(active[i], keep);
      }
    }
  }

  // Where the kept part of a stretch begins.
  lemma {:induction false} FirstPlace(active: seq<Entry>, lo: nat, c: nat, first: Option<string>) returns (f: nat)
    requires lo <= c <= |active|
    ensures lo <= f <= c && FromFirst(active[lo..c], first) == active[f..c]
    ensures forall i :: lo <= i < f ==> Some(active[i].id) != first
    ensures f < c ==> Some(active[f].id) == first
    decreases c - lo
  {
    if lo < c && Some(active[lo].id) != first {
      assert active[lo..c][1..] == active[lo + 1..c];
      f := FirstPlace(active, lo + 1, c, first);
    } else {
      f := lo;
    }
  }

  lemma {:induction false} ContextIsMessage(active: seq<Entry>, entry: Entry)
    ensures IsContext(entry, KeptDigest(active)) <==> IsMessage(active, entry)
  {
    var c, d := LastCompaction(active), NewestDigest(active);
    assert forall k :: IsLastCompaction(active, k) <==> c >= 0 && k == c;
    assert forall k :: IsNewestDigest(active, k) <==> d >= 0 && k == d;
    assert Outranked(active, d) <==> c >= 0 && active[c].body.harnessDigest && d < c;
    hide LastCompaction, NewestDigest, IsLastCompaction, IsNewestDigest, Outranked;
  }

  lemma {:induction false} LastIs(active: seq<Entry>)
    ensures forall k :: IsLastCompaction(active, k) <==> LastCompaction(active) >= 0 && k == LastCompaction(active)
  {}

  lemma {:induction false} WholeBranch(active: seq<Entry>) returns (places: seq<nat>)
    requires LastCompaction(active) < 0
    ensures Ascends(places, 0, |active|) && forall i: nat :: i in places <==> Belongs(active, i)
    ensures ContextEntries(active) == Picked(active, places)
  {
    LastIs(active);
    hide Kept, Picked, IsMessage, LastCompaction, KeptDigest, IsLastCompaction;
    places := MessagePlaces(active, 0, |active|);
    assert active[0..|active|] == active;
  }

  lemma {:induction false} JoinPlaces(active: seq<Entry>, before: seq<nat>, after: seq<nat>, c: nat, f: nat)
    requires f <= c < |active| && Ascends(before, f, c) && Ascends(after, c + 1, |active|)
    requires forall i: nat :: i in before <==> f <= i < c && IsMessage(active, active[i])
    requires forall i: nat :: i in after <==> c < i < |active| && IsMessage(active, active[i])
    ensures Ascends(before + after, 0, |active|)
    ensures forall i: nat :: i in before + after
                             <==> i < |active| && IsMessage(active, active[i]) && (f <= i < c || c < i)
  {
    hide IsMessage;
  }

  lemma {:induction false} MessagePlaces(active: seq<Entry>, lo: nat, hi: nat) returns (places: seq<nat>)
    requires lo <= hi <= |active|
    ensures Ascends(places, lo, hi)
    ensures forall i: nat :: i in places <==> lo <= i < hi && IsMessage(active, active[i])
    ensures Kept(active[lo..hi], KeptDigest(active)) == Picked(active, places)
  {
    places := KeptPlaces(active, lo, hi, KeptDigest(active));
    hide IsContext, IsMessage, KeptDigest, Kept;
    forall i: nat
      ensures i in places <==> lo <= i < hi && IsMessage(active, active[i])
    {
      if i < |active| {
        ContextIsMessage(active, active[i]);
      }
    }
  }

  lemma {:induction false} ContextIs(active: seq<Entry>, c: nat, f: nat)
    requires LastCompaction(active) == c && f <= c
    requires FromFirst(active[0..c], active[c].body.firstKeptEntryId) == active[f..c]
    ensures ContextEntries(active)
            == [active[c]] + Kept(active[f..c], KeptDigest(active)) + Kept(active[c + 1..|active|], KeptDigest(active))
  {
    hide Kept, FromFirst, KeptDigest, LastCompaction;
    assert active[0..c] == active[..c] && active[c + 1..|active|] == active[c + 1..];
  }

  lemma {:induction false} AroundEntries(active: seq<Entry>, c: nat, f: nat, before: seq<nat>, after: seq<nat>)
    requires LastCompaction(active) == c && f <= c
    requires FromFirst(active[0..c], active[c].body.firstKeptEntryId) == active[f..c]
    requires Kept(active[f..c], KeptDigest(active)) == Picked(active, before)
    requires Kept(active[c + 1..|active|], KeptDigest(active)) == Picked(active, after)
    ensures ContextEntries(active) == [active[c]] + Picked(active, before + after)
  {
    ContextIs(active, c, f);
    hide Kept, FromFirst, Picked, LastCompaction, KeptDigest, ContextEntries;
    PickedConcat(active, before, after);
    var b, a := Picked(active, before), Picked(active, after);
    assert [active[c]] + b + a == [active[c]] + (b + a);
  }

  lemma {:induction false} AroundCompaction(active: seq<Entry>, c: nat) returns (places: seq<nat>)
    requires LastCompaction(active) == c
    ensures Ascends(places, 0, |active|) && forall i: nat :: i in places <==> Belongs(active, i)
    ensures ContextEntries(active) == [active[c]] + Picked(active, places)
  {
    LastIs(active);
    hide Kept, FromFirst, Picked, IsContext, IsMessage, LastCompaction, KeptDigest, IsLastCompaction, ContextEntries;
    hide Belongs, Ascends;
    var f := FirstPlace(active, 0, c, active[c].body.firstKeptEntryId);
    var before := MessagePlaces(active, f, c);
    var after := MessagePlaces(active, c + 1, |active|);
    places := before + after;
    AroundEntries(active, c, f, before, after);
    AroundPlaces(active, c, f, before, after);
  }

  lemma {:induction false} AroundPlaces(active: seq<Entry>, c: nat, f: nat, before: seq<nat>, after: seq<nat>)
    requires IsLastCompaction(active, c) && f <= c && Ascends(before, f, c) && Ascends(after, c + 1, |active|)
    requires forall i :: 0 <= i < f ==> Some(active[i].id) != active[c].body.firstKeptEntryId
    requires f < c ==> Some(active[f].id) == active[c].body.firstKeptEntryId
    requires forall i: nat :: i in before <==> f <= i < c && IsMessage(active, active[i])
    requires forall i: nat :: i in after <==> c + 1 <= i < |active| && IsMessage(active, active[i])
    ensures Ascends(before + after, 0, |active|) && forall i: nat :: i in before + after <==> Belongs(active, i)
  {
    BelongsWhere(active, c, f);
    JoinPlaces(active, before, after, c, f);
    hide Belongs, Ascends, IsMessage, IsLastCompaction;
  }

  // The context: the last compaction, if there is one, then in branch order exactly the entries that
  // belong to it.
  lemma {:induction false} ContextIsExact(active: seq<Entry>) returns (head: seq<Entry>, places: seq<nat>)
    ensures Ascends(places, 0, |active|) && forall i: nat :: i in places <==> Belongs(active, i)
    ensures ContextEntries(active) == head + Picked(active, places)
    ensures forall c :: IsLastCompaction(active, c) ==> head == [active[c]]
    ensures (forall c :: !IsLastCompaction(active, c)) ==> head == []
  {
    var c := LastCompaction(active);
    LastIs(active);
    hide Belongs, ContextEntries, LastCompaction;
    if c < 0 {
      head := [];
      places := WholeBranch(active);
      assert [] + Picked(active, places) == Picked(active, places);
    } else {
      head := [active[c]];
      places := AroundCompaction(active, c);
      assert IsLastCompaction(active, c);
    }
  }

  lemma {:induction false} BelongsWhere(active: seq<Entry>, c: nat, f: nat)
    requires IsLastCompaction(active, c) && f <= c
    requires forall i :: 0 <= i < f ==> Some(active[i].id) != active[c].body.firstKeptEntryId
    requires f < c ==> Some(active[f].id) == active[c].body.firstKeptEntryId
    ensures forall i: nat :: Belongs(active, i)
                             <==> i < |active| && IsMessage(active, active[i]) && (f <= i < c || c < i)
  {
    assert forall k :: IsLastCompaction(active, k) ==> k == c;
    forall i: nat
      ensures Belongs(active, i) <==> i < |active| && IsMessage(active, active[i]) && (f <= i < c || c < i)
    {
      assert i < c ==> (KeptBefore(active, c, i) <==> f <= i);
      assert i == c ==> !IsMessage(active, active[i]);
      hide IsMessage, IsLastCompaction, KeptBefore;
    }
  }

  // Different context entries are different entries of the branch.
  lemma {:induction false} ContextIsDistinct(active: seq<Entry>)
    requires DistinctIds(active)
    ensures DistinctIds(ContextEntries(active))
    ensures forall e :: e in ContextEntries(active) ==> e in active
  {
    var c, keep := LastCompaction(active), KeptDigest(active);
    hide Kept, FromFirst, LastCompaction, KeptDigest, IsContext;
    if c < 0 {
      KeptAreEntries(active, keep);
    } else {
      var before := Kept(FromFirst(active[..c], active[c].body.firstKeptEntryId), keep);
      var after := Kept(active[c + 1..], keep);
      KeptFrom(active[..c], active[c].body.firstKeptEntryId, keep);
      KeptAreEntries(active[c + 1..], keep);
      PiecesDistinct(active, c, before, after);
    }
  }

  lemma {:induction false} PiecesDistinct(active: seq<Entry>, c: nat, before: seq<Entry>, after: seq<Entry>)
    requires DistinctIds(active) && c < |active| && DistinctIds(before) && DistinctIds(after)
    requires forall e :: e in before ==> e in active[..c]
    requires forall e :: e in after ==> e in active[c + 1..]
    ensures DistinctIds([active[c]] + before + after)
    ensures forall e :: e in [active[c]] + before + after ==> e in active
  {
    var head := [active[c]];
    forall x, y | x in head && y in before
      ensures x.id != y.id
    {
      assert y in active[..c];
    }
    forall x, y | x in head + before && y in after
      ensures x.id != y.id
    {
      assert x in active[..c] + [active[c]] && y in active[c + 1..];
    }
  }

  // ----- positions

  predicate Hidden(entry: Entry) {
    (entry.body.CustomMessage? && !entry.body.display) || (entry.body.CustomRoleMessage? && !entry.body.display)
  }

  predicate Declares(calls: seq<ToolCall>, id: string) {
    exists i :: 0 <= i < |calls| && calls[i].id == id
  }

  // The last assistant message among the first n that declares a tool call.
  function Owner(context: seq<Entry>, n: nat, callId: string): (r: Option<nat>)
    requires n <= |context|
    ensures r.Some? ==>
                r.value < n && context[r.value].body.AssistantMessage? && Declares(context[r.value].body.calls, callId)
    ensures forall i :: (if r.Some? then r.value + 1 else 0) <= i < n ==>
              !(context[i].body.AssistantMessage? && Declares(context[i].body.calls, callId))
  {
    if n == 0 then None
    else if context[n - 1].body.AssistantMessage? && Declares(context[n - 1].body.calls, callId) then Some(n - 1)
    else Owner(context, n - 1, callId)
  }

  // A result is shown in the message that declared its call, everything else in its own.
  function PositionAt(context: seq<Entry>, i: nat): Option<nat>
    requires i < |context|
  {
    var entry := context[i];
    if Hidden(entry) then None
    else if entry.body.ToolResultMessage? && entry.body.toolCallId != "" then
      Some(Owner(context, i, entry.body.toolCallId).GetOr(i))
    else Some(i)
  }

  function Lookup(positions: map<string, nat>, id: string): Option<nat> {
    if id in positions then Some(positions[id]) else None
  }

  function Positions(context: seq<Entry>, n: nat): map<string, nat>
    requires n <= |context|
  {
    if n == 0 then map[]
    else
      var before, position := Positions(context, n - 1), PositionAt(context, n - 1);
      if position.Some? then before[context[n - 1].id := position.value] else before
  }

  ghost predicate OwnersKnown(context: seq<Entry>, n: nat, owners: map<string, nat>)
    requires n <= |context|
  {
    forall id :: id != "" ==> Owner(context, n, id) == Lookup(owners, id)
  }

  method NoteCalls(before: map<string, nat>, calls: seq<ToolCall>, index: nat) returns (owners: map<string, nat>)
    ensures forall id :: id != "" ==> Lookup(owners, id) == if Declares(calls, id) then Some(index)
            else Lookup(before, id)
  {
    owners := before;
    ghost var done: seq<ToolCall> := [];
    for i := 0 to |calls|
      invariant done == calls[..i]
      invariant forall id :: id != "" ==> Lookup(owners, id) == if Declares(done, id) then Some(index)
                else Lookup(before, id)
    {
      DeclaresSnoc(done, calls[i]);
      assert (done + [calls[i]])[..i] == done;
      done := done + [calls[i]];
      if calls[i].id != "" {
        owners := owners[calls[i].id := index];
      }
    }
    assert done == calls;
  }

  lemma {:induction false} DeclaresSnoc(calls: seq<ToolCall>, call: ToolCall)
    ensures forall id :: Declares(calls + [call], id) <==> Declares(calls, id) || call.id == id
  {
    var all := calls + [call];
    assert all[|calls|] == call;
    assert forall i :: 0 <= i < |calls| ==> all[i] == calls[i];
  }

  method PlaceEntries(context: seq<Entry>) returns (positions: map<string, nat>)
    ensures positions == Positions(context, |context|)
  {
    positions := map[];
    var owners: map<string, nat> := map[];
    for i := 0 to |context|
      invariant positions == Positions(context, i) && OwnersKnown(context, i, owners)
    {
      var entry := context[i];
      if !Hidden(entry) {
        match entry.body
        case AssistantMessage(calls) =>
          positions := positions[entry.id := i];
          owners := NoteCalls(owners, calls, i);
        case ToolResultMessage(toolCallId, _) =>
          var attachedIndex := if toolCallId != "" && toolCallId in owners then owners[toolCallId] else i;
          assert toolCallId != "" ==> Owner(context, i, toolCallId) == Lookup(owners, toolCallId);
          positions := positions[entry.id := attachedIndex];
        case _ =>
          positions := positions[entry.id := i];
      }
    }
  }

  method BuildMessageIndexByEntryId(active: seq<Entry>) returns (positions: map<string, nat>)
    ensures positions == Positions(ContextEntries(active), |ContextEntries(active)|)
  {
    if active == [] { return map[]; }
    var context := CollectContext(active);
    positions := PlaceEntries(context);
  }

  // With distinct entries, every entry is found at its own position and hidden ones at none.
  lemma {:induction false} PositionsAt(context: seq<Entry>, n: nat, i: nat)
    requires DistinctIds(context) && n <= |context| && i < |context|
    ensures Lookup(Positions(context, n), context[i].id) == if i < n then PositionAt(context, i) else None
  {
    if n > 0 {
      PositionsAt(context, n - 1, i);
      assert i != n - 1 ==> context[i].id != context[n - 1].id;
    }
  }
}
