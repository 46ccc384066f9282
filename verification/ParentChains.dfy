/** Chains of parents in a finite graph where every node has at most one parent. */
module ParentChains {
  import opened Wrappers

  // The chain from `id` takes `d` steps to a node without a parent.
  predicate Rooted(parents: map<string, string>, id: string, d: nat)
    decreases d
  {
    if d == 0 then id !in parents else id in parents && Rooted(parents, parents[id], d - 1)
  }

  // The k-th ancestor, if the chain is that long.
  function Up(parents: map<string, string>, id: string, k: nat): Option<string>
    decreases k
  {
    if k == 0 then Some(id) else if id in parents then Up(parents, parents[id], k - 1) else None
  }

  // The chain comes back to a node it has visited.
  ghost predicate EntersCycle(parents: map<string, string>, id: string) {
    exists i: nat, j: nat :: i < j && Up(parents, id, i).Some? && Up(parents, id, i) == Up(parents, id, j)
  }

  ghost predicate HasRoot(parents: map<string, string>, id: string) {
    exists d: nat :: Rooted(parents, id, d)
  }

  lemma {:induction false} RootedOnce(parents: map<string, string>, id: string, d: nat, e: nat)
    requires Rooted(parents, id, d) && Rooted(parents, id, e)
    ensures d == e
    decreases d
  {
    if d > 0 && e > 0 {
      RootedOnce(parents, parents[id], d - 1, e - 1);
    }
  }

  lemma {:induction false} UpRooted(parents: map<string, string>, id: string, d: nat, k: nat)
    requires Rooted(parents, id, d)
    ensures Up(parents, id, k).Some? <==> k <= d
    ensures k <= d ==> Rooted(parents, Up(parents, id, k).value, d - k)
    decreases k
  {
    if k > 0 && d > 0 {
      UpRooted(parents, parents[id], d - 1, k - 1);
    }
  }

  // A chain that has not ended has gone through nodes with a parent only.
  lemma {:induction false} UpOrRooted(parents: map<string, string>, id: string, k: nat)
    requires !HasRoot(parents, id)
    ensures Up(parents, id, k).Some? && Up(parents, id, k).value in parents
    decreases k
  {
    if k == 0 {
      assert !Rooted(parents, id, 0);
    } else {
      UpOrRooted(parents, id, 0);
      assert !HasRoot(parents, parents[id]) by {
        forall d: nat
          ensures !Rooted(parents, parents[id], d)
        {
          assert !Rooted(parents, id, d + 1);
        }
      }
      UpOrRooted(parents, parents[id], k - 1);
    }
  }

  predicate NoDuplicates(s: seq<string>) {
    forall i, j :: 0 <= i < j < |s| ==> s[i] != s[j]
  }

  lemma {:induction false} NoDuplicatesBound(s: seq<string>, pool: set<string>)
    requires NoDuplicates(s) && forall i :: 0 <= i < |s| ==> s[i] in pool
    ensures |s| <= |pool|
  {
    if s != [] {
      var last := s[|s| - 1];
      NoDuplicatesBound(s[..|s| - 1], pool - {last});
    }
  }

  // A chain ends at a root exactly when it does not come back to itself.
  lemma {:induction false} RootOrCycle(parents: map<string, string>, id: string)
    ensures HasRoot(parents, id) <==> !EntersCycle(parents, id)
  {
    if HasRoot(parents, id) {
      var d: nat :| Rooted(parents, id, d);
      forall i: nat, j: nat | i < j && Up(parents, id, i).Some?
        ensures Up(parents, id, i) != Up(parents, id, j)
      {
        UpRooted(parents, id, d, i);
        UpRooted(parents, id, d, j);
        if Up(parents, id, i) == Up(parents, id, j) {
          RootedOnce(parents, Up(parents, id, i).value, d - i, d - j);
        }
      }
    } else {
      var n := |parents.Keys|;
      forall k: nat
        ensures Up(parents, id, k).Some? && Up(parents, id, k).value in parents.Keys
      {
        UpOrRooted(parents, id, k);
      }
      var chain := seq(n + 1, k requires 0 <= k => Up(parents, id, k).value);
      if NoDuplicates(chain) {
        NoDuplicatesBound(chain, parents.Keys);
      }
      var i, j :| 0 <= i < j < |chain| && chain[i] == chain[j];
      assert Up(parents, id, i) == Up(parents, id, j);
    }
  }

  // A chain without repeats visits every node at most once, so it is no longer than the table.
  lemma {:induction false} DepthBound(parents: map<string, string>, id: string, d: nat)
    requires Rooted(parents, id, d)
    ensures d <= |parents|
  {
    RootOrCycle(parents, id);
    assert HasRoot(parents, id);
    forall k: nat | k < d
      ensures Up(parents, id, k).Some? && Up(parents, id, k).value in parents.Keys
    {
      UpRooted(parents, id, d, k);
    }
    var chain := seq(d, k requires 0 <= k < d => Up(parents, id, k).value);
    forall i, j | 0 <= i < j < d
      ensures chain[i] != chain[j]
    {
      assert Up(parents, id, i) != Up(parents, id, j);
    }
    NoDuplicatesBound(chain, parents.Keys);
  }
}
