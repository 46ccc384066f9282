/** Whether a session descends from one of the given roots, over parent data that may be cyclic. */
module SessionLineage {

  // What a summary says about its parents; an empty string is a missing value.
  datatype Summary = Summary(parentSessionId: string, parentActiveSessionId: string, parentSessionPath: string)

  // The roots, and where parent identifiers and paths lead. `resolve` makes a path absolute.
  datatype Sessions = Sessions(
    rootIdentifiers: set<string>,
    rootPaths: set<string>,
    byIdentifier: map<string, Summary>,
    byPath: map<string, Summary>,
    resolve: string -> string)

  function NonEmpty(value: string): seq<string> {
    if value == "" then [] else [value]
  }

  function ParentIdentifiers(summary: Summary): seq<string> {
    NonEmpty(summary.parentSessionId) + NonEmpty(summary.parentActiveSessionId)
  }

  function ParentPaths(e: Sessions, summary: Summary): seq<string> {
    if summary.parentSessionPath == "" then [] else [e.resolve(summary.parentSessionPath)]
  }

  // A parent that is a root itself.
  predicate NamesRoot(e: Sessions, summary: Summary) {
    (exists k :: 0 <= k < |ParentIdentifiers(summary)| && ParentIdentifiers(summary)[k] in e.rootIdentifiers)
    || (exists k :: 0 <= k < |ParentPaths(e, summary)| && ParentPaths(e, summary)[k] in e.rootPaths)
  }

  // A parent that is a known session.
  predicate IsParent(e: Sessions, summary: Summary, parent: Summary) {
    (exists k :: 0 <= k < |ParentIdentifiers(summary)|
                 && ParentIdentifiers(summary)[k] in e.byIdentifier
                     && e.byIdentifier[ParentIdentifiers(summary)[k]] == parent)
    || (exists k :: 0 <= k < |ParentPaths(e, summary)|
                    && ParentPaths(e, summary)[k] in e.byPath && e.byPath[ParentPaths(e, summary)[k]] == parent)
  }

  // A chain of parents, from the candidate to its last session.
  predicate Chain(e: Sessions, candidate: Summary, chain: seq<Summary>) {
    chain != [] && chain[0] == candidate && forall i :: 0 <= i < |chain| - 1 ==> IsParent(e, chain[i], chain[i + 1])
  }

  ghost predicate Descends(e: Sessions, candidate: Summary) {
    exists chain :: Chain(e, candidate, chain) && NamesRoot(e, chain[|chain| - 1])
  }

  ghost predicate Ancestor(e: Sessions, candidate: Summary, summary: Summary) {
    exists chain :: Chain(e, candidate, chain) && chain[|chain| - 1] == summary
  }

  lemma {:induction false} AncestorParent(e: Sessions, candidate: Summary, summary: Summary, parent: Summary)
    requires Ancestor(e, candidate, summary) && IsParent(e, summary, parent)
    ensures Ancestor(e, candidate, parent)
  {
    var chain :| Chain(e, candidate, chain) && chain[|chain| - 1] == summary;
    var longer := chain + [parent];
    forall i | 0 <= i < |longer| - 1
      ensures IsParent(e, longer[i], longer[i + 1])
    {
      assert longer[i] == chain[i];
      assert i < |chain| - 1 ==> longer[i + 1] == chain[i + 1];
    }
    assert Chain(e, candidate, longer) && longer[|longer| - 1] == parent;
  }

  // Sessions that can ever be looked at.
  function Known(e: Sessions, candidate: Summary): set<Summary> {
    {candidate} + e.byIdentifier.Values + e.byPath.Values
  }

  // Everything seen is an ancestor; what was visited names no root, and its parents are seen.
  ghost predicate Searching(e: Sessions, candidate: Summary, visited: set<Summary>, pending: seq<Summary>) {
    && visited <= Known(e, candidate)
    && (candidate in visited || candidate in pending)
    && (forall s :: s in pending ==> s in Known(e, candidate) && Ancestor(e, candidate, s))
    && (forall s :: s in visited ==> !NamesRoot(e, s))
    && (forall s, p :: s in visited && IsParent(e, s, p) ==> p in visited || p in pending)
  }

  lemma {:induction false} SearchIsComplete(e: Sessions, candidate: Summary, visited: set<Summary>, chain: seq<Summary>)
    requires Searching(e, candidate, visited, []) && Chain(e, candidate, chain)
    ensures chain[|chain| - 1] in visited
  {
    if |chain| > 1 {
      var front := chain[..|chain| - 1];
      assert forall i :: 0 <= i < |front| ==> front[i] == chain[i];
      SearchIsComplete(e, candidate, visited, front);
      assert IsParent(e, chain[|chain| - 2], chain[|chain| - 1]);
    }
  }

  // Queue the unvisited sessions that some keys lead to; report a key that is a root.
  method ExpandKeys(keys: seq<string>, roots: set<string>, sessions: map<string, Summary>, visited: set<Summary>,
                    before: seq<Summary>) returns (root: bool, pending: seq<Summary>)
    ensures root <==> exists k :: 0 <= k < |keys| && keys[k] in roots
    ensures forall s :: s in before ==> s in pending
    ensures forall s :: s in pending ==>
                s in before || exists k :: 0 <= k < |keys| && keys[k] in sessions && sessions[keys[k]] == s
    ensures !root ==> forall k :: 0 <= k < |keys| && keys[k] in sessions ==>
                        sessions[keys[k]] in visited || sessions[keys[k]] in pending
  {
    pending := before;
    for i := 0 to |keys|
      invariant forall k :: 0 <= k < i ==> keys[k] !in roots
      invariant forall s :: s in before ==> s in pending
      invariant forall s :: s in pending ==>
                  s in before || exists k :: 0 <= k < i && keys[k] in sessions && sessions[keys[k]] == s
      invariant forall k :: 0 <= k < i && keys[k] in sessions ==>
                  sessions[keys[k]] in visited || sessions[keys[k]] in pending
    {
      if keys[i] in roots { return true, pending; }
      if keys[i] in sessions && sessions[keys[i]] !in visited {
        pending := pending + [sessions[keys[i]]];
      }
    }
    root := false;
  }

  // Visiting the session at the top of the stack.
  lemma {:induction false} VisitKeeps(e: Sessions, candidate: Summary, visited: set<Summary>, rest: seq<Summary>,
                                      current: Summary, pending: seq<Summary>)
    requires Searching(e, candidate, visited, rest + [current]) && !NamesRoot(e, current)
    requires forall s :: s in rest ==> s in pending
    requires forall s :: s in pending ==> s in rest || IsParent(e, current, s)
    requires forall p :: IsParent(e, current, p) ==> p in visited + {current} || p in pending
    ensures Searching(e, candidate, visited + {current}, pending)
  {
    forall s | s in pending
      ensures s in Known(e, candidate) && Ancestor(e, candidate, s)
    {
      if s in rest {
        assert s in rest + [current];
      } else {
        assert current in rest + [current];
        AncestorParent(e, candidate, current, s);
      }
    }
  }

  lemma {:induction false} SkipKeeps(e: Sessions, candidate: Summary, visited: set<Summary>, rest: seq<Summary>,
                                     current: Summary)
    requires Searching(e, candidate, visited, rest + [current]) && current in visited
    ensures Searching(e, candidate, visited, rest)
  {
    assert forall s :: s in rest ==> s in rest + [current];
    assert forall s :: s in rest + [current] ==> s in rest || s == current;
  }

  lemma {:induction false} Found(e: Sessions, candidate: Summary, current: Summary)
    requires Ancestor(e, candidate, current) && NamesRoot(e, current)
    ensures Descends(e, candidate)
  {
  }

  lemma {:induction false} NotFound(e: Sessions, candidate: Summary, visited: set<Summary>)
    requires Searching(e, candidate, visited, [])
    ensures !Descends(e, candidate)
  {
    forall chain | Chain(e, candidate, chain)
      ensures !NamesRoot(e, chain[|chain| - 1])
    {
      SearchIsComplete(e, candidate, visited, chain);
    }
  }

  // Visit one session: whether it names a root, and the stack with its unvisited parents.
  method Visit(e: Sessions, current: Summary, visited: set<Summary>, rest: seq<Summary>)
    returns (root: bool, pending: seq<Summary>)
    requires current in visited
    ensures root <==> NamesRoot(e, current)
    ensures forall s :: s in rest ==> s in pending
    ensures forall s :: s in pending ==> s in rest || IsParent(e, current, s)
    ensures !root ==> forall p :: IsParent(e, current, p) ==> p in visited || p in pending
  {
    var identified;
    root, identified := ExpandKeys(ParentIdentifiers(current), e.rootIdentifiers, e.byIdentifier, visited, rest);
    if root { return true, identified; }
    root, pending := ExpandKeys(ParentPaths(e, current), e.rootPaths, e.byPath, visited, identified);
  }

  lemma {:induction false} SearchBegins(e: Sessions, candidate: Summary)
    ensures Searching(e, candidate, {}, [candidate])
  {
    assert Chain(e, candidate, [candidate]);
    assert Ancestor(e, candidate, candidate);
  }

  // Terminates on every input, and answers true exactly for descendants of a root.
  method HasSessionLineage(candidate: Summary, e: Sessions) returns (found: bool)
    ensures found <==> Descends(e, candidate)
  {
    var pending := [candidate];
    var visited: set<Summary> := {};
    SearchBegins(e, candidate);
    while pending != []
      invariant Searching(e, candidate, visited, pending)
      decreases Known(e, candidate) - visited, |pending|
    {
      var current, rest := pending[|pending| - 1], pending[..|pending| - 1];
      assert pending == rest + [current];
      if current in visited {
        SkipKeeps(e, candidate, visited, rest, current);
        pending := rest;
      } else {
        var root, extended := Visit(e, current, visited + {current}, rest);
        if root {
          Found(e, candidate, current);
          return true;
        }
        VisitKeeps(e, candidate, visited, rest, current, extended);
        visited := visited + {current};
        pending := extended;
      }
    }
    NotFound(e, candidate, visited);
    found := false;
  }
}
