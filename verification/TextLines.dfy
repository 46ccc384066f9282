/**
 Splitting a text at a separator and joining it again, as `String.split("\n")` and
 `Array.join("\n")` do.  The socket framing and the bash preview both rest on it.
 */
module TextLines {

  // Always at least one piece: the text after the last separator, possibly empty.
  function Split<T(==)>(s: seq<T>, nl: T): (r: seq<seq<T>>)
    ensures |r| >= 1
  {
    if s == [] then [[]]
    else
      var r := Split(s[..|s| - 1], nl);
      if s[|s| - 1] == nl then r + [[]]
      else r[..|r| - 1] + [r[|r| - 1] + [s[|s| - 1]]]
  }

  function Join<T>(lines: seq<seq<T>>, nl: T): seq<T> {
    if |lines| == 0 then []
    else if |lines| == 1 then lines[0]
    else lines[0] + [nl] + Join(lines[1..], nl)
  }

  function Reverse<T>(s: seq<T>): (r: seq<T>)
    ensures |r| == |s|
  {
    if s == [] then [] else [s[|s| - 1]] + Reverse(s[..|s| - 1])
  }

  function Flatten<T>(parts: seq<seq<T>>): seq<T> {
    if parts == [] then [] else parts[0] + Flatten(parts[1..])
  }

  // One more character: a new piece, or one character on the last piece.
  function Grow<T(==)>(pieces: seq<seq<T>>, c: T, nl: T): (r: seq<seq<T>>)
    requires pieces != []
  {
    if c == nl then pieces + [[]] else pieces[..|pieces| - 1] + [pieces[|pieces| - 1] + [c]]
  }

  lemma {:induction false} SplitSnoc<T>(s: seq<T>, c: T, nl: T)
    ensures Split(s + [c], nl) == Grow(Split(s, nl), c, nl)
  {
    assert (s + [c])[..|s + [c]| - 1] == s;
  }

  lemma {:induction false} SplitAtSeparator<T>(a: seq<T>, b: seq<T>, nl: T)
    ensures Split(a + [nl] + b, nl) == Split(a, nl) + Split(b, nl)
  {
    if b == [] {
      assert a + [nl] + b == a + [nl];
      SplitSnoc(a, nl, nl);
    } else {
      var front, c := b[..|b| - 1], b[|b| - 1];
      assert a + [nl] + b == (a + [nl] + front) + [c] && b == front + [c];
      SplitAtSeparator(a, front, nl);
      SplitSnoc(a + [nl] + front, c, nl);
      SplitSnoc(front, c, nl);
      GrowLast(Split(a, nl), Split(front, nl), c, nl);
    }
  }

  lemma {:induction false} GrowLast<T>(l: seq<seq<T>>, r: seq<seq<T>>, c: T, nl: T)
    requires r != []
    ensures Grow(l + r, c, nl) == l + Grow(r, c, nl)
  {
    assert (l + r)[..|l + r| - 1] == l + r[..|r| - 1];
  }

  lemma {:induction false} SplitPlain<T>(s: seq<T>, nl: T)
    requires nl !in s
    ensures Split(s, nl) == [s]
  {
    if s != [] {
      assert forall x :: x in s[..|s| - 1] ==> x in s;
      SplitPlain(s[..|s| - 1], nl);
      assert s[..|s| - 1] + [s[|s| - 1]] == s;
    }
  }

  lemma {:induction false} JoinSnoc<T>(lines: seq<seq<T>>, last: seq<T>, nl: T)
    requires lines != []
    ensures Join(lines + [last], nl) == Join(lines, nl) + [nl] + last
  {
    if |lines| == 1 {
      assert (lines + [last])[1..] == [last];
    } else {
      JoinSnoc(lines[1..], last, nl);
      assert (lines + [last])[1..] == lines[1..] + [last];
    }
  }

  lemma {:induction false} JoinGrow<T>(pieces: seq<seq<T>>, c: T, nl: T)
    requires pieces != []
    ensures Join(Grow(pieces, c, nl), nl) == Join(pieces, nl) + [c]
  {
    if c == nl {
      JoinSnoc(pieces, [], nl);
    } else {
      var front, last := pieces[..|pieces| - 1], pieces[|pieces| - 1];
      assert pieces == front + [last];
      if front != [] {
        JoinSnoc(front, last, nl);
        JoinSnoc(front, last + [c], nl);
        assert Join(front, nl) + [nl] + (last + [c]) == Join(front, nl) + [nl] + last + [c];
      }
    }
  }

  // Joining the pieces gives the text back, and no piece holds the separator.
  lemma {:induction false} SplitJoin<T>(s: seq<T>, nl: T)
    ensures Join(Split(s, nl), nl) == s
    ensures forall i :: 0 <= i < |Split(s, nl)| ==> nl !in Split(s, nl)[i]
  {
    if s != [] {
      var p, c := s[..|s| - 1], s[|s| - 1];
      assert s == p + [c];
      SplitJoin(p, nl);
      SplitSnoc(p, c, nl);
      JoinGrow(Split(p, nl), c, nl);
    }
  }

  // The pieces are the only separator-free list that joins to the text.
  lemma {:induction false} JoinSplit<T>(lines: seq<seq<T>>, nl: T)
    requires lines != []
    requires forall i :: 0 <= i < |lines| ==> nl !in lines[i]
    ensures Split(Join(lines, nl), nl) == lines
  {
    SplitPlain(lines[0], nl);
    if |lines| > 1 {
      JoinSplit(lines[1..], nl);
      SplitAtSeparator(lines[0], Join(lines[1..], nl), nl);
      assert lines == [lines[0]] + lines[1..];
    }
  }

  lemma {:induction false} ReverseSnoc<T>(s: seq<T>, x: T)
    ensures Reverse(s + [x]) == [x] + Reverse(s)
  {
    assert (s + [x])[..|s + [x]| - 1] == s;
  }

  lemma {:induction false} FlattenConcat<T>(a: seq<seq<T>>, b: seq<seq<T>>)
    ensures Flatten(a + b) == Flatten(a) + Flatten(b)
  {
    if a == [] {
      assert a + b == b;
    } else {
      FlattenConcat(a[1..], b);
      assert (a + b)[1..] == a[1..] + b;
    }
  }
}
