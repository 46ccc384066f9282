/** Cutting a socket's data chunks into JSONL lines, whatever the chunk boundaries. */
module LineFraming {
  import opened TextLines

  const NEWLINE := '\n'

  class LineBuffer {
    var buffer: string

    constructor ()
      ensures buffer == ""
    {
      buffer := "";
    }

    // Every completed line, in order; the unfinished rest stays.
    method OnData(chunk: string) returns (lines: seq<string>)
      modifies this
      ensures lines + [buffer] == Split(old(buffer) + chunk, NEWLINE)
    {
      hide Split;
      hide IndexOf;
      buffer := buffer + chunk;
      lines := [];
      var newline := IndexOf(buffer, NEWLINE);
      while newline >= 0
        invariant -1 <= newline < |buffer|
        invariant newline >= 0 ==> buffer[newline] == NEWLINE && NEWLINE !in buffer[..newline]
        invariant newline < 0 ==> NEWLINE !in buffer
        invariant lines + Split(buffer, NEWLINE) == Split(old(buffer) + chunk, NEWLINE)
        decreases |buffer|
      {
        var line := buffer[..newline];
        SplitAtSeparator(line, buffer[newline + 1..], NEWLINE);
        SplitPlain(line, NEWLINE);
        assert buffer == line + [NEWLINE] + buffer[newline + 1..];
        buffer := buffer[newline + 1..];
        lines := lines + [line];
        newline := IndexOf(buffer, NEWLINE);
      }
      SplitPlain(buffer, NEWLINE);
    }
  }

  function IndexOfFrom(s: string, c: char, i: nat): (r: int)
    requires i <= |s|
    ensures r == -1 || i <= r < |s|
    ensures r >= 0 ==> s[r] == c && forall j :: i <= j < r ==> s[j] != c
    ensures r < 0 ==> forall j :: i <= j < |s| ==> s[j] != c
    decreases |s| - i
  {
    if i == |s| then -1 else if s[i] == c then i else IndexOfFrom(s, c, i + 1)
  }

  function IndexOf(s: string, c: char): (r: int)
    ensures -1 <= r < |s|
    ensures r >= 0 ==> s[r] == c && c !in s[..r]
    ensures r < 0 ==> c !in s
  {
    IndexOfFrom(s, c, 0)
  }

  // The lines delivered over a run of chunks, and what is left in the buffer.
  datatype Received = Received(lines: seq<string>, buffer: string)

  function Receive(chunks: seq<string>): Received {
    if chunks == [] then Received([], "")
    else
      var before := Receive(chunks[..|chunks| - 1]);
      var pieces := Split(before.buffer + chunks[|chunks| - 1], NEWLINE);
      Received(before.lines + pieces[..|pieces| - 1], pieces[|pieces| - 1])
  }

  // Splitting after more text arrived: only the last piece changes.
  lemma {:induction false} SplitContinues(a: string, b: string)
    ensures var pieces := Split(a, NEWLINE);
            Split(a + b, NEWLINE) == pieces[..|pieces| - 1] + Split(pieces[|pieces| - 1] + b, NEWLINE)
  {
    var pieces := Split(a, NEWLINE);
    var last := pieces[|pieces| - 1];
    SplitJoin(a, NEWLINE);
    if b == "" {
      assert a + b == a && last + b == last;
      SplitPlain(last, NEWLINE);
    } else {
      var front, c := b[..|b| - 1], b[|b| - 1];
      SplitContinues(a, front);
      assert a + b == (a + front) + [c] && last + b == (last + front) + [c];
      SplitSnoc(a + front, c, NEWLINE);
      SplitSnoc(last + front, c, NEWLINE);
      GrowLast(pieces[..|pieces| - 1], Split(last + front, NEWLINE), c, NEWLINE);
    }
  }

  // The chunk boundaries do not matter: the lines are those of the whole text.
  lemma {:induction false} ChunkingDoesNotMatter(chunks: seq<string>)
    ensures Receive(chunks).lines + [Receive(chunks).buffer] == Split(Flatten(chunks), NEWLINE)
  {
    if chunks != [] {
      var front, last := chunks[..|chunks| - 1], chunks[|chunks| - 1];
      ChunkingDoesNotMatter(front);
      assert chunks == front + [last];
      FlattenConcat(front, [last]);
      assert Flatten([last]) == last;
      SplitContinues(Flatten(front), last);
      var pieces := Split(Flatten(front), NEWLINE);
      assert pieces == Receive(front).lines + [Receive(front).buffer];
      assert pieces[..|pieces| - 1] == Receive(front).lines;
    }
  }

  // Frames written one per line are received exactly as written.
  lemma {:induction false} FramesArrive(frames: seq<string>, chunks: seq<string>)
    requires forall i :: 0 <= i < |frames| ==> NEWLINE !in frames[i]
    requires Flatten(chunks) == Join(frames + [""], NEWLINE)
    ensures Receive(chunks) == Received(frames, "")
  {
    ChunkingDoesNotMatter(chunks);
    JoinSplit(frames + [""], NEWLINE);
    var r := Receive(chunks);
    assert r.lines + [r.buffer] == frames + [""];
    assert r.lines == (r.lines + [r.buffer])[..|r.lines|];
    assert frames == (frames + [""])[..|frames|];
  }
}
