/**
 The bounded tail of a user bash command's output (`bashPreviewTail`) and the
 `bash_output` step that keeps it.  A text is its UTF-8 bytes.
 */
module BashPreview {
  import opened TextLines

  newtype byte = x: int | 0 <= x < 256

  const NEWLINE: byte := 10
  const MAX_BYTES := 50 * 1024
  const MAX_LINES := 2_000

  // (b & 0xc0) == 0x80
  predicate IsContinuation(b: byte) {
    b / 64 == 2
  }

  function Max(a: int, b: int): int {
    if a < b then b else a
  }

  // ----- what the preview is: a reference definition that never splits into lines

  function Newlines(s: seq<byte>): nat {
    if s == [] then 0
    else Newlines(s[..|s| - 1]) + (if s[|s| - 1] == NEWLINE then 1 else 0)
  }

  predicate Fits(s: seq<byte>) {
    |s| <= MAX_BYTES && Newlines(s) < MAX_LINES
  }

  predicate LineStart(s: seq<byte>, i: nat)
    requires i <= |s|
  {
    i == 0 || s[i - 1] == NEWLINE
  }

  // The first position from i on that does not sit inside a character.
  function Align(s: seq<byte>, i: nat): (k: nat)
    requires i <= |s|
    ensures i <= k <= |s|
    ensures forall j :: i <= j < k ==> IsContinuation(s[j])
    ensures k < |s| ==> !IsContinuation(s[k])
    decreases |s| - i
  {
    if i < |s| && IsContinuation(s[i]) then Align(s, i + 1) else i
  }

  function Cut(s: seq<byte>): (k: nat)
    ensures k <= |s|
  {
    Max(0, |s| - MAX_BYTES)
  }

  // The earliest line start whose suffix fits; failing that, the byte cut, moved to a character.
  function FirstFit(s: seq<byte>, i: nat): (k: nat)
    requires i <= |s|
    ensures k <= |s|
    decreases |s| - i
  {
    if i == |s| then Align(s, Cut(s))
    else if LineStart(s, i) && Fits(s[i..]) then i
    else FirstFit(s, i + 1)
  }

  function PreviewStart(s: seq<byte>): (k: nat)
    ensures k <= |s|
  {
    FirstFit(s, 0)
  }

  function Preview(s: seq<byte>): seq<byte> {
    s[PreviewStart(s)..]
  }

  // No line start has a suffix that fits, so the preview begins inside a line.
  ghost predicate NothingFits(s: seq<byte>, upTo: nat)
    requires upTo <= |s|
  {
    forall j: nat :: j < upTo && LineStart(s, j) ==> !Fits(s[j..])
  }

  ghost predicate IsWholeStart(s: seq<byte>, k: nat) {
    k < |s| && LineStart(s, k) && Fits(s[k..]) && NothingFits(s, k)
  }

  lemma {:induction false} FirstFitIs(s: seq<byte>, i: nat)
    requires i <= |s| && NothingFits(s, i)
    ensures var k := FirstFit(s, i);
            IsWholeStart(s, k) || (NothingFits(s, |s|) && k == Align(s, Cut(s)))
    decreases |s| - i
  {
    if i < |s| && !(LineStart(s, i) && Fits(s[i..])) {
      FirstFitIs(s, i + 1);
    }
  }

  lemma {:induction false} FirstFitFinds(s: seq<byte>, i: nat, k: nat)
    requires i <= k && IsWholeStart(s, k)
    ensures FirstFit(s, i) == k
    decreases k - i
  {
    if i < k {
      FirstFitFinds(s, i + 1, k);
    }
  }

  // ----- counting newlines

  lemma {:induction false} NewlinesConcat(a: seq<byte>, b: seq<byte>)
    ensures Newlines(a + b) == Newlines(a) + Newlines(b)
  {
    if b == [] {
      assert a + b == a;
    } else {
      NewlinesConcat(a, b[..|b| - 1]);
      assert (a + b)[..|a + b| - 1] == a + b[..|b| - 1];
    }
  }

  lemma {:induction false} NewlinesNone(s: seq<byte>)
    requires NEWLINE !in s
    ensures Newlines(s) == 0
  {
    if s != [] {
      NewlinesNone(s[..|s| - 1]);
    }
  }

  lemma {:induction false} NewlinesBound(s: seq<byte>)
    ensures Newlines(s) <= |s|
  {
    if s != [] {
      NewlinesBound(s[..|s| - 1]);
    }
  }

  // A suffix of a text that fits, fits; so does a prefix.
  lemma {:induction false} FitsPart(a: seq<byte>, b: seq<byte>)
    requires Fits(a + b)
    ensures Fits(a) && Fits(b)
  {
    NewlinesConcat(a, b);
  }

  // The last line start before the end: only the final byte after it can be a newline.
  lemma {:induction false} LastLineStart(s: seq<byte>) returns (j: nat)
    requires s != []
    ensures j < |s| && LineStart(s, j) && NEWLINE !in s[j..|s| - 1] && Newlines(s[j..]) <= 1
  {
    j := |s| - 1;
    while !LineStart(s, j)
      invariant j < |s| && NEWLINE !in s[j..|s| - 1]
      decreases j
    {
      j := j - 1;
      assert s[j..|s| - 1] == [s[j]] + s[j + 1..|s| - 1];
    }
    NewlinesNone(s[j..|s| - 1]);
    assert s[j..][..|s[j..]| - 1] == s[j..|s| - 1];
  }

  // When nothing fits, the text is long and its last MAX_BYTES bytes are one line.
  lemma {:induction false} CutInsideLine(s: seq<byte>)
    requires s != [] && NothingFits(s, |s|)
    ensures |s| > MAX_BYTES && NEWLINE !in s[|s| - MAX_BYTES - 1..|s| - 1]
  {
    var j := LastLineStart(s);
    assert !Fits(s[j..]);
    assert j < |s| - MAX_BYTES;
    assert s[|s| - MAX_BYTES - 1..|s| - 1] == s[j..|s| - 1][|s| - MAX_BYTES - 1 - j..];
  }

  // ----- the method, which works on lines from the last one back

  // The last piece is the text after the last newline; the pieces before it split the rest.
  lemma {:induction false} LastPiece(s: seq<byte>)
    ensures var lines := Split(s, NEWLINE); var start := |s| - |lines[|lines| - 1]|;
            && 0 <= start && s[start..] == lines[|lines| - 1] && NEWLINE !in s[start..]
            && (start == 0 ==> |lines| == 1)
            && (start > 0 ==> s[start - 1] == NEWLINE && lines[..|lines| - 1] == Split(s[..start - 1], NEWLINE))
  {
    if s != [] {
      var p, c := s[..|s| - 1], s[|s| - 1];
      assert s == p + [c];
      SplitSnoc(p, c, NEWLINE);
      if c != NEWLINE {
        LastPiece(p);
        var lines := Split(p, NEWLINE);
        var start := |p| - |lines[|lines| - 1]|;
        assert s[start..] == p[start..] + [c];
        assert start > 0 ==> s[..start - 1] == p[..start - 1];
      }
    }
  }

  lemma {:induction false} AlignIs(s: seq<byte>, i: nat, k: nat)
    requires i <= k <= |s|
    requires forall j :: i <= j < k ==> IsContinuation(s[j])
    requires k < |s| ==> !IsContinuation(s[k])
    ensures Align(s, i) == k
    decreases k - i
  {
    if i < k {
      AlignIs(s, i + 1, k);
    }
  }

  function Separator(selected: seq<seq<byte>>): seq<byte> {
    if selected == [] then [] else [NEWLINE]
  }

  // How far the backward walk has come: `selected` joins to content[kept..].
  ghost predicate Walk(content: seq<byte>, selected: seq<seq<byte>>, kept: nat) {
    && kept <= |content| <= kept + MAX_BYTES
    && |selected| <= MAX_LINES
    && Join(Reverse(selected), NEWLINE) == content[kept..]
    && (if selected == [] then kept == |content|
        else LineStart(content, kept) && Newlines(content[kept..]) + 1 == |selected|)
    && (|selected| == 1 ==> selected[0] == content[kept..])
  }

  // The text whose lines are not selected yet, and the next of these lines, content[start..end].
  ghost predicate NextIs(content: seq<byte>, selected: seq<seq<byte>>, kept: nat, start: nat, end: nat) {
    && start <= end && end + |Separator(selected)| == kept <= |content|
    && NEWLINE !in content[start..end] && LineStart(content, start)
  }

  lemma {:induction false} LineBefore(content: seq<byte>, selected: seq<seq<byte>>, kept: nat, start: nat, end: nat)
    requires Walk(content, selected, kept) && NextIs(content, selected, kept, start, end)
    ensures content[start..] == content[start..end] + Separator(selected) + content[kept..]
    ensures forall j: nat :: j < kept && LineStart(content, j) ==> j <= start
  {
    forall j: nat | start < j < kept
      ensures !LineStart(content, j)
    {
      assert content[j - 1] == content[start..end][j - 1 - start];
    }
  }

  lemma {:induction false} PushLine(selected: seq<seq<byte>>, line: seq<byte>)
    ensures Join(Reverse(selected + [line]), NEWLINE)
            == line + Separator(selected) + Join(Reverse(selected), NEWLINE)
  {
    ReverseSnoc(selected, line);
    assert ([line] + Reverse(selected))[1..] == Reverse(selected);
  }

  // The line fits and is selected.
  lemma {:induction false} WalkStep(content: seq<byte>, selected: seq<seq<byte>>, kept: nat, start: nat, end: nat)
    requires Walk(content, selected, kept) && NextIs(content, selected, kept, start, end)
    requires |selected| < MAX_LINES && |content| - start <= MAX_BYTES
    ensures Walk(content, selected + [content[start..end]], start)
  {
    var line := content[start..end];
    LineBefore(content, selected, kept, start, end);
    PushLine(selected, line);
    NewlinesNone(line);
    NewlinesConcat(line + Separator(selected), content[kept..]);
    NewlinesConcat(line, Separator(selected));
    assert Newlines([NEWLINE]) == 1;
  }

  // Aligning inside the last line is aligning in the text.
  lemma {:induction false} AlignInLine(s: seq<byte>, start: nat, end: nat, i: nat)
    requires start <= end <= |s| && i <= end - start && (end < |s| ==> !IsContinuation(s[end]))
    ensures Align(s, start + i) == start + Align(s[start..end], i)
    decreases end - start - i
  {
    if start + i < end && IsContinuation(s[start + i]) {
      AlignInLine(s, start, end, i + 1);
    }
  }

  // The last line, with its newline if it has one, is too long: the preview starts inside it.
  lemma {:induction false} CutStart(s: seq<byte>, start: nat, end: nat)
    requires start <= end <= |s| <= end + 1 && |s| - start > MAX_BYTES
    requires end < |s| ==> s[end] == NEWLINE
    requires forall j: nat :: j < |s| && LineStart(s, j) ==> j <= start
    ensures start <= Cut(s) <= end
    ensures Preview(s) == s[start..end][Align(s[start..end], Cut(s) - start)..] + s[end..]
  {
    forall j: nat | j < |s| && LineStart(s, j)
      ensures !Fits(s[j..])
    {}
    AlignInLine(s, start, end, Cut(s) - start);
    FirstFitIs(s, 0);
  }

  // What the walk keeps of a line that does not fit.
  function LineTail(line: seq<byte>, room: nat): seq<byte> {
    line[Align(line, if |line| <= room then 0 else |line| - room)..]
  }

  lemma {:induction false} JoinTail(selected: seq<seq<byte>>, tail: seq<byte>)
    requires selected == [] || selected == [[]]
    ensures Join(Reverse(selected + [tail]), NEWLINE) == tail + Separator(selected)
  {
    PushLine(selected, tail);
  }

  // The line does not fit, and nothing but an empty last line is selected: it is cut.
  lemma {:induction false} WalkCut(content: seq<byte>, selected: seq<seq<byte>>, start: nat, end: nat)
    requires selected == [] || selected == [[]]
    requires start <= end <= |content| && content[end..] == Separator(selected)
    requires forall j: nat :: j < |content| && LineStart(content, j) ==> j <= start
    requires |content| - start > MAX_BYTES
    ensures Join(Reverse(selected + [LineTail(content[start..end], MAX_BYTES - |Separator(selected)|)]), NEWLINE)
            == Preview(content)
  {
    assert end < |content| ==> content[end] == content[end..][0];
    CutStart(content, start, end);
    JoinTail(selected, LineTail(content[start..end], MAX_BYTES - |Separator(selected)|));
  }

  // One newline more before the suffix.
  lemma {:induction false} NewlinesBefore(s: seq<byte>, j: nat, k: nat)
    requires j < k <= |s| && s[k - 1] == NEWLINE
    ensures Newlines(s[j..]) > Newlines(s[k..])
  {
    assert s[j..] == s[j..k - 1] + ([NEWLINE] + s[k..]);
    NewlinesConcat([NEWLINE], s[k..]);
    NewlinesConcat(s[j..k - 1], [NEWLINE] + s[k..]);
    assert Newlines([NEWLINE]) == 1;
  }

  // The walk stopped at the start, at the line limit, or at a line too long to add.
  lemma {:induction false} WalkStop(content: seq<byte>, selected: seq<seq<byte>>, kept: nat)
    requires Walk(content, selected, kept) && selected != []
    requires kept > 0 ==>
               (|selected| == MAX_LINES
                || (selected != [[]] && forall j: nat :: j < kept && LineStart(content, j) ==>
                      |content| - j > MAX_BYTES))
    ensures Join(Reverse(selected), NEWLINE) == Preview(content)
  {
    if kept < |content| {
      forall j: nat | j < kept && LineStart(content, j)
        ensures !Fits(content[j..])
      {
        NewlinesBefore(content, j, kept);
      }
      assert IsWholeStart(content, kept);
      FirstFitFinds(content, 0, kept);
    }
  }

  // The piece the walk looks at next is the last piece of what is left.
  lemma {:induction false} NextLine(content: seq<byte>, lines: seq<seq<byte>>, k: nat, end: nat) returns (start: nat)
    requires end <= |content| && k < |lines| && lines[..k + 1] == Split(content[..end], NEWLINE)
    ensures start <= end && lines[k] == content[start..end] && NEWLINE !in content[start..end]
    ensures LineStart(content, start) && (start == 0 <==> k == 0)
    ensures start > 0 ==> lines[..k] == Split(content[..start - 1], NEWLINE)
  {
    var rest := content[..end];
    LastPiece(rest);
    start := end - |lines[k]|;
    assert lines[..k + 1][k] == lines[k] && rest[start..] == content[start..end];
    assert lines[..k + 1][..k] == lines[..k];
    if start > 0 {
      assert |Split(rest[..start - 1], NEWLINE)| >= 1;
      assert rest[..start - 1] == content[..start - 1];
    }
  }

  // The walk's invariant: the lines up to `index` split what is not selected.
  ghost predicate Walking(content: seq<byte>, lines: seq<seq<byte>>, index: int, selected: seq<seq<byte>>, kept: nat) {
    && -1 <= index < |lines|
    && Walk(content, selected, kept)
    && (index >= 0 ==> |Separator(selected)| <= kept
                       && lines[..index + 1] == Split(content[..kept - |Separator(selected)|], NEWLINE))
    && (index < 0 ==> kept == 0 && selected != [])
  }

  // The next line does not fit.
  predicate TooLong(content: seq<byte>, line: seq<byte>, selected: seq<seq<byte>>, kept: int) {
    |content| - kept + |Separator(selected)| + |line| > MAX_BYTES
  }

  lemma {:induction false} Take(content: seq<byte>, lines: seq<seq<byte>>, index: int, selected: seq<seq<byte>>,
                                kept: nat)
    returns (start: nat)
    requires Walking(content, lines, index, selected, kept) && index >= 0 && |selected| < MAX_LINES
    requires !TooLong(content, lines[index], selected, kept)
    ensures start == kept - |Separator(selected)| - |lines[index]|
    ensures Walking(content, lines, index - 1, selected + [lines[index]], start)
  {
    var end := kept - |Separator(selected)|;
    start := NextLine(content, lines, index, end);
    WalkStep(content, selected, kept, start, end);
  }

  lemma {:induction false} CutLast(content: seq<byte>, lines: seq<seq<byte>>, index: int, selected: seq<seq<byte>>,
                                   kept: nat)
    requires Walking(content, lines, index, selected, kept) && index >= 0
    requires TooLong(content, lines[index], selected, kept) && (selected == [] || selected == [[]])
    ensures Join(Reverse(selected + [LineTail(lines[index], MAX_BYTES - |Separator(selected)|)]), NEWLINE)
            == Preview(content)
  {
    var end := kept - |Separator(selected)|;
    var start := NextLine(content, lines, index, end);
    LineBefore(content, selected, kept, start, end);
    WalkCut(content, selected, start, end);
  }

  lemma {:induction false} Stop(content: seq<byte>, lines: seq<seq<byte>>, index: int, selected: seq<seq<byte>>,
                                kept: nat)
    requires Walking(content, lines, index, selected, kept)
    requires index >= 0 && |selected| < MAX_LINES
             ==> TooLong(content, lines[index], selected, kept) && selected != [] && selected != [[]]
    ensures Join(Reverse(selected), NEWLINE) == Preview(content)
  {
    if index >= 0 && |selected| < MAX_LINES {
      var end := kept - |Separator(selected)|;
      var start := NextLine(content, lines, index, end);
      LineBefore(content, selected, kept, start, end);
    }
    WalkStop(content, selected, kept);
  }

  method BashPreviewTail(content: seq<byte>) returns (r: seq<byte>)
    ensures r == Preview(content)
  {
    var lines := Split(content, NEWLINE);
    var selected: seq<seq<byte>> := [];
    var bytes := 0;
    var index := |lines| - 1;
    ghost var kept: nat := |content|;
    assert content[kept..] == [] && content[..kept] == content && lines[..|lines|] == lines;
    while index >= 0 && |selected| < MAX_LINES
      invariant Walking(content, lines, index, selected, kept) && bytes == |content| - kept
    {
      var line := lines[index];
      var separator := if |selected| > 0 then 1 else 0;
      if bytes + separator + |line| > MAX_BYTES {
        if |selected| == 0 || (|selected| == 1 && selected[0] == []) {
          var tail := TailOfLine(line, MAX_BYTES - separator);
          CutLast(content, lines, index, selected, kept);
          return Join(Reverse(selected + [tail]), NEWLINE);
        }
        break;
      }
      kept := Take(content, lines, index, selected, kept);
      selected := selected + [line];
      bytes := bytes + separator + |line|;
      index := index - 1;
    }
    Stop(content, lines, index, selected, kept);
    r := Join(Reverse(selected), NEWLINE);
  }

  // Cut the line to the bytes there is room for, then step over the rest of a cut character.
  method TailOfLine(line: seq<byte>, room: nat) returns (tail: seq<byte>)
    ensures tail == LineTail(line, room)
  {
    var cut := Max(0, |line| - room);
    var start := cut;
    while start < |line| && IsContinuation(line[start])
      invariant cut <= start <= |line|
      invariant forall j :: cut <= j < start ==> IsContinuation(line[j])
    {
      start := start + 1;
    }
    AlignIs(line, cut, start);
    tail := line[start..];
  }

  // ----- the bash_output step, and what streaming it amounts to

  class UserBash {
    var output: seq<byte>

    constructor ()
      ensures output == []
    {
      output := [];
    }

    method OnOutput(chunk: seq<byte>)
      modifies this
      ensures output == Preview(old(output) + chunk)
    {
      output := BashPreviewTail(output + chunk);
    }
  }

  function Stream(chunks: seq<seq<byte>>): seq<byte> {
    if chunks == [] then [] else Preview(Stream(chunks[..|chunks| - 1]) + chunks[|chunks| - 1])
  }

  // Inside the last line, only the final byte can be a newline.
  lemma {:induction false} LastLineTail(s: seq<byte>, from: nat, k: nat)
    requires 0 < from <= k < |s| && NEWLINE !in s[from - 1..|s| - 1]
    ensures Newlines(s[k..]) <= 1 && !LineStart(s, k)
  {
    var line := s[k..|s| - 1];
    assert line == s[from - 1..|s| - 1][k - from + 1..];
    assert s[k - 1] == s[from - 1..|s| - 1][k - from];
    assert s[k..] == line + [s[|s| - 1]];
    NewlinesNone(line);
    NewlinesConcat(line, [s[|s| - 1]]);
    NewlinesBound([s[|s| - 1]]);
  }

  // At most 50 KiB and 2000 lines, and whole lines whenever some whole line fits.
  lemma {:induction false} PreviewBounds(s: seq<byte>)
    ensures |Preview(s)| <= MAX_BYTES && Newlines(Preview(s)) < MAX_LINES
    ensures forall j: nat :: j < |s| && LineStart(s, j) && Fits(s[j..])
                             ==> PreviewStart(s) <= j && LineStart(s, PreviewStart(s))
  {
    FirstFitIs(s, 0);
    var k := PreviewStart(s);
    if s != [] && !IsWholeStart(s, k) {
      CutInsideLine(s);
      if k < |s| {
        LastLineTail(s, Cut(s), k);
      }
    }
  }

  ghost predicate IsSuffix(a: seq<byte>, b: seq<byte>) {
    |a| <= |b| && b[|b| - |a|..] == a
  }

  lemma {:induction false} SuffixSteps(a: seq<byte>, b: seq<byte>, c: seq<byte>, k: nat)
    requires IsSuffix(a, b) && k <= |a + c|
    ensures IsSuffix((a + c)[k..], b + c)
  {
    assert (a + c)[k..] == (b + c)[|b| - |a| + k..];
  }

  // However the output was chunked, what is kept is a bounded suffix of what was written.
  lemma {:induction false} StreamIsBoundedSuffix(chunks: seq<seq<byte>>)
    ensures |Stream(chunks)| <= MAX_BYTES && Newlines(Stream(chunks)) < MAX_LINES
    ensures IsSuffix(Stream(chunks), Flatten(chunks))
  {
    if chunks != [] {
      var front, c := chunks[..|chunks| - 1], chunks[|chunks| - 1];
      StreamIsBoundedSuffix(front);
      FlattenLast(front, c);
      assert chunks == front + [c];
      PreviewBounds(Stream(front) + c);
      SuffixSteps(Stream(front), Flatten(front), c, PreviewStart(Stream(front) + c));
    }
  }

  lemma {:induction false} FlattenLast(front: seq<seq<byte>>, c: seq<byte>)
    ensures Flatten(front + [c]) == Flatten(front) + c
  {
    FlattenConcat(front, [c]);
    assert Flatten([c]) == c;
  }

  lemma {:induction false} AlignShift(s: seq<byte>, start: nat, i: nat)
    requires start + i <= |s|
    ensures Align(s, start + i) == start + Align(s[start..], i)
    decreases |s| - start - i
  {
    if start + i < |s| && IsContinuation(s[start + i]) {
      AlignShift(s, start, i + 1);
    }
  }

  // The line starts of u from `start` on are those of its suffix.
  lemma {:induction false} NothingFitsShift(u: seq<byte>, start: nat, upTo: nat)
    requires start + upTo <= |u| && NothingFits(u, start) && NothingFits(u[start..], upTo)
    requires LineStart(u, start) || |u| - start > MAX_BYTES
    ensures NothingFits(u, start + upTo)
  {
    forall j: nat | j < start + upTo && LineStart(u, j)
      ensures !Fits(u[j..])
    {
      if j >= start {
        assert u[j..] == u[start..][j - start..];
      }
    }
  }

  // Dropping a prefix with no useful line start does not move the preview.
  lemma {:induction false} ShiftPreview(u: seq<byte>, start: nat)
    requires start < |u| && NothingFits(u, start)
    requires LineStart(u, start) || |u| - start > MAX_BYTES
    ensures Preview(u) == Preview(u[start..])
  {
    var v := u[start..];
    FirstFitIs(v, 0);
    var k := PreviewStart(v);
    if IsWholeStart(v, k) {
      NothingFitsShift(u, start, k);
      assert v[k..] == u[start + k..];
      FirstFitFinds(u, 0, start + k);
    } else {
      CutInsideLine(v);
      NothingFitsShift(u, start, |v|);
      AlignShift(u, start, Cut(v));
      FirstFitIs(u, 0);
    }
  }

  // No character is longer than four bytes.
  ghost predicate ShortRuns(s: seq<byte>) {
    forall i :: 0 <= i < |s| - 3 ==>
      !(IsContinuation(s[i]) && IsContinuation(s[i + 1]) && IsContinuation(s[i + 2]) && IsContinuation(s[i + 3]))
  }

  // The preview of p starts inside a line, c is no longer than the bytes that aligning the cut
  // dropped, and a further line begins in p + c.
  predicate Misaligned(p: seq<byte>, c: seq<byte>) {
    p != [] && !LineStart(p, PreviewStart(p))
    && |c| <= PreviewStart(p) - Cut(p)
    && NEWLINE in (p + c)[|p| - 1..|p + c| - 1]
  }

  // The cut case: where the preview starts, and what it holds.
  lemma {:induction false} CutFacts(p: seq<byte>)
    requires p != [] && NothingFits(p, |p|) && ShortRuns(p)
    ensures |p| > MAX_BYTES && PreviewStart(p) == Align(p, Cut(p)) <= Cut(p) + 3
    ensures !LineStart(p, PreviewStart(p)) && Newlines(Preview(p)) <= 1
  {
    FirstFitIs(p, 0);
    CutInsideLine(p);
    var lo, st := Cut(p), PreviewStart(p);
    assert !(IsContinuation(p[lo]) && IsContinuation(p[lo + 1]) && IsContinuation(p[lo + 2])
           && IsContinuation(p[lo + 3]));
    LastLineTail(p, lo, st);
  }

  // A line start of p that does not fit does not fit in p + c either.
  lemma {:induction false} NothingFitsExtends(p: seq<byte>, c: seq<byte>, upTo: nat)
    requires upTo <= |p| && NothingFits(p, upTo)
    ensures NothingFits(p + c, upTo)
  {
    forall j: nat | j < upTo && LineStart(p + c, j)
      ensures !Fits((p + c)[j..])
    {
      assert (p + c)[j..] == p[j..] + c;
      if Fits(p[j..] + c) {
        FitsPart(p[j..], c);
      }
    }
  }

  // After a cut, a chunk no longer than the dropped bytes fits behind the kept bytes as it is.
  lemma {:induction false} ShortChunkKept(p: seq<byte>, c: seq<byte>)
    requires p != [] && NothingFits(p, |p|) && ShortRuns(p)
    requires |c| <= PreviewStart(p) - Cut(p)
    ensures Preview(Preview(p) + c) == Preview(p) + c && |c| <= 3
  {
    CutFacts(p);
    var v := Preview(p) + c;
    NewlinesConcat(Preview(p), c);
    NewlinesBound(c);
    assert v[0..] == v;
  }

  // No further line begins in p + c: the preview of p + c starts where that of p does.
  lemma {:induction false} ShortChunkSameLine(p: seq<byte>, c: seq<byte>)
    requires p != [] && NothingFits(p, |p|) && ShortRuns(p)
    requires |c| <= PreviewStart(p) - Cut(p) && NEWLINE !in (p + c)[|p| - 1..|p + c| - 1]
    ensures PreviewStart(p + c) == PreviewStart(p)
  {
    var u := p + c;
    CutFacts(p);
    NothingFitsExtends(p, c, |p|);
    forall j: nat | |p| <= j < |u|
      ensures !LineStart(u, j)
    {
      assert u[|p| - 1..|u| - 1][j - |p|] == u[j - 1];
    }
    FirstFitIs(u, 0);
    AlignIs(u, Cut(u), PreviewStart(p));
  }

  // A further line begins in p + c: its preview starts there.
  lemma {:induction false} ShortChunkNewLine(p: seq<byte>, c: seq<byte>)
    requires p != [] && NothingFits(p, |p|) && ShortRuns(p)
    requires |c| <= 3 && NEWLINE in (p + c)[|p| - 1..|p + c| - 1]
    ensures PreviewStart(p + c) >= |p|
  {
    var u := p + c;
    NothingFitsExtends(p, c, |p|);
    var j: nat :| |p| - 1 <= j < |u| - 1 && u[j] == NEWLINE;
    NewlinesBound(u[j + 1..]);
    assert LineStart(u, j + 1) && Fits(u[j + 1..]);
    FirstFitIs(u, 0);
  }

  // Short chunk after a cut: the two previews agree exactly when no further line begins.
  lemma {:induction false} ShortChunk(p: seq<byte>, c: seq<byte>)
    requires p != [] && NothingFits(p, |p|) && ShortRuns(p)
    requires |c| <= PreviewStart(p) - Cut(p)
    ensures Preview(Preview(p) + c) == Preview(p + c) <==> NEWLINE !in (p + c)[|p| - 1..|p + c| - 1]
  {
    CutFacts(p);
    ShortChunkKept(p, c);
    assert Preview(p) + c == (p + c)[PreviewStart(p)..];
    if NEWLINE in (p + c)[|p| - 1..|p + c| - 1] {
      ShortChunkNewLine(p, c);
    } else {
      ShortChunkSameLine(p, c);
    }
  }

  // A preview that starts at a line start, or a chunk longer than the dropped bytes: exact.
  lemma {:induction false} ShiftedStep(p: seq<byte>, c: seq<byte>)
    requires p != [] && ShortRuns(p)
    requires NothingFits(p, |p|) ==> |c| > PreviewStart(p) - Cut(p)
    ensures Preview(Preview(p) + c) == Preview(p + c)
  {
    var st, u := PreviewStart(p), p + c;
    FirstFitIs(p, 0);
    if NothingFits(p, |p|) {
      CutFacts(p);
    }
    NothingFitsExtends(p, c, st);
    assert u[st..] == Preview(p) + c;
    assert LineStart(u, st) || |u| - st > MAX_BYTES;
    hide Preview, NothingFits, LineStart, Fits, Align, ShortRuns;
    ShiftPreview(u, st);
  }

  // Keeping only the preview between chunks is exact unless the step is misaligned.
  lemma {:induction false} StepExact(p: seq<byte>, c: seq<byte>)
    requires ShortRuns(p)
    ensures Preview(Preview(p) + c) == Preview(p + c) <==> !Misaligned(p, c)
  {
    FirstFitIs(p, 0);
    if p == [] {
      assert Preview(p) + c == p + c;
    } else if NothingFits(p, |p|) && |c| <= PreviewStart(p) - Cut(p) {
      CutFacts(p);
      ShortChunk(p, c);
    } else {
      ShiftedStep(p, c);
    }
  }

  // What was kept after k chunks, and what a preview of all of them would be.
  ghost predicate ExactAfter(chunks: seq<seq<byte>>, k: nat)
    requires k <= |chunks|
  {
    Stream(chunks[..k]) == Preview(Flatten(chunks[..k]))
  }

  ghost predicate MisalignedAt(chunks: seq<seq<byte>>, k: nat)
    requires k < |chunks|
  {
    Misaligned(Flatten(chunks[..k]), chunks[k])
  }

  lemma {:induction false} ShortRunsPrefix(a: seq<byte>, b: seq<byte>)
    requires ShortRuns(a + b)
    ensures ShortRuns(a)
  {
    assert forall i :: 0 <= i < |a| ==> (a + b)[i] == a[i];
  }

  lemma {:induction false} ChunkStep(chunks: seq<seq<byte>>, k: nat)
    requires k < |chunks| && ShortRuns(Flatten(chunks[..k + 1])) && ExactAfter(chunks, k)
    ensures ExactAfter(chunks, k + 1) <==> !MisalignedAt(chunks, k)
  {
    hide Flatten, Preview, ShortRuns, Misaligned;
    var front, c := chunks[..k], chunks[k];
    assert chunks[..k + 1] == front + [c] && chunks[..k + 1][..k] == front;
    FlattenLast(front, c);
    ShortRunsPrefix(Flatten(front), c);
    StepExact(Flatten(front), c);
  }

  lemma {:induction false} ShortRunsSoFar(chunks: seq<seq<byte>>, k: nat)
    requires k <= |chunks| && ShortRuns(Flatten(chunks))
    ensures ShortRuns(Flatten(chunks[..k]))
    decreases |chunks| - k
  {
    if k == |chunks| {
      assert chunks[..k] == chunks;
    } else {
      ShortRunsSoFar(chunks, k + 1);
      assert chunks[..k + 1] == chunks[..k] + [chunks[k]];
      FlattenLast(chunks[..k], chunks[k]);
      hide Flatten, ShortRuns;
      ShortRunsPrefix(Flatten(chunks[..k]), chunks[k]);
    }
  }

  ghost predicate AllExact(chunks: seq<seq<byte>>, n: nat)
    requires n <= |chunks|
  {
    forall k :: 0 <= k <= n ==> ExactAfter(chunks, k)
  }

  ghost predicate NoneMisaligned(chunks: seq<seq<byte>>, n: nat)
    requires n <= |chunks|
  {
    forall k :: 0 <= k < n ==> !MisalignedAt(chunks, k)
  }

  lemma {:induction false} AllStep(chunks: seq<seq<byte>>, n: nat)
    requires n < |chunks|
    ensures AllExact(chunks, n + 1) <==> AllExact(chunks, n) && ExactAfter(chunks, n + 1)
    ensures NoneMisaligned(chunks, n + 1) <==> NoneMisaligned(chunks, n) && !MisalignedAt(chunks, n)
    ensures AllExact(chunks, n) ==> ExactAfter(chunks, n)
  {
    hide ExactAfter, MisalignedAt;
  }

  lemma {:induction false} NothingIsExact(chunks: seq<seq<byte>>)
    ensures AllExact(chunks, 0) && NoneMisaligned(chunks, 0)
  {
    assert chunks[..0] == [] && Flatten(chunks[..0]) == [];
    FirstFitIs([], 0);
  }

  // However output is chunked: what is kept is the preview of everything so far after every chunk if
  // and only if no chunk is misaligned with what came before it.
  lemma {:induction false} StreamExact(chunks: seq<seq<byte>>, n: nat)
    requires n <= |chunks| && ShortRuns(Flatten(chunks))
    ensures AllExact(chunks, n) <==> NoneMisaligned(chunks, n)
  {
    hide AllExact, NoneMisaligned, ExactAfter, MisalignedAt, ShortRuns, Flatten;
    if n == 0 {
      NothingIsExact(chunks);
    } else {
      StreamExact(chunks, n - 1);
      ShortRunsSoFar(chunks, n);
      AllStep(chunks, n - 1);
      if ExactAfter(chunks, n - 1) {
        ChunkStep(chunks, n - 1);
      }
    }
  }

  ghost predicate SingleByte(s: seq<byte>) {
    forall i :: 0 <= i < |s| ==> s[i] < 128
  }

  lemma {:induction false} SingleByteStep(p: seq<byte>, c: seq<byte>)
    requires SingleByte(p)
    ensures Preview(Preview(p) + c) == Preview(p + c)
  {
    FirstFitIs(p, 0);
    assert Align(p, Cut(p)) == Cut(p);
    StepExact(p, c);
  }

  // For single-byte text any chunking streams to the preview of the whole output.
  lemma {:induction false} StreamEqualsBatch(chunks: seq<seq<byte>>)
    requires forall i :: 0 <= i < |chunks| ==> SingleByte(chunks[i])
    ensures Stream(chunks) == Preview(Flatten(chunks)) && SingleByte(Flatten(chunks))
  {
    if chunks != [] {
      var front, c := chunks[..|chunks| - 1], chunks[|chunks| - 1];
      StreamEqualsBatch(front);
      FlattenLast(front, c);
      assert chunks == front + [c];
      SingleByteStep(Flatten(front), c);
    }
  }

  // ----- characters

  type CodePoint = x: int | 0 <= x < 0xD800 || 0xE000 <= x < 0x11_0000

  function Utf8Char(c: CodePoint): (b: seq<byte>)
    ensures 1 <= |b| <= 4 && !IsContinuation(b[0]) && forall i :: 1 <= i < |b| ==> IsContinuation(b[i])
    ensures NEWLINE in b <==> b == [NEWLINE]
  {
    if c < 0x80 then [c as byte]
    else if c < 0x800 then [(192 + c / 64) as byte, (128 + c % 64) as byte]
    else if c < 0x1_0000 then
      [(224 + c / 4096) as byte, (128 + c / 64 % 64) as byte, (128 + c % 64) as byte]
    else
      [(240 + c / 26_2144) as byte, (128 + c / 4096 % 64) as byte, (128 + c / 64 % 64) as byte, (128 + c % 64) as byte]
  }

  function Utf8(text: seq<CodePoint>): seq<byte> {
    if text == [] then [] else Utf8Char(text[0]) + Utf8(text[1..])
  }

  // A byte that does not continue a character begins one.
  lemma {:induction false} CharacterBoundary(text: seq<CodePoint>, i: nat) returns (k: nat)
    requires i <= |Utf8(text)| && (i < |Utf8(text)| ==> !IsContinuation(Utf8(text)[i]))
    ensures k <= |text| && Utf8(text)[i..] == Utf8(text[k..])
  {
    if i == 0 {
      k := 0;
    } else {
      var head := Utf8Char(text[0]);
      assert i >= |head|;
      k := CharacterBoundary(text[1..], i - |head|);
      k := k + 1;
      assert Utf8(text)[i..] == Utf8(text[1..])[i - |head|..];
      assert text[1..][k - 1..] == text[k..];
    }
  }

  lemma {:induction false} Utf8ShortRuns(text: seq<CodePoint>)
    ensures ShortRuns(Utf8(text))
    ensures forall i :: 0 <= i < |Utf8(text)| - 1 && Utf8(text)[i] == NEWLINE ==> !IsContinuation(Utf8(text)[i + 1])
    ensures text != [] ==> !IsContinuation(Utf8(text)[0])
  {
    if text != [] {
      Utf8ShortRuns(text[1..]);
      var head, tail := Utf8Char(text[0]), Utf8(text[1..]);
      assert Utf8(text) == head + tail;
      forall i | 0 <= i < |head + tail| - 3
        ensures !(IsContinuation((head + tail)[i]) && IsContinuation((head + tail)[i + 1])
                  && IsContinuation((head + tail)[i + 2]) && IsContinuation((head + tail)[i + 3]))
      {
        if i >= |head| {
          assert !(IsContinuation(tail[i - |head|]) && IsContinuation(tail[i - |head| + 1])
                   && IsContinuation(tail[i - |head| + 2]) && IsContinuation(tail[i - |head| + 3]));
        } else if i > 0 {
          assert |head| < i + 4;
          assert tail != [] && text[1..] != [] && (head + tail)[|head|] == tail[0];
        }
      }
    }
  }

  // The preview of a text is a text: no character is ever split.
  lemma {:induction false} PreviewKeepsCharacters(text: seq<CodePoint>) returns (k: nat)
    ensures k <= |text| && Preview(Utf8(text)) == Utf8(text[k..])
  {
    var s := Utf8(text);
    Utf8ShortRuns(text);
    FirstFitIs(s, 0);
    var i := PreviewStart(s);
    if i < |s| && i > 0 && IsWholeStart(s, i) {
      assert s[i - 1] == NEWLINE;
    }
    k := CharacterBoundary(text, i);
  }

  // A three-byte character falls to the cut; two bytes later its line would fit after all.
  lemma {:induction false} MultiByteStreamDiffers() returns (text: seq<CodePoint>, chunk: seq<CodePoint>)
    ensures Preview(Preview(Utf8(text)) + Utf8(chunk)) != Preview(Utf8(text) + Utf8(chunk))
  {
    var tail: seq<CodePoint> := seq(51_198, _ => 97);
    text, chunk := [0x20AC] + tail, [10, 98];
    Utf8Ascii(tail);
    assert text[1..] == tail && chunk[1..] == [98] && chunk[1..][1..] == [];
    assert Utf8(chunk) == [10, 98];
    Utf8ShortRuns(text);
    EuroLine(Utf8(text));
  }

  lemma {:induction false} EuroStart(p: seq<byte>)
    requires |p| == 51_201 && IsContinuation(p[1]) && IsContinuation(p[2]) && p[0] != NEWLINE
    requires forall i :: 3 <= i < |p| ==> p[i] == 97
    ensures NothingFits(p, |p|) && PreviewStart(p) == 3
  {
    assert forall j: nat :: 0 < j < |p| ==> !LineStart(p, j);
    FirstFitIs(p, 0);
    AlignIs(p, 1, 3);
  }

  lemma {:induction false} EuroLine(p: seq<byte>)
    requires |p| == 51_201 && p[0] == 226 && p[1] == 130 && p[2] == 172 && ShortRuns(p)
    requires forall i :: 3 <= i < |p| ==> p[i] == 97
    ensures Preview(Preview(p) + [10, 98]) != Preview(p + [10, 98])
  {
    var c: seq<byte> := [10, 98];
    EuroStart(p);
    assert (p + c)[|p| - 1..|p + c| - 1][1] == NEWLINE;
    ShortChunk(p, c);
  }

  lemma {:induction false} Utf8Ascii(text: seq<CodePoint>)
    requires forall i :: 0 <= i < |text| ==> text[i] == 97
    ensures |Utf8(text)| == |text| && forall i :: 0 <= i < |text| ==> Utf8(text)[i] == 97
  {
    if text != [] {
      Utf8Ascii(text[1..]);
    }
  }
}
