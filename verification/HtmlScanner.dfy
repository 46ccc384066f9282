/** The tag scanner: it reads a document from the front and skips comments and raw text. */
module HtmlScanner {
  import opened Wrappers
  import opened Whitespace

  datatype Tag = Tag(raw: string, name: string, closing: bool, start: nat, end: nat)

  // ----- searching

  predicate StartsAt(s: string, sub: string, k: nat) {
    k + |sub| <= |s| && s[k..k + |sub|] == sub
  }

  function IndexOf(s: string, sub: string, from: nat): (r: Option<nat>)
    ensures r.Some? ==>
                r.value >= from && StartsAt(s, sub, r.value) && forall k :: from <= k < r.value ==> !StartsAt(s, sub, k)
    ensures r.None? ==> forall k :: k >= from ==> !StartsAt(s, sub, k)
    decreases |s| - from
  {
    if from + |sub| > |s| then None
    else if StartsAt(s, sub, from) then Some(from)
    else if from == |s| then None
    else IndexOf(s, sub, from + 1)
  }

  // The '>' that ends a tag: the first one outside quotes.
  function TagEnd(s: string, k: nat, quote: Option<char>): (r: Option<nat>)
    ensures r.Some? ==> k <= r.value < |s| && s[r.value] == '>'
    decreases |s| - k
  {
    if k >= |s| then None
    else if quote.Some? then TagEnd(s, k + 1, if s[k] == quote.value then None else quote)
    else if s[k] == '"' || s[k] == '\'' then TagEnd(s, k + 1, Some(s[k]))
    else if s[k] == '>' then Some(k)
    else TagEnd(s, k + 1, None)
  }

  function SkipSpace(s: string, k: nat): (r: nat)
    requires k <= |s|
    ensures k <= r <= |s|
    ensures forall i :: k <= i < r ==> IsSpace(s[i])
    ensures r < |s| ==> !IsSpace(s[r])
    decreases |s| - k
  {
    if k < |s| && IsSpace(s[k]) then SkipSpace(s, k + 1) else k
  }

  // ----- names

  predicate IsLetter(c: char) {
    'a' <= c <= 'z' || 'A' <= c <= 'Z'
  }

  predicate IsWord(c: char) {
    IsLetter(c) || '0' <= c <= '9' || c == '_'
  }

  predicate IsNameChar(c: char) {
    IsWord(c) || c == ':' || c == '-'
  }

  function Lower(c: char): char {
    if 'A' <= c <= 'Z' then (c as int + 32) as char else c
  }

  function ToLower(s: string): (r: string)
    ensures |r| == |s|
  {
    seq(|s|, i requires 0 <= i < |s| => Lower(s[i]))
  }

  function NameRun(s: string, k: nat): (r: nat)
    requires k <= |s|
    ensures k <= r <= |s|
    ensures forall i :: k <= i < r ==> IsNameChar(s[i])
    ensures r < |s| ==> !IsNameChar(s[r])
    decreases |s| - k
  {
    if k < |s| && IsNameChar(s[k]) then NameRun(s, k + 1) else k
  }

  // A word character on exactly one side.
  predicate IsBoundary(s: string, k: nat)
    requires 0 < k <= |s|
  {
    IsWord(s[k - 1]) != (k < |s| && IsWord(s[k]))
  }

  // The longest name that starts at `from`, runs to `k` at most and ends at a boundary.
  function NameEnd(s: string, from: nat, k: nat): (r: nat)
    requires from < k <= |s|
    ensures from < r <= k
  {
    if k == from + 1 || IsBoundary(s, k) then k else NameEnd(s, from, k - 1)
  }

  // A name that begins with a letter always has such an end.
  lemma {:induction false} NameEndsAtBoundary(s: string, from: nat, k: nat)
    requires from < k <= |s| && IsLetter(s[from]) && (k < |s| ==> !IsWord(s[k]))
    ensures IsBoundary(s, NameEnd(s, from, k))
  {
    if k > from + 1 && !IsBoundary(s, k) {
      NameEndsAtBoundary(s, from, k - 1);
    }
  }

  datatype Name = Name(name: string, closing: bool)

  // The name of a tag, from its raw text: `<`, an optional slash, a letter.
  function TagName(raw: string): Option<Name> {
    if raw == "" then None
    else
      var first := SkipSpace(raw, 1);
      var closing := first < |raw| && raw[first] == '/';
      var from := if closing then SkipSpace(raw, first + 1) else first;
      if from < |raw| && IsLetter(raw[from]) then
        Some(Name(ToLower(raw[from..NameEnd(raw, from, NameRun(raw, from + 1))]), closing))
      else None
  }

  // The text before the final '>' ends in a slash, spaces aside.
  predicate SelfClosing(raw: string) {
    raw != "" && raw[|raw| - 1] == '>'
    && var front := TrimEnd(raw[..|raw| - 1]); front != "" && front[|front| - 1] == '/'
  }

  // ----- raw text

  // An end tag of the element begins here, but for its '>'.
  predicate ClosesHere(s: string, element: string, k: nat) {
    StartsAt(s, "</", k)
    && var from := SkipSpace(s, k + 2);
       && from + |element| <= |s|
       && ToLower(s[from..from + |element|]) == element
       && !(from + |element| < |s| && IsWord(s[from + |element|]))
  }

  predicate CloseMatch(s: string, element: string, k: nat): (b: bool)
    ensures b ==> k < |s| && s[k] == '<'
  {
    assert StartsAt(s, "</", k) ==> s[k] == s[k..k + 2][0];
    ClosesHere(s, element, k) && IndexOf(s, ">", SkipSpace(s, k + 2) + |element|).Some?
  }

  function FindClose(s: string, element: string, from: nat): (r: Option<nat>)
    ensures r.Some? ==> from <= r.value < |s| && s[r.value] == '<' && CloseMatch(s, element, r.value)
    ensures r.Some? ==> forall k :: from <= k < r.value ==> !CloseMatch(s, element, k)
    ensures r.None? ==> forall k :: k >= from ==> !CloseMatch(s, element, k)
    decreases |s| - from
  {
    hide CloseMatch;
    if from >= |s| then None
    else if CloseMatch(s, element, from) then Some(from)
    else FindClose(s, element, from + 1)
  }

  // ----- the scan

  datatype Scanned = Done | Skipped(next: nat) | Found(tag: Tag)

  function ScanComment(s: string, start: nat): (r: Scanned)
    requires start < |s|
    ensures r.Skipped? ==> start + 1 < r.next <= |s|
    ensures !r.Found?
  {
    var commentEnd := IndexOf(s, "-->", start + 4);
    if commentEnd.None? then Done else Skipped(commentEnd.value + 3)
  }

  function ScanTag(s: string, start: nat): (r: Scanned)
    requires start < |s|
    ensures r.Skipped? ==> start + 1 < r.next <= |s|
    ensures r.Found? ==> r.tag.start == start < start + 1 < r.tag.end <= |s| && r.tag.raw == s[start..r.tag.end]
  {
    var end := TagEnd(s, start + 1, None);
    if end.None? then Done
    else
      var raw := s[start..end.value + 1];
      var name := TagName(raw);
      if name.None? then Skipped(end.value + 1)
      else Found(Tag(raw, name.value.name, name.value.closing, start, end.value + 1))
  }

  // From a '<': a comment to skip, markup that is no tag, or a tag.
  function ScanAt(s: string, start: nat): (r: Scanned)
    requires start < |s|
    ensures r.Skipped? ==> start + 1 < r.next <= |s|
    ensures r.Found? ==> r.tag.start == start < start + 1 < r.tag.end <= |s| && r.tag.raw == s[start..r.tag.end]
  {
    if StartsAt(s, "<!--", start) then ScanComment(s, start) else ScanTag(s, start)
  }

  // The next '<' that matters: outside the raw text of a script or style element.
  function NextStart(s: string, index: nat, element: Option<string>): (r: Option<nat>)
    ensures r.Some? ==> index <= r.value < |s| && s[r.value] == '<'
  {
    hide FindClose;
    hide CloseMatch;
    if element.Some? then FindClose(s, element.value, index)
    else
      var r := IndexOf(s, "<", index);
      assert r.Some? ==> s[r.value] == s[r.value..r.value + 1][0];
      r
  }

  function RawElement(tag: Tag): Option<string> {
    if !tag.closing && (tag.name == "script" || tag.name == "style")
        && !SelfClosing(tag.raw) then Some(tag.name) else None
  }

  function ScanStep(s: string, index: nat, element: Option<string>): (r: Scanned)
    ensures r.Skipped? ==> index < r.next <= |s|
    ensures r.Found? ==> index <= r.tag.start < r.tag.end <= |s| && r.tag.raw == s[r.tag.start..r.tag.end]
  {
    var start := NextStart(s, index, element);
    if start.None? then Done else ScanAt(s, start.value)
  }

  function Scan(s: string, index: nat, element: Option<string>): seq<Tag>
    decreases |s| - index
  {
    match ScanStep(s, index, element)
    case Done => []
    case Skipped(next) => Scan(s, next, None)
    case Found(tag) => [tag] + Scan(s, tag.end, RawElement(tag))
  }

  lemma {:induction false} ScanUnfolds(s: string, index: nat, element: Option<string>)
    ensures Scan(s, index, element)
            == match ScanStep(s, index, element)
               case Done => []
               case Skipped(next) => Scan(s, next, None)
               case Found(tag) => [tag] + Scan(s, tag.end, RawElement(tag))
  {}

  method FindTagEnd(s: string, from: nat) returns (end: Option<nat>)
    ensures end == TagEnd(s, from, None)
  {
    var k := from;
    var quote: Option<char> := None;
    while k < |s|
      invariant TagEnd(s, k, quote) == TagEnd(s, from, None)
      decreases |s| - k
    {
      var character := s[k];
      if quote.Some? {
        if character == quote.value {
          quote := None;
        }
      } else if character == '"' || character == '\'' {
        quote := Some(character);
      } else if character == '>' {
        return Some(k);
      }
      k := k + 1;
    }
    end := None;
  }

  // One piece of markup: where it ends, and the tag it is.
  method ScanMarkup(document: string, start: nat) returns (scanned: Scanned)
    requires start < |document|
    ensures scanned == ScanAt(document, start)
  {
    hide TagName;
    hide TagEnd;
    hide IndexOf;
    if StartsAt(document, "<!--", start) {
      var commentEnd := IndexOf(document, "-->", start + 4);
      return if commentEnd.None? then Done else Skipped(commentEnd.value + 3);
    }
    var end := FindTagEnd(document, start + 1);
    if end.None? { return Done; }
    var raw := document[start..end.value + 1];
    var name := TagName(raw);
    scanned := if name.None? then Skipped(end.value + 1)
               else Found(Tag(raw, name.value.name, name.value.closing, start, end.value + 1));
  }

  method ScanHtmlTags(document: string) returns (tags: seq<Tag>)
    ensures tags == Scan(document, 0, None)
  {
    hide ScanAt;
    hide RawElement;
    hide CloseMatch;
    hide Scan;
    assert Scan(document, 0, None) == [] + Scan(document, 0, None);
    tags := [];
    var index := 0;
    var rawTextElement: Option<string> := None;
    while index < |document|
      invariant index <= |document| && Scan(document, 0, None) == tags + Scan(document, index, rawTextElement)
      decreases |document| - index
    {
      ScanUnfolds(document, index, rawTextElement);
      assert tags + [] == tags;
      var base := index;
      if rawTextElement.Some? {
        var closing := FindClose(document, rawTextElement.value, index);
        if closing.None? { return; }
        base := closing.value;
      }
      var start := IndexOf(document, "<", base);
      if start.None? { return; }
      var scanned := ScanMarkup(document, start.value);
      match scanned
      case Done => return;
      case Skipped(next) =>
        index, rawTextElement := next, None;
      case Found(tag) =>
        assert tags + ([tag] + Scan(document, tag.end, RawElement(tag)))
               == tags + [tag] + Scan(document, tag.end, RawElement(tag));
        tags := tags + [tag];
        index, rawTextElement := tag.end, RawElement(tag);
    }
    ScanUnfolds(document, index, rawTextElement);
    assert tags + [] == tags;
  }

  // ----- what the scan finds

  predicate IsQuote(c: char) {
    c == '"' || c == '\''
  }

  // From k to j there are plain characters and closed quotations only.
  ghost predicate Outside(s: string, k: nat, j: nat)
    decreases j - k
  {
    && k <= j <= |s|
    && (k == j
        || (!IsQuote(s[k]) && Outside(s, k + 1, j))
        || (IsQuote(s[k]) && exists m: nat :: Quoted(s, k, m) && m < j && Outside(s, m + 1, j)))
  }

  // The quote at k is closed at m.
  ghost predicate Quoted(s: string, k: nat, m: nat) {
    k < m < |s| && s[m] == s[k] && forall i :: k < i < m ==> s[i] != s[k]
  }

  lemma {:induction false} InsideQuotes(s: string, k: nat, from: nat) returns (m: nat)
    requires k < from <= |s| && forall i :: k < i < from ==> s[i] != s[k]
    ensures m <= |s| && (m < |s| ==> Quoted(s, k, m))
    ensures m == |s| ==> forall i :: k < i < |s| ==> s[i] != s[k]
    ensures TagEnd(s, from, Some(s[k])) == if m < |s| then TagEnd(s, m + 1, None) else None
    decreases |s| - from
  {
    if from == |s| {
      m := |s|;
    } else if s[from] == s[k] {
      m := from;
    } else {
      m := InsideQuotes(s, k, from + 1);
    }
  }

  lemma {:induction false} QuotedOnce(s: string, k: nat, m: nat, n: nat)
    requires Quoted(s, k, m) && Quoted(s, k, n)
    ensures m == n
  {}

  // A tag ends at the first '>' with nothing but plain characters and closed quotations before it.
  lemma {:induction false} TagEndIsExact(s: string, k: nat)
    requires k <= |s|
    ensures var r := TagEnd(s, k, None);
            && (forall j :: k <= j < |s| && s[j] == '>' && Outside(s, k, j) ==> r.Some? && r.value <= j)
            && (r.Some? ==> Outside(s, k, r.value))
    decreases |s| - k
  {
    if k < |s| {
      if IsQuote(s[k]) {
        var m := InsideQuotes(s, k, k + 1);
        if m < |s| {
          TagEndIsExact(s, m + 1);
          forall j | k <= j < |s| && s[j] == '>' && Outside(s, k, j)
            ensures Outside(s, m + 1, j)
          {
            var n: nat :| Quoted(s, k, n) && n < j && Outside(s, n + 1, j);
            QuotedOnce(s, k, m, n);
          }
        }
      } else if s[k] != '>' {
        TagEndIsExact(s, k + 1);
      }
    }
  }

  lemma {:induction false} FirstAngle(s: string, index: nat, start: nat)
    requires index <= start < |s| && s[start] == '<' && forall k :: index <= k < start ==> s[k] != '<'
    ensures IndexOf(s, "<", index) == Some(start)
  {
    var first := IndexOf(s, "<", index);
    assert StartsAt(s, "<", start) by { assert s[start..start + 1] == "<"; }
    assert first.Some? && first.value <= start;
    assert s[first.value..first.value + 1][0] == '<';
  }

  lemma {:induction false} CommentStep(s: string, index: nat, start: nat)
    requires index <= start && StartsAt(s, "<!--", start) && forall k :: index <= k < start ==> s[k] != '<'
    ensures start < |s| && ScanStep(s, index, None) == ScanComment(s, start)
  {
    assert s[start..start + 4][0] == '<';
    FirstAngle(s, index, start);
    hide ScanTag, ScanComment;
  }

  // The first place of a mark.
  ghost predicate FirstAt(s: string, mark: string, from: nat, e: nat) {
    from <= e && StartsAt(s, mark, e) && forall k :: from <= k < e ==> !StartsAt(s, mark, k)
  }

  lemma {:induction false} FirstIs(s: string, mark: string, from: nat, e: nat)
    requires FirstAt(s, mark, from, e)
    ensures IndexOf(s, mark, from) == Some(e)
  {
    var r := IndexOf(s, mark, from);
    assert r.Some? ==> !(r.value < e) && !(e < r.value);
  }

  lemma {:induction false} CommentSkips(s: string, index: nat, start: nat, e: nat)
    requires index <= start && StartsAt(s, "<!--", start) && forall k :: index <= k < start ==> s[k] != '<'
    requires FirstAt(s, "-->", start + 4, e)
    ensures ScanStep(s, index, None) == Skipped(e + 3)
  {
    hide IndexOf, ScanStep, StartsAt, FirstAt;
    CommentStep(s, index, start);
    FirstIs(s, "-->", start + 4, e);
  }

  // A comment is passed over, up to the first end mark behind its beginning.
  lemma {:induction false} CommentsAreSkipped(s: string, index: nat, start: nat, e: nat)
    requires index <= start && StartsAt(s, "<!--", start) && forall k :: index <= k < start ==> s[k] != '<'
    requires FirstAt(s, "-->", start + 4, e)
    ensures Scan(s, index, None) == Scan(s, e + 3, None)
  {
    hide Scan, IndexOf, ScanStep, StartsAt, FirstAt;
    CommentSkips(s, index, start, e);
    ScanUnfolds(s, index, None);
  }

  // A comment without an end hides the rest of the document.
  lemma {:induction false} OpenCommentHides(s: string, index: nat, start: nat)
    requires index <= start && StartsAt(s, "<!--", start) && forall k :: index <= k < start ==> s[k] != '<'
    requires forall e :: start + 4 <= e ==> !StartsAt(s, "-->", e)
    ensures Scan(s, index, None) == []
  {
    CommentStep(s, index, start);
    hide Scan, IndexOf, ScanStep, StartsAt;
    ScanUnfolds(s, index, None);
  }

  // The text of a script or style element is passed over: after its tag, nothing is found before the
  // first place that closes it.
  lemma {:induction false} RawTextIsSkipped(s: string, tag: Tag, p: nat)
    requires !tag.closing && tag.name in {"script", "style"}
    requires !exists k: nat :: k < |tag.raw| - 1 && EndsSlashed(tag.raw, k)
    requires forall k :: tag.end <= k < p ==> !CloseMatch(s, tag.name, k)
    ensures forall t :: t in Scan(s, tag.end, RawElement(tag)) ==> t.start >= p
  {
    assert RawElement(tag) == Some(tag.name) by { NotSelfClosing(tag.raw); }
    ScanUnfolds(s, tag.end, RawElement(tag));
    var start := NextStart(s, tag.end, Some(tag.name));
    if start.Some? {
      assert start.value >= p;
      var step := ScanAt(s, start.value);
      match step
      case Done =>
      case Skipped(next) => LaterTags(s, next, None);
      case Found(t) => LaterTags(s, t.end, RawElement(t));
    }
    hide Scan, ScanAt, CloseMatch, FindClose, RawElement;
  }

  // A slash and spaces, then the final '>'.
  ghost predicate EndsSlashed(raw: string, k: nat) {
    k < |raw| - 1 && raw[k] == '/' && raw[|raw| - 1] == '>' && forall i :: k < i < |raw| - 1 ==> IsSpace(raw[i])
  }

  lemma {:induction false} NotSelfClosing(raw: string)
    requires !exists k: nat :: k < |raw| - 1 && EndsSlashed(raw, k)
    ensures !SelfClosing(raw)
  {
    if SelfClosing(raw) {
      var front := TrimEnd(raw[..|raw| - 1]);
      TrimEndIs(raw[..|raw| - 1]);
      assert EndsSlashed(raw, |front| - 1);
    }
  }

  lemma {:induction false} TrimEndIs(t: string)
    ensures var front := TrimEnd(t);
            front <= t && forall i :: |front| <= i < |t| ==> IsSpace(t[i])
  {
    if TrimEnd(t) != t {
      TrimEndIs(t[..|t| - 1]);
    }
  }

  lemma {:induction false} LaterTags(s: string, index: nat, element: Option<string>)
    ensures forall t :: t in Scan(s, index, element) ==> t.start >= index
    decreases |s| - index
  {
    ScanUnfolds(s, index, element);
    match ScanStep(s, index, element)
    case Done =>
    case Skipped(next) => LaterTags(s, next, None);
    case Found(t) => LaterTags(s, t.end, RawElement(t));
  }

  predicate AllSpace(s: string) {
    forall i :: 0 <= i < |s| ==> IsSpace(s[i])
  }

  // A letter, then letters, digits, '_', ':' and '-', and not one of the last two at the end.
  predicate IsTagName(name: string) {
    && name != "" && IsLetter(name[0]) && IsWord(name[|name| - 1])
    && forall i :: 0 <= i < |name| ==> IsNameChar(name[i])
  }

  lemma {:induction false} SkipsTo(s: string, k: nat, to: nat)
    requires k <= to < |s| && !IsSpace(s[to]) && forall i :: k <= i < to ==> IsSpace(s[i])
    ensures SkipSpace(s, k) == to
  {}

  lemma {:induction false} RunsTo(s: string, k: nat, to: nat)
    requires k <= to <= |s| && (to < |s| ==> !IsNameChar(s[to])) && forall i :: k <= i < to ==> IsNameChar(s[i])
    ensures NameRun(s, k) == to
  {}

  lemma {:induction false} NameAt(s: string, from: nat, to: nat)
    requires from < to <= |s| && IsTagName(s[from..to]) && (to < |s| ==> !IsNameChar(s[to]))
    ensures NameEnd(s, from, NameRun(s, from + 1)) == to && IsLetter(s[from])
  {
    var name := s[from..to];
    assert forall i :: from <= i < to ==> s[i] == name[i - from];
    assert IsWord(name[|name| - 1]) && name[|name| - 1] == s[to - 1];
    RunsTo(s, from + 1, to);
  }

  // What a tag is called: the name behind '<' and an optional slash, spaces aside, in lower case.
  lemma {:induction false} TagNameIsExact(raw: string, slash: nat, from: nat, to: nat, closing: bool)
    requires 0 < slash <= from < to <= |raw| && raw[0] == '<' && AllSpace(raw[1..slash])
    requires if closing then raw[slash] == '/' && slash < from && AllSpace(raw[slash + 1..from]) else slash == from
    requires IsTagName(raw[from..to]) && (to < |raw| ==> !IsNameChar(raw[to]))
    ensures TagName(raw) == Some(Name(ToLower(raw[from..to]), closing))
  {
    NameAt(raw, from, to);
    assert forall i :: 1 <= i < slash ==> raw[i] == raw[1..slash][i - 1];
    SkipsTo(raw, 1, slash);
    if closing {
      assert forall i :: slash + 1 <= i < from ==> raw[i] == raw[slash + 1..from][i - (slash + 1)];
      SkipsTo(raw, slash + 1, from);
    }
    hide SkipSpace, NameEnd, NameRun, ToLower;
  }
}
