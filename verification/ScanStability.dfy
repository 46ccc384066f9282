/** What the scanner found up to a tag does not depend on the text after that tag. */
module ScanStability {
  import opened Wrappers
  import opened HtmlScanner

  predicate SamePrefix(a: string, b: string, e: nat) {
    e <= |a| && e <= |b| && forall i :: 0 <= i < e ==> a[i] == b[i]
  }

  lemma {:induction false} StartsAtStable(a: string, b: string, e: nat, sub: string, k: nat)
    requires SamePrefix(a, b, e) && k + |sub| <= e
    ensures StartsAt(a, sub, k) <==> StartsAt(b, sub, k)
  {
    assert a[k..k + |sub|] == b[k..k + |sub|];
  }

  lemma {:induction false} IndexOfStable(a: string, b: string, e: nat, sub: string, from: nat)
    requires SamePrefix(a, b, e) && IndexOf(a, sub, from).Some? && IndexOf(a, sub, from).value + |sub| <= e
    ensures IndexOf(b, sub, from) == IndexOf(a, sub, from)
  {
    var k := IndexOf(a, sub, from).value;
    StartsAtStable(a, b, e, sub, k);
    var j := IndexOf(b, sub, from);
    if j.Some? && j.value < k {
      StartsAtStable(a, b, e, sub, j.value);
    }
  }

  lemma {:induction false} TagEndStable(a: string, b: string, e: nat, k: nat, quote: Option<char>)
    requires SamePrefix(a, b, e) && TagEnd(a, k, quote).Some? && TagEnd(a, k, quote).value < e
    ensures TagEnd(b, k, quote) == TagEnd(a, k, quote)
    decreases |a| - k
  {
    assert a[k] == b[k];
    if quote.Some? {
      TagEndStable(a, b, e, k + 1, if a[k] == quote.value then None else quote);
    } else if a[k] == '"' || a[k] == '\'' {
      TagEndStable(a, b, e, k + 1, Some(a[k]));
    } else if a[k] != '>' {
      TagEndStable(a, b, e, k + 1, None);
    }
  }

  function EndOf(r: Scanned): nat {
    match r
    case Done => 0
    case Skipped(next) => next
    case Found(tag) => tag.end
  }

  predicate EndsBy(r: Scanned, e: nat) {
    !r.Done? && EndOf(r) <= e
  }

  lemma {:induction false} TagStable(a: string, b: string, e: nat, start: nat)
    requires SamePrefix(a, b, e) && start < e && EndsBy(ScanTag(a, start), e)
    ensures ScanTag(b, start) == ScanTag(a, start)
  {
    hide TagName;
    TagEndStable(a, b, e, start + 1, None);
    var end := TagEnd(a, start + 1, None).value;
    assert a[start..end + 1] == b[start..end + 1];
  }

  lemma {:induction false} CommentStable(a: string, b: string, e: nat, start: nat)
    requires SamePrefix(a, b, e) && start < e && EndsBy(ScanComment(a, start), e)
    ensures ScanComment(b, start) == ScanComment(a, start)
  {
    IndexOfStable(a, b, e, "-->", start + 4);
  }

  // A comment that would begin here but reach past e cannot be, if a tag ends by e.
  lemma {:induction false} NoCommentInstead(a: string, b: string, e: nat, start: nat)
    requires SamePrefix(a, b, e) && start < e && EndsBy(ScanTag(a, start), e) && !StartsAt(a, "<!--", start)
    ensures !StartsAt(b, "<!--", start)
  {
    var end := TagEnd(a, start + 1, None).value;
    if start + 4 <= e {
      StartsAtStable(a, b, e, "<!--", start);
    } else {
      assert b[end] == '>' && start < end < start + 4;
    }
  }

  // Markup that ends by e is the same whatever follows e.
  lemma {:induction false} ScanAtStable(a: string, b: string, e: nat, start: nat)
    requires SamePrefix(a, b, e) && start < e && EndsBy(ScanAt(a, start), e)
    ensures ScanAt(b, start) == ScanAt(a, start)
  {
    if StartsAt(a, "<!--", start) {
      CommentStable(a, b, e, start);
      StartsAtStable(a, b, e, "<!--", start);
    } else {
      TagStable(a, b, e, start);
      NoCommentInstead(a, b, e, start);
    }
  }

  // ----- the end tag of raw text

  lemma {:induction false} SkipSpaceStable(a: string, b: string, e: nat, k: nat)
    requires SamePrefix(a, b, e) && k <= e && SkipSpace(a, k) < e
    ensures SkipSpace(b, k) == SkipSpace(a, k)
  {
  }

  predicate IsName(element: string) {
    element != "" && forall i :: 0 <= i < |element| ==> 'a' <= element[i] <= 'z'
  }

  lemma {:induction false} LetterOf(s: string, element: string, from: nat, i: nat)
    requires IsName(element) && from + |element| <= |s| && ToLower(s[from..from + |element|]) == element
    requires from <= i < from + |element|
    ensures IsLetter(s[i])
  {
    assert ToLower(s[from..from + |element|])[i - from] == Lower(s[i]);
  }

  // An end tag that begins before a '<' at c is over before it, its '>' aside.
  lemma {:induction false} ClosesBefore(s: string, element: string, k: nat, c: nat)
    requires IsName(element) && ClosesHere(s, element, k) && k < c < |s| && s[c] == '<'
    ensures SkipSpace(s, k + 2) + |element| <= c
  {
    var from := SkipSpace(s, k + 2);
    assert s[k..k + 2][1] == '/';
    assert c >= k + 2;
    if from <= c < from + |element| {
      LetterOf(s, element, from, c);
    }
  }

  lemma {:induction false} ClosesHereStable(a: string, b: string, e: nat, element: string, k: nat)
    requires SamePrefix(a, b, e) && IsName(element) && k + 2 <= e
    requires SkipSpace(a, k + 2) + |element| < e
    ensures ClosesHere(a, element, k) <==> ClosesHere(b, element, k)
    ensures SkipSpace(b, k + 2) == SkipSpace(a, k + 2)
  {
    StartsAtStable(a, b, e, "</", k);
    SkipSpaceStable(a, b, e, k + 2);
    var from := SkipSpace(a, k + 2);
    assert a[from..from + |element|] == b[from..from + |element|];
  }

  lemma {:induction false} HasEnd(s: string, from: nat, x: nat)
    requires from <= x < |s| && s[x] == '>'
    ensures IndexOf(s, ">", from).Some?
  {
    assert StartsAt(s, ">", x);
  }

  lemma {:induction false} MatchBegins(s: string, element: string, c: nat) returns (x: nat)
    requires CloseMatch(s, element, c)
    ensures c < |s| && s[c] == '<' && c + 2 <= SkipSpace(s, c + 2)
    ensures SkipSpace(s, c + 2) + |element| <= x < |s| && s[x] == '>'
  {
    assert s[c..c + 2][0] == '<';
    x := IndexOf(s, ">", SkipSpace(s, c + 2) + |element|).value;
    assert s[x..x + 1][0] == '>';
  }

  // An end tag that begins in b before one found in a begins in a as well.
  lemma {:induction false} EarlierClose(a: string, b: string, e: nat, element: string, c: nat, k: nat)
    requires SamePrefix(a, b, e) && IsName(element) && CloseMatch(a, element, c) && k < c < e
    requires ClosesHere(b, element, k)
    ensures CloseMatch(a, element, k)
  {
    var x := MatchBegins(a, element, c);
    ClosesBefore(b, element, k, c);
    ClosesHereStable(b, a, e, element, k);
    HasEnd(a, SkipSpace(a, k + 2) + |element|, x);
  }

  // The end tag found in a is one in b, if its '>' comes by e.
  lemma {:induction false} CloseStays(a: string, b: string, e: nat, element: string, c: nat, x: nat)
    requires SamePrefix(a, b, e) && IsName(element) && CloseMatch(a, element, c)
    requires c < x < e && a[x] == '>'
    ensures CloseMatch(b, element, c)
  {
    var from := SkipSpace(a, c + 2);
    assert a[c..c + 2][1] == '/';
    assert a[c..c + 2][0] == '<';
    if from <= x < from + |element| {
      LetterOf(a, element, from, x);
    }
    ClosesHereStable(a, b, e, element, c);
    HasEnd(b, from + |element|, x);
  }

  lemma {:induction false} FindCloseIs(s: string, element: string, from: nat, c: nat)
    requires from <= c < |s| && CloseMatch(s, element, c)
    requires forall k :: from <= k < c ==> !CloseMatch(s, element, k)
    ensures FindClose(s, element, from) == Some(c)
    decreases c - from
  {
    if from < c {
      FindCloseIs(s, element, from + 1, c);
    }
  }

  lemma {:induction false} FindCloseStable(a: string, b: string, e: nat, element: string, from: nat, x: nat)
    requires SamePrefix(a, b, e) && IsName(element) && FindClose(a, element, from).Some?
    requires FindClose(a, element, from).value < x < e && a[x] == '>'
    ensures FindClose(b, element, from) == FindClose(a, element, from)
  {
    var c := FindClose(a, element, from).value;
    CloseStays(a, b, e, element, c, x);
    forall k | from <= k < c
      ensures !CloseMatch(b, element, k)
    {
      if ClosesHere(b, element, k) {
        EarlierClose(a, b, e, element, c, k);
      }
    }
    FindCloseIs(b, element, from, c);
  }

  // ----- the whole scan

  predicate IsElement(element: Option<string>) {
    element.Some? ==> IsName(element.value)
  }

  lemma {:induction false} RawElementIsName(tag: Tag)
    ensures IsElement(RawElement(tag))
  {
  }

  // Every tag of a scan lies at or after the index, and ends with '>'.
  lemma {:induction false} TagsFollow(s: string, index: nat, element: Option<string>, i: nat)
    requires i < |Scan(s, index, element)|
    ensures var tag := Scan(s, index, element)[i];
            index <= tag.start < tag.end <= |s| && tag.raw == s[tag.start..tag.end]
    decreases |s| - index
  {
    match ScanStep(s, index, element)
    case Skipped(next) => TagsFollow(s, next, None, i);
    case Found(tag) => if i > 0 { TagsFollow(s, tag.end, RawElement(tag), i - 1); }
  }

  // Markup ends in a '>'.
  lemma {:induction false} ScanAtEnds(s: string, start: nat)
    requires start < |s| && !ScanAt(s, start).Done?
    ensures EndOf(ScanAt(s, start)) <= |s| && s[EndOf(ScanAt(s, start)) - 1] == '>'
  {
    if StartsAt(s, "<!--", start) {
      var k := IndexOf(s, "-->", start + 4).value;
      assert s[k + 2] == s[k..k + 3][2] == "-->"[2];
    }
  }

  lemma {:induction false} StepStable(a: string, b: string, e: nat, index: nat, element: Option<string>)
    requires SamePrefix(a, b, e) && IsElement(element) && EndsBy(ScanStep(a, index, element), e)
    ensures ScanStep(b, index, element) == ScanStep(a, index, element)
  {
    hide TagName;
    hide ScanTag;
    hide ScanComment;
    hide CloseMatch;
    var start := NextStart(a, index, element).value;
    ScanAtEnds(a, start);
    ScanAtStable(a, b, e, start);
    if element.Some? {
      FindCloseStable(a, b, e, element.value, index, EndOf(ScanAt(a, start)) - 1);
    } else {
      IndexOfStable(a, b, e, "<", index);
    }
  }

  // Up to a tag that ends at e, two documents with the same text before e scan alike.
  lemma {:induction false} PrefixScansAlike(a: string, b: string, e: nat, index: nat, element: Option<string>, i: nat)
    requires SamePrefix(a, b, e) && IsElement(element)
    requires i < |Scan(a, index, element)| && Scan(a, index, element)[i].end == e
    ensures Scan(b, index, element)
            == Scan(a, index, element)[..i + 1] + Scan(b, e, RawElement(Scan(a, index, element)[i]))
    decreases |a| - index
  {
    hide ScanStep;
    hide RawElement;
    match ScanStep(a, index, element)
    case Skipped(next) =>
      TagsFollow(a, next, None, i);
      StepStable(a, b, e, index, element);
      PrefixScansAlike(a, b, e, next, None, i);
    case Found(tag) =>
      if i > 0 {
        TagsFollow(a, tag.end, RawElement(tag), i - 1);
        RawElementIsName(tag);
        PrefixScansAlike(a, b, e, tag.end, RawElement(tag), i - 1);
        TakeTail(tag, Scan(a, tag.end, RawElement(tag)), i);
      }
      StepStable(a, b, e, index, element);
  }

  lemma {:induction false} TakeTail(tag: Tag, rest: seq<Tag>, i: nat)
    requires 0 < i <= |rest|
    ensures ([tag] + rest)[..i + 1] == [tag] + rest[..i]
  {
  }
}
