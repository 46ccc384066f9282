/** Every stored document carries the canonical policy inside its head, whatever it contained. */
module HtmlNormalize {
  import opened Wrappers
  import opened Whitespace
  import opened HtmlScanner
  import opened ScanStability
  import opened TextLines

  // ----- the inserted text

  const DIRECTIVES: seq<string> := [
    "default-src 'none'; ", "script-src 'unsafe-inline'; ", "style-src 'unsafe-inline'; ", "img-src data:; ",
    "font-src 'none'; ", "connect-src 'none'; ", "frame-src 'none'; ", "object-src 'none'; ", "base-uri 'none'; ",
    "form-action 'none'; ", "media-src data:; ", "navigate-to 'none';"]
  const CSP := Flatten(DIRECTIVES)
  const META_NAME := "<meta http-equiv="
  const META_KIND := "Content-Security-Policy"
  const CONTENT := " content="
  const QUOTE := "\""
  const CSP_META := MetaOf(META_NAME, META_KIND, CONTENT, CSP)
  function MetaOf(name: string, kind: string, content: string, policy: string): string {
    name + QUOTE + kind + QUOTE + content + QUOTE + policy + QUOTE + ">"
  }

  const DOCTYPE := "<!doctype html>"
  const HTML := "<html>"
  const HEAD := "<head>"
  const HEAD_END := "</head>"
  const BODY := "<body>"
  const BODY_END := "</body></html>"

  // ----- the check

  function NextDepth(depth: nat, tag: Tag): nat {
    if tag.name != "head" then depth
    else if tag.closing then (if depth > 0 then depth - 1 else 0)
    else depth + 1
  }

  predicate IsCanonical(tag: Tag) {
    tag.name == "meta" && !tag.closing && tag.raw == CSP_META
  }

  // Some canonical meta among the tags, while a head is open.
  predicate MetaInHead(tags: seq<Tag>, depth: nat) {
    tags != [] && ((depth > 0 && IsCanonical(tags[0])) || MetaInHead(tags[1..], NextDepth(depth, tags[0])))
  }

  function DepthAfter(tags: seq<Tag>, depth: nat): nat {
    if tags == [] then depth else DepthAfter(tags[1..], NextDepth(depth, tags[0]))
  }

  predicate HasCanonicalMeta(document: string) {
    MetaInHead(Scan(document, 0, None), 0)
  }

  method HasCanonicalCspMetaInHead(document: string) returns (has: bool)
    ensures has <==> HasCanonicalMeta(document)
  {
    var tags := ScanHtmlTags(document);
    var headDepth: nat := 0;
    ghost var rest := tags;
    for i := 0 to |tags|
      invariant rest == tags[i..]
      invariant MetaInHead(tags, 0) <==> MetaInHead(rest, headDepth)
    {
      var tag := tags[i];
      assert rest[0] == tag && rest[1..] == tags[i + 1..];
      if tag.name == "head" {
        headDepth := if tag.closing then (if headDepth > 0 then headDepth - 1 else 0) else headDepth + 1;
      } else if headDepth > 0 && tag.name == "meta" && !tag.closing && tag.raw == CSP_META {
        return true;
      }
      rest := rest[1..];
    }
    has := false;
  }

  // ----- normalization

  // Openings of the head minus its ends in a stretch of tags.
  function HeadBalance(tags: seq<Tag>, lo: nat, hi: nat): int
    requires lo <= hi && hi <= |tags|
    decreases hi
  {
    if lo >= hi then 0
    else
      HeadBalance(tags, lo, hi - 1)
      + (if tags[hi - 1].name != "head" then 0 else if tags[hi - 1].closing then -1 else 1)
  }

  // A head is open: from some tag on, more heads were opened than ended.
  ghost predicate InHead(tags: seq<Tag>, k: nat) {
    k <= |tags| && exists j: nat :: j <= k && HeadBalance(tags, j, k) > 0
  }

  lemma {:induction false} DepthIsBalance(tags: seq<Tag>, k: nat) returns (j: nat)
    requires k <= |tags|
    ensures j <= k && HeadBalance(tags, j, k) == DepthAfter(tags[..k], 0)
    ensures forall i: nat :: i <= k ==> HeadBalance(tags, i, k) <= DepthAfter(tags[..k], 0)
  {
    if k == 0 {
      j := 0;
    } else {
      j := DepthIsBalance(tags, k - 1);
      assert tags[..k] == tags[..k - 1] + [tags[k - 1]];
      DepthSnoc(tags[..k - 1], tags[k - 1], 0);
      hide DepthAfter;
      if tags[k - 1].name == "head" && tags[k - 1].closing && DepthAfter(tags[..k - 1], 0) == 0 {
        j := k;
      }
    }
  }

  lemma {:induction false} DepthSnoc(tags: seq<Tag>, tag: Tag, depth: nat)
    ensures DepthAfter(tags + [tag], depth) == NextDepth(DepthAfter(tags, depth), tag)
    decreases |tags|
  {
    hide NextDepth;
    if tags == [] {
      assert (tags + [tag])[1..] == [];
    } else {
      assert (tags + [tag])[1..] == tags[1..] + [tag];
      DepthSnoc(tags[1..], tag, NextDepth(depth, tags[0]));
    }
  }

  ghost predicate Seen(tags: seq<Tag>, depth: nat, k: nat) {
    k < |tags| && IsCanonical(tags[k]) && DepthAfter(tags[..k], depth) > 0
  }

  lemma {:induction false} SeenLater(tags: seq<Tag>, depth: nat, k: nat)
    requires tags != []
    ensures Seen(tags, depth, k + 1) <==> Seen(tags[1..], NextDepth(depth, tags[0]), k)
    ensures Seen(tags, depth, 0) <==> IsCanonical(tags[0]) && depth > 0
  {
    hide IsCanonical, NextDepth;
    var rest := tags[1..];
    assert tags[..0] == [];
    if k < |rest| {
      assert tags[..k + 1][1..] == rest[..k] && tags[..k + 1][0] == tags[0] && tags[k + 1] == rest[k];
    }
  }

  lemma {:induction false} MetaIsSeen(tags: seq<Tag>, depth: nat) returns (k: nat)
    requires MetaInHead(tags, depth)
    ensures Seen(tags, depth, k)
    decreases |tags|
  {
    hide MetaOf, Flatten;
    if depth > 0 && IsCanonical(tags[0]) {
      k := 0;
      SeenLater(tags, depth, 0);
    } else {
      k := MetaIsSeen(tags[1..], NextDepth(depth, tags[0]));
      hide IsCanonical, NextDepth, Seen, MetaInHead;
      SeenLater(tags, depth, k);
      k := k + 1;
    }
  }

  lemma {:induction false} SeenIsMeta(tags: seq<Tag>, depth: nat, k: nat)
    requires Seen(tags, depth, k)
    ensures MetaInHead(tags, depth)
    decreases |tags|
  {
    hide MetaOf, Flatten;
    assert tags != [];
    hide IsCanonical, NextDepth, Seen;
    SeenLater(tags, depth, if k > 0 then k - 1 else 0);
    if k > 0 {
      SeenIsMeta(tags[1..], NextDepth(depth, tags[0]), k - 1);
    }
  }

  // One of these tags is exactly the policy's meta tag and stands where a head is open.
  ghost predicate PolicyAt(tags: seq<Tag>, k: nat) {
    k < |tags| && tags[k].raw == CSP_META && tags[k].name == "meta" && !tags[k].closing && InHead(tags, k)
  }

  lemma {:induction false} SeenIsPolicy(tags: seq<Tag>, k: nat)
    ensures Seen(tags, 0, k) <==> PolicyAt(tags, k)
  {
    if k < |tags| {
      var j := DepthIsBalance(tags, k);
    }
    hide DepthAfter, MetaOf, Flatten;
  }

  // A document has the policy if and only if one of its tags is exactly the policy's meta tag and
  // stands where a head is open.
  lemma {:induction false} CanonicalIsExact(document: string)
    ensures HasCanonicalMeta(document) <==> exists k: nat :: PolicyAt(Scan(document, 0, None), k)
  {
    hide Scan, MetaInHead, Seen, PolicyAt;
    var tags := Scan(document, 0, None);
    assert HasCanonicalMeta(document) == MetaInHead(tags, 0);
    if MetaInHead(tags, 0) {
      var k := MetaIsSeen(tags, 0);
      SeenIsPolicy(tags, k);
      assert PolicyAt(Scan(document, 0, None), k);
    } else if k: nat :| PolicyAt(tags, k) {
      SeenIsPolicy(tags, k);
      SeenIsMeta(tags, 0, k);
    }
  }

  // The first opening tag of a name.
  function FirstOpening(tags: seq<Tag>, name: string): (r: Option<nat>)
    ensures r.Some? ==> r.value < |tags| && tags[r.value].name == name && !tags[r.value].closing
    ensures forall i :: 0 <= i < (if r.Some? then r.value else |tags|) ==> !(tags[i].name == name && !tags[i].closing)
  {
    if tags == [] then None
    else if tags[0].name == name && !tags[0].closing then Some(0)
    else
      var r := FirstOpening(tags[1..], name);
      if r.Some? then Some(r.value + 1) else None
  }

  // What is put into the trimmed document, and where.
  datatype Change = Unchanged | InsertAt(at: nat, text: string) | Wrap

  function ChangeFor(trimmed: string): Change {
    var tags := Scan(trimmed, 0, None);
    var html, head := FirstOpening(tags, "html"), FirstOpening(tags, "head");
    if HasCanonicalMeta(trimmed) then Unchanged
    else if html.None? then Wrap
    else if head.Some? then InsertAt(tags[head.value].end, CSP_META)
    else InsertAt(tags[html.value].end, HEAD + CSP_META + HEAD_END)
  }

  function Apply(trimmed: string, change: Change): string {
    match change
    case Unchanged => trimmed
    case InsertAt(at, text) => if at <= |trimmed| then trimmed[..at] + text + trimmed[at..] else trimmed
    case Wrap => DOCTYPE + HTML + HEAD + CSP_META + HEAD_END + BODY + trimmed + BODY_END
  }

  function Normalize(document: string): string {
    Apply(Trim(document), ChangeFor(Trim(document)))
  }

  method NormalizeDocument(document: string) returns (r: string)
    ensures r == Normalize(document)
  {
    hide Scan;
    hide MetaInHead;
    hide Trim;
    hide MetaOf;
    hide Flatten;
    var trimmed := Trim(document);
    var canonical := HasCanonicalCspMetaInHead(trimmed);
    if canonical { return trimmed; }
    var tags := ScanHtmlTags(trimmed);
    var htmlTag := FirstOpening(tags, "html");
    if htmlTag.None? {
      return DOCTYPE + HTML + HEAD + CSP_META + HEAD_END + BODY + trimmed + BODY_END;
    }
    var headTag := FirstOpening(tags, "head");
    if headTag.Some? {
      TagsFollow(trimmed, 0, None, headTag.value);
      return trimmed[..tags[headTag.value].end] + CSP_META + trimmed[tags[headTag.value].end..];
    }
    TagsFollow(trimmed, 0, None, htmlTag.value);
    r := trimmed[..tags[htmlTag.value].end] + (HEAD + CSP_META + HEAD_END) + trimmed[tags[htmlTag.value].end..];
  }

  // ----- scanning the inserted text

  // No quote and no '>'.
  predicate Plain(s: string) {
    forall i :: 0 <= i < |s| ==> s[i] != '"' && s[i] != '\'' && s[i] != '>'
  }

  predicate NoDouble(s: string) {
    forall i :: 0 <= i < |s| ==> s[i] != '"'
  }

  lemma {:induction false} SkipPlain(s: string, k: nat, part: string)
    requires StartsAt(s, part, k) && Plain(part)
    ensures TagEnd(s, k, None) == TagEnd(s, k + |part|, None)
    decreases |part|
  {
    if part != [] {
      assert s[k] == s[k..k + |part|][0];
      assert s[k + 1..k + |part|] == part[1..];
      SkipPlain(s, k + 1, part[1..]);
    }
  }

  lemma {:induction false} SkipQuoted(s: string, k: nat, part: string)
    requires StartsAt(s, QUOTE + part + QUOTE, k) && NoDouble(part)
    ensures TagEnd(s, k, None) == TagEnd(s, k + |part| + 2, None)
  {
    var all := s[k..k + |part| + 2];
    assert all[0] == '"' && all[|part| + 1] == '"';
    assert s[k] == all[0] && s[k + |part| + 1] == all[|part| + 1];
    assert s[k + 1..k + 1 + |part|] == all[1..|part| + 1] == part;
    SkipInside(s, k + 1, part);
  }

  lemma {:induction false} SkipInside(s: string, k: nat, part: string)
    requires StartsAt(s, part, k) && NoDouble(part)
    ensures TagEnd(s, k, Some('"')) == TagEnd(s, k + |part|, Some('"'))
    decreases |part|
  {
    if part != [] {
      assert s[k] == s[k..k + |part|][0];
      assert s[k + 1..k + |part|] == part[1..];
      SkipInside(s, k + 1, part[1..]);
    }
  }

  lemma {:induction false} FlattenHasNoDouble(parts: seq<string>)
    requires forall i :: 0 <= i < |parts| ==> NoDouble(parts[i])
    ensures NoDouble(Flatten(parts))
  {
    if parts != [] {
      FlattenHasNoDouble(parts[1..]);
    }
  }

  lemma {:induction false} CspHasNoDoubleQuote()
    ensures NoDouble(CSP)
  {
    assert NoDouble("default-src 'none'; ");
    assert NoDouble("script-src 'unsafe-inline'; ");
    assert NoDouble("style-src 'unsafe-inline'; ");
    assert NoDouble("img-src data:; ");
    assert NoDouble("font-src 'none'; ");
    assert NoDouble("connect-src 'none'; ");
    assert NoDouble("frame-src 'none'; ");
    assert NoDouble("object-src 'none'; ");
    assert NoDouble("base-uri 'none'; ");
    assert NoDouble("form-action 'none'; ");
    assert NoDouble("media-src data:; ");
    assert NoDouble("navigate-to 'none';");
    FlattenHasNoDouble(DIRECTIVES);
  }

  lemma {:induction false} PartAt(s: string, before: string, part: string, after: string)
    requires s == before + part + after
    ensures StartsAt(s, part, |before|)
  {
  }

  lemma {:induction false} ThroughPlain(t: string, before: string, part: string, after: string)
    requires t == before + part + after && Plain(part)
    ensures TagEnd(t, |before|, None) == TagEnd(t, |before + part|, None)
  {
    PartAt(t, before, part, after);
    SkipPlain(t, |before|, part);
  }

  lemma {:induction false} ThroughQuoted(t: string, before: string, part: string, after: string)
    requires t == before + (QUOTE + part + QUOTE) + after && NoDouble(part)
    ensures TagEnd(t, |before|, None) == TagEnd(t, |before| + |part| + 2, None)
  {
    PartAt(t, before, QUOTE + part + QUOTE, after);
    SkipQuoted(t, |before|, part);
  }

  // A tag with two quoted values is one tag: its quotes are balanced.
  lemma {:induction false} MetaEnds(name: string, kind: string, content: string, policy: string)
    requires name != "" && Plain(name[1..]) && NoDouble(kind) && Plain(content) && NoDouble(policy)
    ensures TagEnd(MetaOf(name, kind, content, policy), 1, None) == Some(|MetaOf(name, kind, content, policy)| - 1)
  {
    hide TagEnd;
    hide StartsAt;
    hide Plain;
    hide NoDouble;
    var t := MetaOf(name, kind, content, policy);
    var k, p := QUOTE + kind + QUOTE, QUOTE + policy + QUOTE;
    ThroughPlain(t, name[..1], name[1..], k + content + p + ">") by {
      assert t == name[..1] + name[1..] + (k + content + p + ">");
    }
    ThroughQuoted(t, name, kind, content + p + ">") by {
      assert t == name + k + (content + p + ">");
    }
    ThroughPlain(t, name + k, content, p + ">") by {
      assert t == name + k + content + (p + ">");
    }
    ThroughQuoted(t, name + k + content, policy, ">") by {
      assert t == name + k + content + p + ">";
    }
    AtGreater(t);
  }

  lemma {:induction false} AtGreater(s: string)
    requires s != "" && s[|s| - 1] == '>'
    ensures TagEnd(s, |s| - 1, None) == Some(|s| - 1)
  {
  }

  // A tag's text in place is found as that tag.
  lemma {:induction false} TagEndShift(s: string, k: nat, t: string, j: nat, quote: Option<char>)
    requires StartsAt(s, t, k) && TagEnd(t, j, quote).Some?
    ensures TagEnd(s, k + j, quote) == Some(k + TagEnd(t, j, quote).value)
    decreases |t| - j
  {
    assert s[k + j] == s[k..k + |t|][j];
    if quote.Some? {
      TagEndShift(s, k, t, j + 1, if t[j] == quote.value then None else quote);
    } else if t[j] == '"' || t[j] == '\'' {
      TagEndShift(s, k, t, j + 1, Some(t[j]));
    } else if t[j] != '>' {
      TagEndShift(s, k, t, j + 1, None);
    }
  }

  // The text is `<name`, then no name character, and ends where it ends.
  predicate OpenTag(t: string, name: string) {
    && IsName(name) && |t| > |name| + 1 && t[0] == '<' && t[1..|name| + 1] == name && !IsNameChar(t[|name| + 1])
    && TagEnd(t, 1, None) == Some(|t| - 1)
  }

  lemma {:induction false} NameOf(t: string, name: string)
    requires OpenTag(t, name)
    ensures TagName(t) == Some(Name(name, false))
  {
    assert forall i :: 0 <= i < |name| ==> t[i + 1] == name[i];
    assert t[1] == name[0];
    NameRunTo(t, 2, |name| + 1);
    assert IsWord(t[|name|]) by { assert t[|name|] == name[|name| - 1]; }
    assert ToLower(t[1..|name| + 1]) == name;
  }

  lemma {:induction false} NameRunTo(s: string, k: nat, r: nat)
    requires k <= r < |s| && !IsNameChar(s[r]) && forall i :: k <= i < r ==> IsNameChar(s[i])
    ensures NameRun(s, k) == r
    decreases r - k
  {
    if k < r {
      NameRunTo(s, k + 1, r);
    }
  }

  lemma {:induction false} NotComment(s: string, k: nat, c: char)
    requires k + 1 < |s| && s[k + 1] == c && c != '!'
    ensures !StartsAt(s, "<!--", k)
  {
  }

  lemma {:induction false} StepHere(s: string, k: nat, t: string, name: string)
    requires StartsAt(s, t, k) && OpenTag(t, name)
    ensures ScanStep(s, k, None) == Found(Tag(t, name, false, k, k + |t|))
  {
    hide TagName;
    hide TagEnd;
    assert s[k] == s[k..k + |t|][0] && s[k + 1] == s[k..k + |t|][1] && t[1] == t[1..|name| + 1][0];
    assert StartsAt(s, "<", k) by { assert s[k..k + 1] == "<"; }
    NotComment(s, k, t[1]);
    TagEndShift(s, k, t, 1, None);
    NameOf(t, name);
  }

  lemma {:induction false} OpenTagFrom(t: string, front: string, name: string)
    requires IsName(name) && |front| == |name| + 2 && front[0] == '<' && front[1..|name| + 1] == name
    requires !IsNameChar(front[|name| + 1]) && |t| >= |front| && t[..|front|] == front
    requires TagEnd(t, 1, None) == Some(|t| - 1)
    ensures OpenTag(t, name)
  {
    hide TagEnd;
    assert t[1..|name| + 1] == front[1..|name| + 1];
    assert t[0] == front[0] && t[|name| + 1] == front[|name| + 1];
  }

  lemma {:induction false} MetaNameIsPlain()
    ensures |META_NAME| > 6 && META_NAME[0] == '<' && META_NAME[1..5] == "meta" && META_NAME[5] == ' '
    ensures Plain(META_NAME[1..])
  {
    assert Plain("<meta http-equiv=");
  }

  lemma {:induction false} MetaKindIsPlain()
    ensures NoDouble(META_KIND) && Plain(CONTENT)
  {
  }

  lemma {:induction false} MetaIsOpenTag()
    ensures OpenTag(CSP_META, "meta")
  {
    hide OpenTag;
    hide TagEnd;
    hide Plain;
    hide NoDouble;
    hide MetaOf;
    CspHasNoDoubleQuote();
    MetaNameIsPlain();
    MetaKindIsPlain();
    MetaOpens(META_NAME, META_KIND, CONTENT, CSP);
  }

  lemma {:induction false} MetaOpens(name: string, kind: string, content: string, policy: string)
    requires |name| > 6 && name[0] == '<' && name[1..5] == "meta" && name[5] == ' '
    requires Plain(name[1..]) && NoDouble(kind) && Plain(content) && NoDouble(policy)
    ensures OpenTag(MetaOf(name, kind, content, policy), "meta")
  {
    hide TagEnd;
    var t := MetaOf(name, kind, content, policy);
    MetaEnds(name, kind, content, policy);
    assert t[..6] == name[..6];
    assert name[..6][1..5] == name[1..5];
    OpenTagFrom(t, name[..6], "meta");
  }

  lemma {:induction false} HeadIsOpenTag()
    ensures OpenTag(HEAD, "head")
  {
    hide TagEnd;
    assert HEAD == "<" + "head" + ">";
    PartAt(HEAD, "<", "head", ">");
    assert HEAD[1..5] == "head";
    SkipPlain(HEAD, 1, "head");
    AtGreater(HEAD);
  }

  lemma {:induction false} HtmlIsOpenTag()
    ensures OpenTag(HTML, "html")
  {
    hide TagEnd;
    assert HTML[1..5] == "html";
    assert HTML == "<" + "html" + ">";
    PartAt(HTML, "<", "html", ">");
    SkipPlain(HTML, 1, "html");
    AtGreater(HTML);
  }

  // ----- depth of the head

  lemma {:induction false} MetaAppend(a: seq<Tag>, b: seq<Tag>, depth: nat)
    ensures MetaInHead(a + b, depth) <==> MetaInHead(a, depth) || MetaInHead(b, DepthAfter(a, depth))
  {
    if a == [] {
      assert a + b == b;
    } else {
      assert (a + b)[1..] == a[1..] + b && (a + b)[0] == a[0];
      MetaAppend(a[1..], b, NextDepth(depth, a[0]));
    }
  }

  lemma {:induction false} DepthAppend(a: seq<Tag>, tag: Tag, depth: nat)
    ensures DepthAfter(a + [tag], depth) == NextDepth(DepthAfter(a, depth), tag)
  {
    if a == [] {
      assert a + [tag] == [tag];
    } else {
      assert (a + [tag])[1..] == a[1..] + [tag] && (a + [tag])[0] == a[0];
      DepthAppend(a[1..], tag, NextDepth(depth, a[0]));
    }
  }

  // Without an opening head nothing is in a head.
  lemma {:induction false} NoHeadNoDepth(tags: seq<Tag>)
    requires forall i :: 0 <= i < |tags| ==> !(tags[i].name == "head" && !tags[i].closing)
    ensures DepthAfter(tags, 0) == 0
  {
    if tags != [] {
      NoHeadNoDepth(tags[1..]);
    }
  }

  // ----- the inserted tags are found

  lemma {:induction false} InsertedAt(trimmed: string, at: nat, text: string)
    requires at <= |trimmed|
    ensures SamePrefix(trimmed, trimmed[..at] + text + trimmed[at..], at)
    ensures StartsAt(trimmed[..at] + text + trimmed[at..], text, at)
  {
    PartAt(trimmed[..at] + text + trimmed[at..], trimmed[..at], text, trimmed[at..]);
  }

  // The text after a tag that is neither script nor style is scanned as markup, from that tag on.
  lemma {:induction false} ScanAfter(trimmed: string, other: string, i: nat)
    requires i < |Scan(trimmed, 0, None)| && SamePrefix(trimmed, other, Scan(trimmed, 0, None)[i].end)
    requires RawElement(Scan(trimmed, 0, None)[i]) == None
    ensures var tags := Scan(trimmed, 0, None);
            Scan(other, 0, None) == tags[..i + 1] + Scan(other, tags[i].end, None)
  {
    hide ScanStep;
    PrefixScansAlike(trimmed, other, Scan(trimmed, 0, None)[i].end, 0, None, i);
  }

  // A canonical meta at k is seen there, if a head is open.
  lemma {:induction false} MetaSeen(s: string, k: nat, depth: nat)
    requires StartsAt(s, CSP_META, k) && depth > 0
    ensures MetaInHead(Scan(s, k, None), depth)
  {
    hide ScanStep;
    hide OpenTag;
    hide MetaOf;
    MetaIsOpenTag();
    StepHere(s, k, CSP_META, "meta");
    assert Scan(s, k, None)[0] == Tag(CSP_META, "meta", false, k, k + |CSP_META|);
  }

  lemma {:induction false} PartIn(s: string, whole: string, before: string, part: string, after: string, k: nat)
    requires StartsAt(s, whole, k) && whole == before + part + after
    ensures StartsAt(s, part, k + |before|)
  {
    var all := s[k..k + |whole|];
    forall i | 0 <= i < |part|
      ensures s[k + |before| + i] == part[i]
    {
      assert all[|before| + i] == s[k + |before| + i] && whole[|before| + i] == part[i];
    }
    assert s[k + |before|..k + |before| + |part|] == part;
  }

  // An opening tag at k comes first, then whatever follows it.
  lemma {:induction false} TagFirst(s: string, k: nat, t: string, name: string, depth: nat)
    requires StartsAt(s, t, k) && OpenTag(t, name) && name != "script" && name != "style"
    requires MetaInHead(Scan(s, k + |t|, None), NextDepth(depth, Tag(t, name, false, k, k + |t|)))
    ensures MetaInHead(Scan(s, k, None), depth)
  {
    hide ScanStep;
    hide OpenTag;
    hide StartsAt;
    var tag := Tag(t, name, false, k, k + |t|);
    StepHere(s, k, t, name);
    assert Scan(s, k, None) == [tag] + Scan(s, tag.end, None);
  }

  lemma {:induction false} HeadParts(s: string, head: string, meta: string, end: string, k: nat)
    requires StartsAt(s, head + meta + end, k)
    ensures StartsAt(s, head, k) && StartsAt(s, meta, k + |head|)
  {
    assert head + meta + end == [] + head + (meta + end);
    PartIn(s, head + meta + end, [], head, meta + end, k);
    PartIn(s, head + meta + end, head, meta, end, k);
  }

  // A head with a canonical meta at k is seen there.
  lemma {:induction false} HeadSeen(s: string, k: nat, depth: nat)
    requires StartsAt(s, HEAD + CSP_META + HEAD_END, k)
    ensures MetaInHead(Scan(s, k, None), depth)
  {
    hide Scan;
    hide MetaInHead;
    hide OpenTag;
    hide MetaOf;
    hide StartsAt;
    HeadParts(s, HEAD, CSP_META, HEAD_END, k);
    HeadIsOpenTag();
    MetaSeen(s, k + |HEAD|, depth + 1);
    TagFirst(s, k, HEAD, "head", depth);
  }

  lemma {:induction false} HeadOpens(tags: seq<Tag>, i: nat)
    requires FirstOpening(tags, "head") == Some(i)
    ensures DepthAfter(tags[..i + 1], 0) == 1
  {
    NoHeadNoDepth(tags[..i]);
    DepthAppend(tags[..i], tags[i], 0);
    assert tags[..i + 1] == tags[..i] + [tags[i]];
  }

  // Inserting after a tag that opens no raw text: the tags up to it stay, the rest is scanned anew.
  lemma {:induction false} InsertedAfter(trimmed: string, i: nat, text: string, other: string)
    requires i < |Scan(trimmed, 0, None)| && RawElement(Scan(trimmed, 0, None)[i]) == None
    requires other == Apply(trimmed, InsertAt(Scan(trimmed, 0, None)[i].end, text))
    ensures var tags := Scan(trimmed, 0, None);
            && tags[i].end <= |trimmed| && StartsAt(other, text, tags[i].end)
            && Scan(other, 0, None) == tags[..i + 1] + Scan(other, tags[i].end, None)
  {
    hide Scan;
    TagsFollow(trimmed, 0, None, i);
    InsertedAt(trimmed, Scan(trimmed, 0, None)[i].end, text);
    ScanAfter(trimmed, other, i);
  }

  lemma {:induction false} InsertedInHead(trimmed: string, i: nat)
    requires FirstOpening(Scan(trimmed, 0, None), "head") == Some(i)
    ensures HasCanonicalMeta(Apply(trimmed, InsertAt(Scan(trimmed, 0, None)[i].end, CSP_META)))
  {
    hide Scan;
    hide MetaOf;
    hide MetaInHead;
    hide Apply;
    var tags := Scan(trimmed, 0, None);
    var other := Apply(trimmed, InsertAt(tags[i].end, CSP_META));
    InsertedAfter(trimmed, i, CSP_META, other);
    HeadOpens(tags, i);
    MetaSeen(other, tags[i].end, 1);
    MetaAppend(tags[..i + 1], Scan(other, tags[i].end, None), 0);
  }

  lemma {:induction false} InsertedWithHead(trimmed: string, i: nat)
    requires FirstOpening(Scan(trimmed, 0, None), "html") == Some(i)
    ensures HasCanonicalMeta(Apply(trimmed, InsertAt(Scan(trimmed, 0, None)[i].end, HEAD + CSP_META + HEAD_END)))
  {
    hide Scan;
    hide MetaOf;
    hide MetaInHead;
    hide Apply;
    var tags := Scan(trimmed, 0, None);
    var other := Apply(trimmed, InsertAt(tags[i].end, HEAD + CSP_META + HEAD_END));
    InsertedAfter(trimmed, i, HEAD + CSP_META + HEAD_END, other);
    HeadSeen(other, tags[i].end, DepthAfter(tags[..i + 1], 0));
    MetaAppend(tags[..i + 1], Scan(other, tags[i].end, None), 0);
  }

  lemma {:induction false} DoctypeIsNoTag()
    ensures TagEnd(DOCTYPE, 1, None) == Some(|DOCTYPE| - 1) && TagName(DOCTYPE) == None
    ensures DOCTYPE[0] == '<' && DOCTYPE[2] == 'd'
  {
    assert DOCTYPE[1] == '!' && !IsSpace('!');
    assert TagName(DOCTYPE) == None;
    hide TagName;
    hide TagEnd;
    ThroughPlain(DOCTYPE, "<", "!doctype html", ">") by {
      assert DOCTYPE == "<" + "!doctype html" + ">";
    }
    AtGreater(DOCTYPE);
  }

  lemma {:induction false} NotCommentYet(s: string, k: nat, c: char)
    requires k + 2 < |s| && s[k + 2] == c && c != '-'
    ensures !StartsAt(s, "<!--", k)
  {
  }

  lemma {:induction false} DoctypeIsSkipped(s: string)
    requires StartsAt(s, DOCTYPE, 0)
    ensures ScanStep(s, 0, None) == Skipped(|DOCTYPE|)
  {
    hide TagName;
    hide TagEnd;
    DoctypeIsNoTag();
    assert s[0] == s[0..0 + |DOCTYPE|][0] && s[2] == s[0..0 + |DOCTYPE|][2];
    assert StartsAt(s, "<", 0) by { assert s[0..1] == "<"; }
    NotCommentYet(s, 0, s[2]);
    TagEndShift(s, 0, DOCTYPE, 1, None);
    assert s[0..|DOCTYPE|] == DOCTYPE;
  }

  lemma {:induction false} WrapSeen(s: string)
    requires StartsAt(s, DOCTYPE, 0) && StartsAt(s, HTML, |DOCTYPE|)
    requires StartsAt(s, HEAD + CSP_META + HEAD_END, |DOCTYPE| + |HTML|)
    ensures HasCanonicalMeta(s)
  {
    hide ScanStep;
    hide MetaInHead;
    hide MetaOf;
    hide OpenTag;
    hide StartsAt;
    HtmlIsOpenTag();
    HeadSeen(s, |DOCTYPE| + |HTML|, 0);
    TagFirst(s, |DOCTYPE|, HTML, "html", 0);
    DoctypeIsSkipped(s);
  }

  lemma {:induction false} Regroup(a: string, b: string, c: string, d: string, e: string, f: string, g: string,
                                   h: string)
    ensures a + b + c + d + e + f + g + h == a + b + (c + d + e) + (f + g + h)
  {
    assert c + d + e + f + g + h == (c + d + e) + (f + g + h);
    assert a + b + c + d + e + f + g + h == a + b + (c + d + e + f + g + h);
  }

  lemma {:induction false} PartsAt(a: string, b: string, c: string, rest: string)
    ensures var s := a + b + c + rest;
            StartsAt(s, a, 0) && StartsAt(s, b, |a|) && StartsAt(s, c, |a| + |b|)
  {
  }

  lemma {:induction false} Wrapped(trimmed: string)
    ensures HasCanonicalMeta(Apply(trimmed, Wrap))
  {
    hide HasCanonicalMeta;
    hide MetaOf;
    hide StartsAt;
    Regroup(DOCTYPE, HTML, HEAD, CSP_META, HEAD_END, BODY, trimmed, BODY_END);
    PartsAt(DOCTYPE, HTML, HEAD + CSP_META + HEAD_END, BODY + trimmed + BODY_END);
    WrapSeen(Apply(trimmed, Wrap));
  }

  // ----- main results

  // Whatever the document, the canonical meta ends up inside an open head.
  lemma {:induction false} NormalizedIsCanonical(document: string)
    ensures HasCanonicalMeta(Normalize(document))
  {
    hide Scan;
    hide MetaOf;
    hide MetaInHead;
    hide Apply;
    var trimmed := Trim(document);
    var tags := Scan(trimmed, 0, None);
    match ChangeFor(trimmed)
    case Unchanged => ApplyNothing(trimmed);
    case Wrap => Wrapped(trimmed);
    case InsertAt(_, _) =>
      if FirstOpening(tags, "head").Some? {
        InsertedInHead(trimmed, FirstOpening(tags, "head").value);
      } else {
        InsertedWithHead(trimmed, FirstOpening(tags, "html").value);
      }
  }

  lemma {:induction false} ApplyNothing(trimmed: string)
    ensures Apply(trimmed, Unchanged) == trimmed
  {
  }

  lemma {:induction false} TrimmedEnds(s: string)
    ensures Trim(s) != "" ==> !IsSpace(Trim(s)[0]) && !IsSpace(Trim(s)[|Trim(s)| - 1])
  {
  }

  lemma {:induction false} InsertedStaysTrimmed(trimmed: string, at: nat, text: string)
    requires 0 < at <= |trimmed| && !IsSpace(trimmed[0]) && !IsSpace(trimmed[|trimmed| - 1])
    requires text != "" && !IsSpace(text[|text| - 1])
    ensures Trim(trimmed[..at] + text + trimmed[at..]) == trimmed[..at] + text + trimmed[at..]
  {
    hide Trim;
    TrimIdle(trimmed[..at] + text + trimmed[at..]);
  }

  lemma {:induction false} InsertionsEnd()
    ensures CSP_META != "" && CSP_META[|CSP_META| - 1] == '>'
    ensures HEAD + CSP_META + HEAD_END != "" && (HEAD + CSP_META + HEAD_END)[|HEAD + CSP_META + HEAD_END| - 1] == '>'
  {
    hide Flatten;
    assert HEAD_END[6] == '>';
  }

  lemma {:induction false} OpeningIsInside(trimmed: string, name: string)
    ensures var tags := Scan(trimmed, 0, None);
            var first := FirstOpening(tags, name);
            first.Some? ==> 0 < tags[first.value].end <= |trimmed|
  {
    hide Scan;
    var first := FirstOpening(Scan(trimmed, 0, None), name);
    if first.Some? { TagsFollow(trimmed, 0, None, first.value); }
  }

  // The insertion point lies after a tag, and what is inserted ends in '>'.
  lemma {:induction false} ChangeIsInside(trimmed: string)
    ensures var change := ChangeFor(trimmed);
            change.InsertAt? ==>
                  0 < change.at <= |trimmed| && change.text != "" && change.text[|change.text| - 1] == '>'
  {
    hide Scan;
    hide HasCanonicalMeta;
    hide MetaOf;
    hide FirstOpening;
    OpeningIsInside(trimmed, "html");
    OpeningIsInside(trimmed, "head");
    InsertionsEnd();
  }

  lemma {:induction false} FramedIsTrimmed(first: string, middle: string, last: string)
    requires first != "" && last != "" && !IsSpace(first[0]) && !IsSpace(last[|last| - 1])
    ensures Trim(first + middle + last) == first + middle + last
  {
    hide Trim;
    TrimIdle(first + middle + last);
  }

  lemma {:induction false} WrapStaysTrimmed(trimmed: string)
    ensures Trim(Apply(trimmed, Wrap)) == Apply(trimmed, Wrap)
  {
    hide Trim;
    hide MetaOf;
    var before := DOCTYPE + HTML + HEAD + CSP_META + HEAD_END + BODY;
    FirstStays(DOCTYPE, HTML, HEAD, CSP_META, HEAD_END, BODY);
    assert DOCTYPE[0] == '<' && BODY_END[13] == '>';
    FramedIsTrimmed(before, trimmed, BODY_END);
  }

  lemma {:induction false} FirstStays(a: string, b: string, c: string, d: string, e: string, f: string)
    requires a != ""
    ensures (a + b + c + d + e + f)[0] == a[0]
  {
  }

  lemma {:induction false} NormalizedIsTrimmed(document: string)
    ensures Trim(Normalize(document)) == Normalize(document)
  {
    hide ChangeFor;
    hide Trim;
    hide MetaOf;
    var trimmed := Trim(document);
    TrimmedEnds(document);
    ChangeIsInside(trimmed);
    match ChangeFor(trimmed)
    case Unchanged => TrimIdle(trimmed);
    case Wrap => WrapStaysTrimmed(trimmed);
    case InsertAt(at, text) => InsertedStaysTrimmed(trimmed, at, text);
  }

  // Normalizing again changes nothing.
  lemma {:induction false} NormalizeIsIdempotent(document: string)
    ensures Normalize(Normalize(document)) == Normalize(document)
  {
    hide HasCanonicalMeta;
    hide Trim;
    NormalizedIsCanonical(document);
    NormalizedIsTrimmed(document);
    assert ChangeFor(Normalize(document)) == Unchanged;
  }

  // The first opening tag of a name.
  ghost predicate FirstTag(tags: seq<Tag>, name: string, k: nat) {
    && k < |tags| && tags[k].name == name && !tags[k].closing
    && forall j :: 0 <= j < k && tags[j].name == name ==> tags[j].closing
  }

  ghost predicate HasTag(tags: seq<Tag>, name: string) {
    exists j :: 0 <= j < |tags| && tags[j].name == name && !tags[j].closing
  }

  // A document that has the policy stays. Otherwise the policy goes right behind the first head tag;
  // without one, in a head of its own right behind the first html tag; without that, in a new document
  // around the old one.
  lemma {:induction false} NormalizeIsExact(document: string)
    ensures var t := Trim(document); var tags := Scan(t, 0, None);
            if HasCanonicalMeta(t) then Normalize(document) == t
            else if !HasTag(tags, "html")
            then Normalize(document) == DOCTYPE + HTML + HEAD + CSP_META + HEAD_END + BODY + t + BODY_END
            else if HasTag(tags, "head")
            then forall k: nat :: FirstTag(tags, "head", k) ==>
                   && tags[k].end <= |t| && Normalize(document) == t[..tags[k].end] + CSP_META + t[tags[k].end..]
            else forall k: nat :: FirstTag(tags, "html", k) ==>
                   && tags[k].end <= |t|
                   && Normalize(document) == t[..tags[k].end] + (HEAD + CSP_META + HEAD_END) + t[tags[k].end..]
  {
    hide Scan, HasCanonicalMeta, Trim, FirstOpening, HasTag, FirstTag, MetaOf, Flatten;
    var t := Trim(document);
    var tags := Scan(t, 0, None);
    OpeningIs(tags, "html");
    OpeningIs(tags, "head");
    OpeningIsInside(t, "html");
    OpeningIsInside(t, "head");
  }

  lemma {:induction false} OpeningIs(tags: seq<Tag>, name: string)
    ensures HasTag(tags, name) <==> FirstOpening(tags, name).Some?
    ensures HasTag(tags, name) ==> exists k :: FirstTag(tags, name, k)
    ensures forall k: nat :: FirstTag(tags, name, k) ==> FirstOpening(tags, name) == Some(k)
  {
    var r := FirstOpening(tags, name);
    assert r.Some? ==> FirstTag(tags, name, r.value);
    forall k: nat | FirstTag(tags, name, k)
      ensures r == Some(k)
    {
      assert r.Some? ==> !(r.value < k) && !(k < r.value);
    }
  }

  // Take the inserted text out again.
  function Undo(normalized: string, change: Change): string {
    match change
    case Unchanged => normalized
    case InsertAt(at, text) =>
      if at + |text| <= |normalized| then normalized[..at] + normalized[at + |text|..] else normalized
    case Wrap =>
      var before := |DOCTYPE + HTML + HEAD + CSP_META + HEAD_END + BODY|;
      if before + |BODY_END| <= |normalized| then normalized[before..|normalized| - |BODY_END|] else normalized
  }

  // Deleting what was inserted gives the trimmed document back: nothing else was touched.
  lemma {:induction false} UndoRestores(document: string)
    ensures Undo(Normalize(document), ChangeFor(Trim(document))) == Trim(document)
  {
    hide ChangeFor;
    hide Trim;
    hide MetaOf;
    var trimmed := Trim(document);
    ChangeIsInside(trimmed);
    match ChangeFor(trimmed)
    case Unchanged =>
    case Wrap => UnwrapMiddle(DOCTYPE + HTML + HEAD + CSP_META + HEAD_END + BODY, trimmed, BODY_END);
    case InsertAt(at, text) => DeleteMiddle(trimmed, at, text);
  }

  lemma {:induction false} DeleteMiddle(trimmed: string, at: nat, text: string)
    requires at <= |trimmed|
    ensures var s := trimmed[..at] + text + trimmed[at..];
            at + |text| <= |s| && s[..at] + s[at + |text|..] == trimmed
  {
    var s := trimmed[..at] + text + trimmed[at..];
    assert s[..at] == trimmed[..at] && s[at + |text|..] == trimmed[at..];
  }

  lemma {:induction false} UnwrapMiddle(before: string, middle: string, after: string)
    ensures (before + middle + after)[|before|..|before + middle|] == middle
  {
  }
}
