/** Which tags, links and blanks the text extraction keeps. */
module HtmlLaws {
  import opened Options
  import opened Text
  import opened HtmlText

  // ---------------------------------------------------------------- tags

  /** The tags whose content is discarded, those that break lines around their content, the
      line break and the anchor, in any case. */
  lemma TagsByName(tag: string)
    ensures Skipped(tag) <==> Lower(tag) in {"script", "style", "head", "meta", "link", "noscript", "template"}
    ensures IsBlock(tag)
            <==> Lower(tag) in {"p", "div", "h1", "h2", "h3", "h4", "h5", "h6", "li", "tr", "blockquote"}
    ensures IsBreak(tag) <==> Lower(tag) == "br"
    ensures IsAnchor(tag) <==> Lower(tag) == "a"
  {
  }

  /** What a tag makes of its content: nothing when it is skipped, the content between line
      breaks when it is a block, the content alone otherwise; a line break is one newline. */
  lemma {:induction false} TextOfElement(tag: string, children: Html)
    ensures Skipped(tag) ==> ElementText(tag, children) == ""
    ensures IsBlock(tag) ==> ElementText(tag, children) == "\n" + VisibleText(children) + "\n"
    ensures !Skipped(tag) && !IsBlock(tag) && !IsBreak(tag) ==> ElementText(tag, children) == VisibleText(children)
    ensures IsBreak(tag) ==> OpenBreak(tag) == "\n"
  {
    if IsBlock(tag) {
      BlocksAreShown(tag);
    } else if !IsBreak(tag) {
      assert OpenBreak(tag) == "" && "" + VisibleText(children) + "" == VisibleText(children);
    }
  }

  lemma BlocksAreShown(tag: string)
    requires IsBlock(tag)
    ensures !Skipped(tag) && !IsBreak(tag) && OpenBreak(tag) == "\n"
  {
  }

  // ---------------------------------------------------------------- links

  /** A link target that may be recorded. */
  predicate Usable(v: string)
  {
    v != "" && !("javascript:" <= v) && !("data:" <= v) && !("vbscript:" <= v)
  }

  predicate UsableAt(attributes: seq<Attribute>, i: nat)
    requires i < |attributes|
  {
    attributes[i].name == "href" && attributes[i].value.Some? && Usable(attributes[i].value.value)
  }

  /** v is the first usable href of the attributes. */
  ghost predicate Links(attributes: seq<Attribute>, v: string)
  {
    exists i | 0 <= i < |attributes| ::
      UsableAt(attributes, i) && attributes[i].value == Some(v) && forall j | 0 <= j < i :: !UsableAt(attributes, j)
  }

  /** An anchor is accepted with exactly its first usable href. */
  lemma {:induction false} HrefIff(attributes: seq<Attribute>, v: string)
    ensures Href(attributes) == Some(v) <==> Links(attributes, v)
    ensures Href(attributes).None? <==> forall i | 0 <= i < |attributes| :: !UsableAt(attributes, i)
  {
    if attributes != [] {
      var rest := attributes[1..];
      HrefIff(rest, v);
      assert forall i | 0 <= i < |rest| :: UsableAt(rest, i) <==> UsableAt(attributes, i + 1);
      if Usable(if attributes[0].value.Some? then attributes[0].value.value else "") && attributes[0].name == "href" {
        assert UsableAt(attributes, 0);
      } else {
        assert !UsableAt(attributes, 0);
        LinksLater(attributes, v);
        forall i | 0 <= i < |attributes| && UsableAt(attributes, i)
          ensures UsableAt(rest, i - 1)
        {
        }
      }
    }
  }

  lemma LinksLater(attributes: seq<Attribute>, v: string)
    requires attributes != [] && !UsableAt(attributes, 0)
    ensures Links(attributes, v) <==> Links(attributes[1..], v)
  {
    var rest := attributes[1..];
    assert forall i | 0 <= i < |rest| :: UsableAt(rest, i) <==> UsableAt(attributes, i + 1);
    if Links(rest, v) {
      var i :| 0 <= i < |rest| && UsableAt(rest, i) && rest[i].value == Some(v)
               && forall j | 0 <= j < i :: !UsableAt(rest, j);
      assert UsableAt(attributes, i + 1);
      forall j | 0 <= j < i + 1
        ensures !UsableAt(attributes, j)
      {
        assert j > 0 ==> !UsableAt(rest, j - 1);
      }
    }
    if Links(attributes, v) {
      var i :| 0 <= i < |attributes| && UsableAt(attributes, i) && attributes[i].value == Some(v)
               && forall j | 0 <= j < i :: !UsableAt(attributes, j);
      assert UsableAt(rest, i - 1);
      forall j | 0 <= j < i - 1
        ensures !UsableAt(rest, j)
      {
        assert !UsableAt(attributes, j + 1);
      }
    }
  }

  ghost predicate AllUsable(x: Extraction)
  {
    && (x.href.Some? ==> Usable(x.href.value))
    && forall a | a in x.anchors :: Usable(a.href)
  }

  lemma HandleKeepsUsable(x: Extraction, e: Event)
    requires AllUsable(x)
    ensures AllUsable(Handle(x, e))
  {
    if e.StartTag? && Href(e.attributes).Some? {
      HrefIff(e.attributes, Href(e.attributes).value);
    }
  }

  /** Whatever the events, no recorded link is empty or of a blocked scheme. */
  lemma {:induction false} RecordedAreUsable(x: Extraction, events: seq<Event>)
    requires AllUsable(x)
    ensures AllUsable(Feed(x, events))
    decreases |events|
  {
    if events != [] {
      HandleKeepsUsable(x, events[0]);
      RecordedAreUsable(Handle(x, events[0]), events[1..]);
    }
  }

  /** An anchor element with these attributes and content stands in the document, outside any
      skipped element. */
  ghost predicate ShowsAnchor(d: Html, attributes: seq<Attribute>, children: Html)
  {
    match d
    case Empty => false
    case TextNode(_, next) => ShowsAnchor(next, attributes, children)
    case Void(_, _, next) => ShowsAnchor(next, attributes, children)
    case Element(tag, a, kids, next) =>
      || (Lower(tag) == "a" && a == attributes && kids == children)
      || (!Skipped(tag) && ShowsAnchor(kids, attributes, children))
      || ShowsAnchor(next, attributes, children)
  }

  ghost predicate FromAnchor(d: Html, anchor: Anchor)
  {
    exists attributes, children ::
      ShowsAnchor(d, attributes, children) && Links(attributes, anchor.href)
      && anchor.text == Strip(VisibleData(children))
  }

  lemma {:induction false} NoAnchorsShown(d: Html, attributes: seq<Attribute>, children: Html)
    requires !HasAnchor(d)
    ensures !ShowsAnchor(d, attributes, children)
  {
    match d
    case Empty =>
    case TextNode(_, next) => NoAnchorsShown(next, attributes, children);
    case Void(_, _, next) => NoAnchorsShown(next, attributes, children);
    case Element(_, _, kids, next) =>
      NoAnchorsShown(kids, attributes, children);
      NoAnchorsShown(next, attributes, children);
  }

  /** Every proper document: the links found are exactly those of its visible anchors with a
      usable href, each with the stripped text of its anchor. */
  lemma {:induction false} AnchorsMeaning(d: Html, anchor: Anchor)
    requires Proper(d)
    ensures anchor in Anchors(d) <==> FromAnchor(d, anchor)
    decreases d
  {
    match d {
      case Empty =>
      case TextNode(text, next) =>
        AnchorsMeaning(next, anchor);
        SameAnchors(d, next, anchor);
      case Void(tag, attributes, next) =>
        AnchorsMeaning(next, anchor);
        SameAnchors(d, next, anchor);
      case Element(tag, attributes, kids, next) =>
        AnchorsMeaning(kids, anchor);
        AnchorsMeaning(next, anchor);
        ElementAnchorsMeaning(tag, attributes, kids, next, anchor);
    }
  }

  lemma SameAnchors(d: Html, next: Html, anchor: Anchor)
    requires (d.TextNode? || d.Void?) && d.next == next
    ensures FromAnchor(d, anchor) <==> FromAnchor(next, anchor)
  {
    if FromAnchor(d, anchor) {
      var a, c :| ShowsAnchor(d, a, c) && Links(a, anchor.href) && anchor.text == Strip(VisibleData(c));
      assert ShowsAnchor(next, a, c);
    }
    if FromAnchor(next, anchor) {
      var a, c :| ShowsAnchor(next, a, c) && Links(a, anchor.href) && anchor.text == Strip(VisibleData(c));
      assert ShowsAnchor(d, a, c);
    }
  }

  /** This anchor element gives this pair. */
  ghost predicate Gives(attributes: seq<Attribute>, children: Html, anchor: Anchor)
  {
    Links(attributes, anchor.href) && anchor.text == Strip(VisibleData(children))
  }

  lemma FromElement(tag: string, attributes: seq<Attribute>, kids: Html, next: Html, anchor: Anchor)
    ensures FromAnchor(Element(tag, attributes, kids, next), anchor)
            <==> || (IsAnchor(tag) && Gives(attributes, kids, anchor))
                 || (!Skipped(tag) && FromAnchor(kids, anchor))
                 || FromAnchor(next, anchor)
  {
    var d := Element(tag, attributes, kids, next);
    if FromAnchor(d, anchor) {
      var a, c :| ShowsAnchor(d, a, c) && Links(a, anchor.href) && anchor.text == Strip(VisibleData(c));
      assert (IsAnchor(tag) && a == attributes && c == kids) || (!Skipped(tag) && ShowsAnchor(kids, a, c))
          || ShowsAnchor(next, a, c);
    }
    if IsAnchor(tag) && Gives(attributes, kids, anchor) {
      assert ShowsAnchor(d, attributes, kids);
    }
    if !Skipped(tag) && FromAnchor(kids, anchor) {
      var a, c :| ShowsAnchor(kids, a, c) && Links(a, anchor.href) && anchor.text == Strip(VisibleData(c));
      assert ShowsAnchor(d, a, c);
    }
    if FromAnchor(next, anchor) {
      var a, c :| ShowsAnchor(next, a, c) && Links(a, anchor.href) && anchor.text == Strip(VisibleData(c));
      assert ShowsAnchor(d, a, c);
    }
  }

  lemma ElementAnchorsMeaning(tag: string, attributes: seq<Attribute>, kids: Html, next: Html, anchor: Anchor)
    requires Proper(Element(tag, attributes, kids, next))
    requires anchor in Anchors(kids) <==> FromAnchor(kids, anchor)
    requires anchor in Anchors(next) <==> FromAnchor(next, anchor)
    ensures anchor in Anchors(Element(tag, attributes, kids, next))
            <==> FromAnchor(Element(tag, attributes, kids, next), anchor)
  {
    FromElement(tag, attributes, kids, next, anchor);
    HrefIff(attributes, anchor.href);
    if IsAnchor(tag) {
      AnchorsDoNotSkip(tag);
      NoAnchorsNoPairs(kids);
      assert !FromAnchor(kids, anchor);
    }
  }

  /** For every document, no link that is returned is empty or of a blocked scheme; for a proper
      one the links are exactly its visible anchors' with a usable href. */
  lemma {:induction false} ExtractedLinks(d: Html, anchor: Anchor)
    ensures anchor in Feed(START, Events(d)).anchors ==> Usable(anchor.href)
    ensures Proper(d) ==> (anchor in Feed(START, Events(d)).anchors <==> FromAnchor(d, anchor))
  {
    RecordedAreUsable(START, Events(d));
    if Proper(d) {
      ExtractionIsMeaning(d);
      AnchorsMeaning(d, anchor);
    }
  }

  // ---------------------------------------------------------------- blanks

  function Repeat(c: char, n: nat): string
  {
    seq(n, i => c)
  }

  lemma {:induction false} RunOf(n: nat, tail: string)
    requires tail != "" ==> tail[0] != '\n'
    ensures NewlineRun(Repeat('\n', n) + tail) == n
  {
    var s := Repeat('\n', n) + tail;
    if n > 0 {
      assert s[1..] == Repeat('\n', n - 1) + tail;
      RunOf(n - 1, tail);
    } else {
      assert s == tail;
    }
  }

  lemma {:induction false} RunBefore(x: string, more: string)
    requires x != "" && x[|x| - 1] != '\n'
    ensures NewlineRun(x + more) == NewlineRun(x) < |x|
  {
    if x[0] == '\n' {
      assert (x + more)[1..] == x[1..] + more;
      RunBefore(x[1..], more);
    }
  }

  /** How many characters the first step of collapsing newlines consumes, and what it keeps. */
  function NewlineStep(x: string): (k: nat)
    requires x != ""
    ensures 0 < k <= |x|
  {
    if x[0] != '\n' then 1 else NewlineRun(x)
  }

  function NewlinesKept(x: string): string
    requires x != ""
  {
    if x[0] == '\n' && NewlineRun(x) >= 3 then "\n\n" else x[..NewlineStep(x)]
  }

  lemma FirstNewlineStep(x: string, more: string)
    requires x != "" && x[|x| - 1] != '\n'
    ensures CollapseNewlines(x) == NewlinesKept(x) + CollapseNewlines(x[NewlineStep(x)..])
    ensures CollapseNewlines(x + more) == NewlinesKept(x) + CollapseNewlines(x[NewlineStep(x)..] + more)
  {
    var s, k := x + more, NewlineStep(x);
    RunBefore(x, more);
    assert s[0] == x[0] && s[k..] == x[k..] + more && s[..k] == x[..k];
    assert x[..1] == x[..k] || x[0] == '\n';
  }

  lemma Regroup(a: string, b: string, c: string, d: string)
    ensures a + (b + c + d) == (a + b) + c + d
  {
  }

  lemma NewlinesFirst(n: nat, y: string)
    requires n > 0 && (y != "" ==> y[0] != '\n')
    ensures CollapseNewlines(Repeat('\n', n) + y) == Repeat('\n', if n > 2 then 2 else n) + CollapseNewlines(y)
  {
    var run := Repeat('\n', n);
    var s := run + y;
    RunOf(n, y);
    assert s[0] == '\n' && s[n..] == y && s[..n] == run;
    assert Repeat('\n', 2) == "\n\n";
  }

  /** Up to two newlines in a row are kept, more become two, wherever they stand. */
  lemma {:induction false} NewlineRunsCollapse(x: string, n: nat, y: string)
    requires n > 0 && (x != "" ==> x[|x| - 1] != '\n') && (y != "" ==> y[0] != '\n')
    ensures CollapseNewlines(x + (Repeat('\n', n) + y))
         == CollapseNewlines(x) + Repeat('\n', if n > 2 then 2 else n) + CollapseNewlines(y)
    decreases |x|
  {
    var kept, tail := Repeat('\n', if n > 2 then 2 else n), Repeat('\n', n) + y;
    if x == "" {
      NewlinesFirst(n, y);
      NothingBefore(tail, kept, CollapseNewlines(y));
    } else {
      var a, later := NewlinesKept(x), x[NewlineStep(x)..];
      FirstNewlineStep(x, tail);
      assert later != "" ==> later[|later| - 1] == x[|x| - 1];
      NewlineRunsCollapse(later, n, y);
      Regroup(a, CollapseNewlines(later), kept, CollapseNewlines(y));
    }
  }

  lemma NothingBefore(a: string, b: string, c: string)
    ensures "" + a == a && "" + b + c == b + c
  {
  }

  lemma {:induction false} BlankRunOf(blanks: string, tail: string)
    requires (forall i | 0 <= i < |blanks| :: IsBlank(blanks[i])) && (tail != "" ==> !IsBlank(tail[0]))
    ensures BlankRun(blanks + tail) == |blanks|
  {
    var s := blanks + tail;
    if blanks != "" {
      assert s[1..] == blanks[1..] + tail;
      BlankRunOf(blanks[1..], tail);
    } else {
      assert s == tail;
    }
  }

  lemma {:induction false} BlankRunBefore(x: string, more: string)
    requires x != "" && !IsBlank(x[|x| - 1])
    ensures BlankRun(x + more) == BlankRun(x) < |x|
  {
    if IsBlank(x[0]) {
      assert (x + more)[1..] == x[1..] + more;
      BlankRunBefore(x[1..], more);
    }
  }

  function BlankStep(x: string): (k: nat)
    requires x != ""
    ensures 0 < k <= |x|
  {
    if !IsBlank(x[0]) then 1 else BlankRun(x)
  }

  function BlanksKept(x: string): string
    requires x != ""
  {
    if IsBlank(x[0]) then " " else x[..1]
  }

  lemma FirstBlankStep(x: string, more: string)
    requires x != "" && !IsBlank(x[|x| - 1])
    ensures CollapseBlanks(x) == BlanksKept(x) + CollapseBlanks(x[BlankStep(x)..])
    ensures CollapseBlanks(x + more) == BlanksKept(x) + CollapseBlanks(x[BlankStep(x)..] + more)
  {
    var s, k := x + more, BlankStep(x);
    BlankRunBefore(x, more);
    assert s[0] == x[0] && s[k..] == x[k..] + more && s[..1] == x[..1];
  }

  lemma BlanksFirst(blanks: string, y: string)
    requires blanks != "" && (forall i | 0 <= i < |blanks| :: IsBlank(blanks[i])) && (y != "" ==> !IsBlank(y[0]))
    ensures CollapseBlanks(blanks + y) == " " + CollapseBlanks(y)
  {
    var s := blanks + y;
    BlankRunOf(blanks, y);
    assert s[0] == blanks[0] && s[|blanks|..] == y;
  }

  /** Any run of spaces and tabs becomes exactly one space, wherever it stands. */
  lemma {:induction false} BlankRunsCollapse(x: string, blanks: string, y: string)
    requires blanks != "" && forall i | 0 <= i < |blanks| :: blanks[i] == ' ' || blanks[i] == '\t'
    requires (x != "" ==> x[|x| - 1] !in {' ', '\t'}) && (y != "" ==> y[0] !in {' ', '\t'})
    ensures CollapseBlanks(x + (blanks + y)) == CollapseBlanks(x) + " " + CollapseBlanks(y)
    decreases |x|
  {
    var tail := blanks + y;
    if x == "" {
      BlanksFirst(blanks, y);
      NothingBefore(tail, " ", CollapseBlanks(y));
    } else {
      var a, later := BlanksKept(x), x[BlankStep(x)..];
      FirstBlankStep(x, tail);
      assert later != "" ==> later[|later| - 1] == x[|x| - 1];
      BlankRunsCollapse(later, blanks, y);
      Regroup(a, CollapseBlanks(later), " ", CollapseBlanks(y));
    }
  }

  /** Text without blanks, and text without newlines, stays as it is. */
  lemma {:induction false} NothingToCollapse(s: string)
    ensures '\n' !in s ==> CollapseNewlines(s) == s
    ensures ' ' !in s && '\t' !in s ==> CollapseBlanks(s) == s
  {
    if '\n' !in s {
      TidyNewlinesStay(s);
    }
    if ' ' !in s && '\t' !in s {
      TidyBlanksStay(s);
    }
  }

  // ---------------------------------------------------------------- events that belong to no document

  /** Whatever the events, the skip depth never falls below zero: a stray end tag of a skipped
      element is ignored. */
  lemma {:induction false} DepthNeverNegative(x: Extraction, events: seq<Event>)
    requires x.skipDepth >= 0
    ensures Feed(x, events).skipDepth >= 0
    decreases |events|
  {
    if events != [] {
      DepthNeverNegative(Handle(x, events[0]), events[1..]);
    }
  }

  /** An end tag of an anchor records the open link also inside a skipped element, and closes it;
      without an open link it does nothing. A start tag of an anchor outside any skipped element
      takes the place of the link open before. */
  lemma {:induction false} AnchorTags(x: Extraction, tag: string, attributes: seq<Attribute>)
    requires IsAnchor(tag)
    ensures var y := Handle(x, EndTag(tag));
            && y.parts == x.parts && y.skipDepth == x.skipDepth && y.href == None
            && y.anchors == x.anchors + if x.href.Some? then [Anchor(x.href.value, Strip(Concat(x.hrefParts)))] else []
    ensures var y := Handle(x, StartTag(tag, attributes));
            y == if x.skipDepth > 0 then x else x.(href := Href(attributes), hrefParts := [])
  {
    AnchorsDoNotSkip(tag);
    assert x.parts + ([] + []) == x.parts && x.anchors + [] == x.anchors;
  }

  /** An end tag of a block breaks the line outside skipped elements only, opened or not. */
  lemma {:induction false} BlockEnds(x: Extraction, tag: string)
    requires IsBlock(tag)
    ensures Handle(x, EndTag(tag)) == if x.skipDepth == 0 then x.(parts := x.parts + ["\n"]) else x
  {
    BlocksAreShown(tag);
  }
}
