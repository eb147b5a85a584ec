/** Safe text extraction from HTML (app/messages/html_safe.py): the event handlers of the
    extractor against a recursive meaning of well-nested documents, and the final whitespace
    normalisation. The tokenizer of the HTML library is not part of this model: documents
    arrive as its events. */
module HtmlText {
  import opened Options
  import opened Text

  datatype Attribute = Attribute(name: string, value: Option<string>)

  datatype Event =
    | StartTag(tag: string, attributes: seq<Attribute>)
    | EndTag(tag: string)
    | Data(text: string)

  const SKIP_TAGS: set<string> := {"script", "style", "head", "meta", "link", "noscript", "template"}

  const BLOCK_TAGS: set<string> :=
    {"p", "div", "h1", "h2", "h3", "h4", "h5", "h6", "li", "tr", "blockquote"}

  datatype Anchor = Anchor(href: string, text: string)

  predicate Skipped(tag: string) { Lower(tag) in SKIP_TAGS }

  predicate IsBlock(tag: string) { Lower(tag) in BLOCK_TAGS }

  predicate IsBreak(tag: string) { Lower(tag) == "br" }

  predicate IsAnchor(tag: string) { Lower(tag) == "a" }

  predicate Blocked(href: string)
  {
    "javascript:" <= href || "data:" <= href || "vbscript:" <= href
  }

  /** The first usable href of an anchor. */
  function Href(attributes: seq<Attribute>): Option<string>
  {
    if attributes == [] then None
    else
      var a := attributes[0];
      if a.name == "href" && a.value.Some? && a.value.value != "" && !Blocked(a.value.value) then a.value
      else Href(attributes[1..])
  }

  function Concat(parts: seq<string>): string
  {
    if parts == [] then "" else Concat(parts[..|parts| - 1]) + parts[|parts| - 1]
  }

  lemma {:induction false} ConcatAppend(a: seq<string>, b: seq<string>)
    ensures Concat(a + b) == Concat(a) + Concat(b)
  {
    if b == [] {
      assert a + b == a;
    } else {
      assert (a + b)[..|a + b| - 1] == a + b[..|b| - 1];
      ConcatAppend(a, b[..|b| - 1]);
    }
  }

  // ---------------------------------------------------------------- specification of the handlers

  datatype Extraction = Extraction(
    skipDepth: int, parts: seq<string>, anchors: seq<Anchor>, href: Option<string>, hrefParts: seq<string>)

  const START := Extraction(0, [], [], None, [])

  function Handle(x: Extraction, e: Event): Extraction
  {
    match e
    case StartTag(tag, attributes) =>
      if Skipped(tag) then x.(skipDepth := x.skipDepth + 1)
      else if x.skipDepth > 0 then x
      else
        var broken := (if IsBlock(tag) then ["\n"] else []) + (if IsBreak(tag) then ["\n"] else []);
        var y := x.(parts := x.parts + broken);
        if IsAnchor(tag) then y.(href := Href(attributes), hrefParts := []) else y
    case EndTag(tag) =>
      if Skipped(tag) then x.(skipDepth := if x.skipDepth > 1 then x.skipDepth - 1 else 0)
      else
        var y := if IsAnchor(tag) && x.href.Some?
                 then x.(anchors := x.anchors + [Anchor(x.href.value, Strip(Concat(x.hrefParts)))],
                         href := None, hrefParts := [])
                 else x;
        if IsBlock(tag) && y.skipDepth == 0 then y.(parts := y.parts + ["\n"]) else y
    case Data(text) =>
      if x.skipDepth > 0 then x
      else
        x.(parts := x.parts + [text], hrefParts := if x.href.Some? then x.hrefParts + [text] else x.hrefParts)
  }

  function Feed(x: Extraction, events: seq<Event>): Extraction
    decreases |events|
  {
    if events == [] then x else Feed(Handle(x, events[0]), events[1..])
  }

  // ---------------------------------------------------------------- the extractor

  class TextExtractor {
    var skipDepth: int
    var parts: seq<string>
    var anchors: seq<Anchor>
    var currentAnchorHref: Option<string>
    var currentAnchorParts: seq<string>

    function State(): Extraction
      reads this
    {
      Extraction(skipDepth, parts, anchors, currentAnchorHref, currentAnchorParts)
    }

    constructor ()
      ensures State() == START
    {
      skipDepth, parts, anchors := 0, [], [];
      currentAnchorHref, currentAnchorParts := None, [];
    }

    method HandleStartTag(tag: string, attributes: seq<Attribute>)
      modifies this
      ensures State() == Handle(old(State()), StartTag(tag, attributes))
    {
      var lower := Lower(tag);
      if lower in SKIP_TAGS {
        skipDepth := skipDepth + 1;
        return;
      }
      if skipDepth > 0 {
        return;
      }
      if lower in BLOCK_TAGS {
        parts := parts + ["\n"];
      }
      if lower == "br" {
        parts := parts + ["\n"];
      }
      if lower == "a" {
        currentAnchorHref := Href(attributes);
        currentAnchorParts := [];
      }
    }

    method HandleEndTag(tag: string)
      modifies this
      ensures State() == Handle(old(State()), EndTag(tag))
    {
      var lower := Lower(tag);
      if lower in SKIP_TAGS {
        skipDepth := if skipDepth > 1 then skipDepth - 1 else 0;
        return;
      }
      if lower == "a" && currentAnchorHref.Some? {
        var linkText := Strip(Concat(currentAnchorParts));
        anchors := anchors + [Anchor(currentAnchorHref.value, linkText)];
        currentAnchorHref := None;
        currentAnchorParts := [];
      }
      if lower in BLOCK_TAGS {
        if skipDepth == 0 {
          parts := parts + ["\n"];
        }
      }
    }

    method HandleData(data: string)
      modifies this
      ensures State() == Handle(old(State()), Data(data))
    {
      if skipDepth > 0 {
        return;
      }
      if currentAnchorHref.Some? {
        currentAnchorParts := currentAnchorParts + [data];
      }
      parts := parts + [data];
    }

    /** Drives the handlers with the events of a document. */
    method FeedAll(events: seq<Event>)
      modifies this
      ensures State() == Feed(old(State()), events)
    {
      var i := 0;
      while i < |events|
        invariant 0 <= i <= |events|
        invariant Feed(State(), events[i..]) == Feed(old(State()), events)
      {
        assert events[i..][1..] == events[i + 1..];
        match events[i] {
          case StartTag(tag, attributes) => HandleStartTag(tag, attributes);
          case EndTag(tag) => HandleEndTag(tag);
          case Data(text) => HandleData(text);
        }
        i := i + 1;
      }
    }

    method GetText() returns (text: string)
      ensures text == Normalized(Concat(parts))
    {
      var raw := Concat(parts);
      raw := CollapseNewlines(raw);
      raw := CollapseBlanks(raw);
      text := Strip(raw);
    }
  }

  // ---------------------------------------------------------------- whitespace

  predicate IsBlank(c: char) { c == ' ' || c == '\t' }

  /** Length of the run of newlines at the front. */
  function NewlineRun(s: string): (n: nat)
    ensures n <= |s|
    ensures n < |s| ==> s[n] != '\n'
    ensures forall i | 0 <= i < n :: s[i] == '\n'
  {
    if s == "" || s[0] != '\n' then 0 else 1 + NewlineRun(s[1..])
  }

  /** Runs of three or more newlines become two. */
  function CollapseNewlines(s: string): string
    decreases |s|
  {
    if s == "" then ""
    else if s[0] != '\n' then s[..1] + CollapseNewlines(s[1..])
    else
      var n := NewlineRun(s);
      (if n >= 3 then "\n\n" else s[..n]) + CollapseNewlines(s[n..])
  }

  /** Length of the run of spaces and tabs at the front. */
  function BlankRun(s: string): (n: nat)
    ensures n <= |s|
    ensures n < |s| ==> !IsBlank(s[n])
    ensures forall i | 0 <= i < n :: IsBlank(s[i])
  {
    if s == "" || !IsBlank(s[0]) then 0 else 1 + BlankRun(s[1..])
  }

  /** Runs of spaces and tabs become one space. */
  function CollapseBlanks(s: string): string
    decreases |s|
  {
    if s == "" then ""
    else if !IsBlank(s[0]) then s[..1] + CollapseBlanks(s[1..])
    else " " + CollapseBlanks(s[BlankRun(s)..])
  }

  function Normalized(s: string): string
  {
    Strip(CollapseBlanks(CollapseNewlines(s)))
  }

  // ---------------------------------------------------------------- documents

  /** A forest in first-child, next-sibling form. Void is a tag that is never closed, like
      <br>. */
  datatype Html =
    | Empty
    | TextNode(text: string, next: Html)
    | Void(tag: string, attributes: seq<Attribute>, next: Html)
    | Element(tag: string, attributes: seq<Attribute>, children: Html, next: Html)

  /** The events of a document. */
  function Events(d: Html): seq<Event>
  {
    match d
    case Empty => []
    case TextNode(text, next) => [Data(text)] + Events(next)
    case Void(tag, attributes, next) => [StartTag(tag, attributes)] + Events(next)
    case Element(tag, attributes, children, next) =>
      [StartTag(tag, attributes)] + Events(children) + [EndTag(tag)] + Events(next)
  }

  predicate HasAnchor(d: Html)
  {
    match d
    case Empty => false
    case TextNode(_, next) => HasAnchor(next)
    case Void(tag, _, next) => IsAnchor(tag) || HasAnchor(next)
    case Element(tag, _, children, next) => IsAnchor(tag) || HasAnchor(children) || HasAnchor(next)
  }

  /** Every skip tag and every anchor is closed, and no anchor lies inside another. */
  predicate Proper(d: Html)
  {
    match d
    case Empty => true
    case TextNode(_, next) => Proper(next)
    case Void(tag, _, next) => !Skipped(tag) && !IsAnchor(tag) && Proper(next)
    case Element(tag, _, children, next) =>
      (IsAnchor(tag) ==> !HasAnchor(children)) && Proper(children) && Proper(next)
  }

  function OpenBreak(tag: string): string
  {
    (if IsBlock(tag) then "\n" else "") + (if IsBreak(tag) then "\n" else "")
  }

  /** The visible text: data in document order with line breaks at block elements; skipped
      elements contribute nothing. */
  function VisibleText(d: Html): string
    decreases d, 0
  {
    match d
    case Empty => ""
    case TextNode(text, next) => text + VisibleText(next)
    case Void(tag, _, next) => OpenBreak(tag) + VisibleText(next)
    case Element(tag, _, children, next) => ElementText(tag, children) + VisibleText(next)
  }

  function ElementText(tag: string, children: Html): string
    decreases children, 1
  {
    if Skipped(tag) then "" else OpenBreak(tag) + VisibleText(children) + (if IsBlock(tag) then "\n" else "")
  }

  /** The data alone, without line breaks: what link texts are made of. */
  function VisibleData(d: Html): string
    decreases d, 0
  {
    match d
    case Empty => ""
    case TextNode(text, next) => text + VisibleData(next)
    case Void(_, _, next) => VisibleData(next)
    case Element(tag, _, children, next) => ElementData(tag, children) + VisibleData(next)
  }

  function ElementData(tag: string, children: Html): string
    decreases children, 1
  {
    if Skipped(tag) then "" else VisibleData(children)
  }

  /** One pair per visible anchor with a usable href, in document order. */
  function Anchors(d: Html): seq<Anchor>
    decreases d, 0
  {
    match d
    case Empty => []
    case TextNode(_, next) => Anchors(next)
    case Void(_, _, next) => Anchors(next)
    case Element(tag, attributes, children, next) => ElementAnchors(tag, attributes, children) + Anchors(next)
  }

  function ElementAnchors(tag: string, attributes: seq<Attribute>, children: Html): seq<Anchor>
    decreases children, 1
  {
    if Skipped(tag) then []
    else if IsAnchor(tag) && Href(attributes).Some?
    then [Anchor(Href(attributes).value, Strip(VisibleData(children)))]
    else Anchors(children)
  }

  // ---------------------------------------------------------------- the machine computes the meaning

  lemma {:induction false} FeedAppend(x: Extraction, a: seq<Event>, b: seq<Event>)
    ensures Feed(x, a + b) == Feed(Feed(x, a), b)
    decreases |a|
  {
    if a == [] {
      assert a + b == b;
    } else {
      assert (a + b)[1..] == a[1..] + b;
      FeedAppend(Handle(x, a[0]), a[1..], b);
    }
  }

  lemma FeedFirst(x: Extraction, e: Event, rest: seq<Event>)
    ensures Feed(x, [e] + rest) == Feed(Handle(x, e), rest)
  {
    assert ([e] + rest)[1..] == rest;
  }

  lemma FeedElement(x: Extraction, tag: string, attributes: seq<Attribute>, children: Html, next: Html)
    ensures var inside := Feed(Handle(x, StartTag(tag, attributes)), Events(children));
            Feed(x, Events(Element(tag, attributes, children, next)))
            == Feed(Handle(inside, EndTag(tag)), Events(next))
  {
    var kids, rest := Events(children), [EndTag(tag)] + Events(next);
    assert Events(Element(tag, attributes, children, next)) == [StartTag(tag, attributes)] + (kids + rest);
    FeedFirst(x, StartTag(tag, attributes), kids + rest);
    var y := Handle(x, StartTag(tag, attributes));
    FeedAppend(y, kids, rest);
    FeedFirst(Feed(y, kids), EndTag(tag), Events(next));
  }

  lemma AnchorsDoNotSkip(tag: string)
    requires IsAnchor(tag)
    ensures !Skipped(tag) && !IsBlock(tag) && !IsBreak(tag)
  {
  }

  /** Inside a skipped element nothing changes. */
  lemma {:induction false} FeedSkipped(x: Extraction, d: Html)
    requires Proper(d) && x.skipDepth > 0
    requires x.href.Some? ==> !HasAnchor(d)
    ensures Feed(x, Events(d)) == x
    decreases d
  {
    match d {
      case Empty =>
      case TextNode(text, next) =>
        FeedFirst(x, Data(text), Events(next));
        FeedSkipped(x, next);
      case Void(tag, attributes, next) =>
        FeedFirst(x, StartTag(tag, attributes), Events(next));
        FeedSkipped(x, next);
      case Element(tag, attributes, children, next) =>
        FeedElement(x, tag, attributes, children, next);
        FeedSkipped(Handle(x, StartTag(tag, attributes)), children);
        FeedSkipped(x, next);
    }
  }

  /** y continues x with this text, link data and anchors, back outside any skipped element
      and under the same open anchor. */
  ghost predicate Continues(x: Extraction, y: Extraction, text: string, data: string, anchors: seq<Anchor>)
  {
    && y.skipDepth == x.skipDepth
    && Concat(y.parts) == Concat(x.parts) + text
    && y.anchors == x.anchors + anchors
    && y.href == x.href
    && (if x.href.Some? then Concat(y.hrefParts) == Concat(x.hrefParts) + data else y.hrefParts == x.hrefParts)
  }

  lemma ContinuesOn(x: Extraction, y: Extraction, z: Extraction, t: string, u: string, d: string, e: string,
                    a: seq<Anchor>, b: seq<Anchor>)
    requires Continues(x, y, t, d, a) && Continues(y, z, u, e, b)
    ensures Continues(x, z, t + u, d + e, a + b)
  {
    assert Concat(x.parts) + (t + u) == Concat(x.parts) + t + u;
    assert Concat(x.hrefParts) + (d + e) == Concat(x.hrefParts) + d + e;
    assert x.anchors + (a + b) == x.anchors + a + b;
  }

  lemma TextContinues(x: Extraction, text: string)
    requires x.skipDepth == 0
    ensures Continues(x, Handle(x, Data(text)), text, text, [])
  {
    ConcatAppend(x.parts, [text]);
    ConcatAppend(x.hrefParts, [text]);
    assert Concat([text]) == text;
  }

  /** A start tag that is neither skipped nor an anchor only adds its line breaks. */
  lemma StartContinues(x: Extraction, tag: string, attributes: seq<Attribute>)
    requires x.skipDepth == 0 && !Skipped(tag) && !IsAnchor(tag)
    ensures Continues(x, Handle(x, StartTag(tag, attributes)), OpenBreak(tag), "", [])
  {
    ConcatAppend(x.parts, (if IsBlock(tag) then ["\n"] else []) + (if IsBreak(tag) then ["\n"] else []));
    ConcatAppend(if IsBlock(tag) then ["\n"] else [], if IsBreak(tag) then ["\n"] else []);
    assert Concat(["\n"]) == "\n" && Concat([]) == "";
  }

  lemma EndContinues(x: Extraction, tag: string)
    requires x.skipDepth == 0 && !Skipped(tag) && !IsAnchor(tag)
    ensures Continues(x, Handle(x, EndTag(tag)), if IsBlock(tag) then "\n" else "", "", [])
  {
    ConcatAppend(x.parts, ["\n"]);
    assert Concat(["\n"]) == "\n";
  }

  /** An anchor around children that hold none: one pair when its href is usable. */
  lemma AnchorContinues(x: Extraction, tag: string, attributes: seq<Attribute>, inside: Extraction,
                        text: string, data: string)
    requires x.skipDepth == 0 && IsAnchor(tag) && x.href.None? && x.hrefParts == []
    requires Continues(Handle(x, StartTag(tag, attributes)), inside, text, data, [])
    ensures Continues(x, Handle(inside, EndTag(tag)), text, data,
                      if Href(attributes).Some? then [Anchor(Href(attributes).value, Strip(data))] else [])
  {
    AnchorsDoNotSkip(tag);
    var y := Handle(x, StartTag(tag, attributes));
    assert y.parts == x.parts;
    assert Concat([]) + data == data;
  }

  lemma SkippedContinues(x: Extraction, tag: string, attributes: seq<Attribute>, children: Html)
    requires x.skipDepth == 0 && Skipped(tag) && Proper(children)
    requires x.href.Some? ==> !HasAnchor(children)
    ensures var y := Handle(Feed(Handle(x, StartTag(tag, attributes)), Events(children)), EndTag(tag));
            Continues(x, y, "", "", [])
  {
    FeedSkipped(Handle(x, StartTag(tag, attributes)), children);
  }

  lemma NoAnchorsNoPairs(d: Html)
    requires !HasAnchor(d)
    ensures Anchors(d) == []
  {
  }

  /** Outside skipped elements, under an open anchor or not: the events of a document add
      its visible text, its link data and its anchors. */
  lemma {:induction false} FeedVisible(x: Extraction, d: Html)
    requires Proper(d) && x.skipDepth == 0
    requires if x.href.Some? then !HasAnchor(d) else x.hrefParts == []
    ensures Continues(x, Feed(x, Events(d)), VisibleText(d), VisibleData(d), Anchors(d))
    decreases d
  {
    match d {
      case Empty =>
      case TextNode(text, next) =>
        var y := Handle(x, Data(text));
        FeedFirst(x, Data(text), Events(next));
        TextContinues(x, text);
        FeedVisible(y, next);
        ContinuesOn(x, y, Feed(y, Events(next)), text, VisibleText(next), text, VisibleData(next), [], Anchors(next));
      case Void(tag, attributes, next) =>
        var y := Handle(x, StartTag(tag, attributes));
        FeedFirst(x, StartTag(tag, attributes), Events(next));
        StartContinues(x, tag, attributes);
        FeedVisible(y, next);
        ContinuesOn(x, y, Feed(y, Events(next)), OpenBreak(tag), VisibleText(next), "", VisibleData(next), [],
                    Anchors(next));
      case Element(tag, attributes, children, next) =>
        var inside := Feed(Handle(x, StartTag(tag, attributes)), Events(children));
        var y := Handle(inside, EndTag(tag));
        FeedElement(x, tag, attributes, children, next);
        if Skipped(tag) {
          SkippedContinues(x, tag, attributes, children);
        } else {
          FeedVisible(Handle(x, StartTag(tag, attributes)), children);
          ElementContinues(x, tag, attributes, children, inside);
        }
        FeedVisible(y, next);
        ContinuesOn(x, y, Feed(y, Events(next)), ElementText(tag, children), VisibleText(next),
                    ElementData(tag, children), VisibleData(next),
                    ElementAnchors(tag, attributes, children), Anchors(next));
    }
  }

  lemma ElementContinues(x: Extraction, tag: string, attributes: seq<Attribute>, children: Html, inside: Extraction)
    requires x.skipDepth == 0 && !Skipped(tag)
    requires x.href.Some? ==> !IsAnchor(tag)
    requires x.href.None? ==> x.hrefParts == []
    requires IsAnchor(tag) ==> !HasAnchor(children)
    requires Continues(Handle(x, StartTag(tag, attributes)), inside, VisibleText(children), VisibleData(children),
                       Anchors(children))
    ensures Continues(x, Handle(inside, EndTag(tag)), ElementText(tag, children), ElementData(tag, children),
                      ElementAnchors(tag, attributes, children))
  {
    var t, d, a := VisibleText(children), VisibleData(children), Anchors(children);
    if IsAnchor(tag) {
      NoAnchorsNoPairs(children);
      AnchorContinues(x, tag, attributes, inside, t, d);
      AnchorsDoNotSkip(tag);
      assert "" + t + "" == t;
    } else {
      StartContinues(x, tag, attributes);
      ContinuesOn(x, Handle(x, StartTag(tag, attributes)), inside, OpenBreak(tag), t, "", d, [], a);
      EndContinues(inside, tag);
      ContinuesOn(x, inside, Handle(inside, EndTag(tag)), OpenBreak(tag) + t, if IsBlock(tag) then "\n" else "",
                  "" + d, "", [] + a, []);
      assert ("" + d) + "" == d && ([] + a) + [] == a;
    }
  }

  /** A whole proper document, fed to a new extractor: its visible text is collected, every
      visible anchor is recorded in order, and no skipped element or anchor is left open. */
  lemma ExtractionIsMeaning(d: Html)
    requires Proper(d)
    ensures var x := Feed(START, Events(d));
            && Concat(x.parts) == VisibleText(d)
            && x.anchors == Anchors(d)
            && x.skipDepth == 0 && x.href == None && x.hrefParts == []
  {
    FeedVisible(START, d);
    assert Concat(START.parts) + VisibleText(d) == VisibleText(d);
    assert START.anchors + Anchors(d) == Anchors(d);
  }

  // ---------------------------------------------------------------- skip tags that are never closed

  /** Number of skip tags that are never closed. */
  function OpenSkips(d: Html): nat
  {
    match d
    case Empty => 0
    case TextNode(_, next) => OpenSkips(next)
    case Void(tag, _, next) => (if Skipped(tag) then 1 else 0) + OpenSkips(next)
    case Element(_, _, children, next) => OpenSkips(children) + OpenSkips(next)
  }

  /** The visible text that follows the first skip tag that is never closed. */
  function HiddenText(d: Html): string
    decreases d, 0
  {
    match d
    case Empty => ""
    case TextNode(_, next) => HiddenText(next)
    case Void(tag, _, next) => if Skipped(tag) then VisibleText(next) else HiddenText(next)
    case Element(tag, _, children, next) =>
      if OpenSkips(children) > 0 then HiddenInElement(tag, children) + VisibleText(next) else HiddenText(next)
  }

  function HiddenInElement(tag: string, children: Html): string
    decreases children, 1
  {
    if Skipped(tag) then "" else HiddenText(children) + (if IsBlock(tag) then "\n" else "")
  }

  /** Any document leaves the skip depth raised by the skip tags it does not close. */
  lemma {:induction false} SkipDepthCounts(x: Extraction, d: Html)
    requires x.skipDepth >= 0
    ensures Feed(x, Events(d)).skipDepth == x.skipDepth + OpenSkips(d)
    decreases d
  {
    match d {
      case Empty =>
      case TextNode(text, next) =>
        FeedFirst(x, Data(text), Events(next));
        SkipDepthCounts(Handle(x, Data(text)), next);
      case Void(tag, attributes, next) =>
        FeedFirst(x, StartTag(tag, attributes), Events(next));
        SkipDepthCounts(Handle(x, StartTag(tag, attributes)), next);
      case Element(tag, attributes, children, next) =>
        FeedElement(x, tag, attributes, children, next);
        var y := Handle(x, StartTag(tag, attributes));
        SkipDepthCounts(y, children);
        SkipDepthCounts(Handle(Feed(y, Events(children)), EndTag(tag)), next);
    }
  }

  /** While the skip depth is positive no text is collected, from any document. */
  lemma {:induction false} NothingCollected(x: Extraction, d: Html)
    requires x.skipDepth > 0
    ensures Feed(x, Events(d)).parts == x.parts
    decreases d
  {
    match d {
      case Empty =>
      case TextNode(text, next) =>
        FeedFirst(x, Data(text), Events(next));
        NothingCollected(x, next);
      case Void(tag, attributes, next) =>
        FeedFirst(x, StartTag(tag, attributes), Events(next));
        NothingCollected(Handle(x, StartTag(tag, attributes)), next);
      case Element(tag, attributes, children, next) =>
        FeedElement(x, tag, attributes, children, next);
        var y := Handle(x, StartTag(tag, attributes));
        SkipDepthCounts(y, children);
        NothingCollected(y, children);
        NothingCollected(Handle(Feed(y, Events(children)), EndTag(tag)), next);
    }
  }

  lemma {:induction false} NothingHidden(d: Html)
    requires OpenSkips(d) == 0
    ensures HiddenText(d) == ""
  {
    match d
    case Empty =>
    case TextNode(_, next) => NothingHidden(next);
    case Void(_, _, next) => NothingHidden(next);
    case Element(_, _, _, next) => NothingHidden(next);
  }

  lemma OneTagCollected(x: Extraction, e: Event)
    requires x.skipDepth == 0
    ensures var y := Handle(x, e);
            match e
            case Data(text) => Concat(y.parts) == Concat(x.parts) + text
            case StartTag(tag, _) => Concat(y.parts) == Concat(x.parts) + if Skipped(tag) then "" else OpenBreak(tag)
            case EndTag(tag) =>
              Concat(y.parts) == Concat(x.parts) + if !Skipped(tag) && IsBlock(tag) then "\n" else ""
  {
    match e
    case Data(text) =>
      ConcatAppend(x.parts, [text]);
      assert Concat([text]) == text;
    case StartTag(tag, _) =>
      var broken := (if IsBlock(tag) then ["\n"] else []) + (if IsBreak(tag) then ["\n"] else []);
      ConcatAppend(x.parts, broken);
      assert Concat(broken) == OpenBreak(tag);
    case EndTag(tag) =>
      ConcatAppend(x.parts, ["\n"]);
      assert Concat(["\n"]) == "\n";
  }

  lemma Regroup(final: string, y: string, x: string, hidden: string, text: string, rest: string, hiddenRest: string)
    requires y + hidden == x + text
    ensures final == y ==> final + (hidden + rest) == x + (text + rest)
    ensures hidden == "" && final + hiddenRest == y + rest ==> final + hiddenRest == x + (text + rest)
  {
    assert y + (hidden + rest) == (y + hidden) + rest;
    assert x + (text + rest) == (x + text) + rest;
    assert hidden == "" ==> y + hidden == y;
  }

  /** For every document whatsoever: what is collected, followed by the hidden text, is the
      visible text. */
  lemma {:induction false} CollectedThenHidden(x: Extraction, d: Html)
    requires x.skipDepth == 0
    ensures Concat(Feed(x, Events(d)).parts) + HiddenText(d) == Concat(x.parts) + VisibleText(d)
    decreases d, 0
  {
    match d {
      case Empty =>
      case TextNode(text, next) =>
        TagCollectedThenHidden(x, Data(text), next, text);
      case Void(tag, attributes, next) =>
        TagCollectedThenHidden(x, StartTag(tag, attributes), next, OpenBreak(tag));
      case Element(tag, attributes, children, next) =>
        var y := Handle(Feed(Handle(x, StartTag(tag, attributes)), Events(children)), EndTag(tag));
        var hidden := if OpenSkips(children) > 0 then HiddenInElement(tag, children) else "";
        ElementCollectedThenHidden(x, tag, attributes, children);
        FeedElement(x, tag, attributes, children, next);
        var final := Concat(Feed(y, Events(next)).parts);
        if OpenSkips(children) > 0 {
          NothingCollected(y, next);
        } else {
          CollectedThenHidden(y, next);
        }
        Regroup(final, Concat(y.parts), Concat(x.parts), hidden, ElementText(tag, children), VisibleText(next),
                HiddenText(next));
    }
  }

  /** The same after one piece of text or one tag that is never closed. */
  lemma {:induction false} TagCollectedThenHidden(x: Extraction, e: Event, next: Html, text: string)
    requires x.skipDepth == 0
    requires match e
             case Data(data) => text == data
             case StartTag(tag, _) => text == OpenBreak(tag)
             case EndTag(_) => false
    ensures Concat(Feed(x, [e] + Events(next)).parts)
            + (if e.StartTag? && Skipped(e.tag) then VisibleText(next) else HiddenText(next))
            == Concat(x.parts) + (text + VisibleText(next))
    decreases next, 1
  {
    var y := Handle(x, e);
    FeedFirst(x, e, Events(next));
    OneTagCollected(x, e);
    if e.StartTag? && Skipped(e.tag) {
      SkipTagsDoNotBreak(e.tag);
      NothingCollected(y, next);
    } else {
      CollectedThenHidden(y, next);
    }
    Regroup(Concat(Feed(y, Events(next)).parts), Concat(y.parts), Concat(x.parts), "", text, VisibleText(next),
            HiddenText(next));
  }

  lemma {:induction false} ElementCollectedThenHidden(x: Extraction, tag: string, attributes: seq<Attribute>,
                                                      children: Html)
    requires x.skipDepth == 0
    ensures var y := Handle(Feed(Handle(x, StartTag(tag, attributes)), Events(children)), EndTag(tag));
            && y.skipDepth == OpenSkips(children)
            && Concat(y.parts) + (if OpenSkips(children) > 0 then HiddenInElement(tag, children) else "")
               == Concat(x.parts) + ElementText(tag, children)
    decreases children, 1
  {
    var a := Handle(x, StartTag(tag, attributes));
    var b := Feed(a, Events(children));
    SkipDepthCounts(a, children);
    if Skipped(tag) {
      NothingCollected(a, children);
    } else {
      var breakAfter := if IsBlock(tag) then "\n" else "";
      OneTagCollected(x, StartTag(tag, attributes));
      CollectedThenHidden(a, children);
      ElementRegroups(Concat(x.parts), OpenBreak(tag), Concat(b.parts), HiddenText(children), VisibleText(children),
                      breakAfter);
      if OpenSkips(children) == 0 {
        NothingHidden(children);
        OneTagCollected(b, EndTag(tag));
      }
    }
  }

  lemma ElementRegroups(x: string, open: string, b: string, hidden: string, text: string, close: string)
    requires b + hidden == x + open + text
    ensures b + (hidden + close) == x + (open + text + close)
    ensures hidden == "" ==> b + close == x + (open + text + close)
  {
    assert b + (hidden + close) == (b + hidden) + close;
    assert x + (open + text + close) == (x + open + text) + close;
    assert hidden == "" ==> b + hidden == b;
  }

  /** Every document, with any number of skip tags left open anywhere: the collected text is
      the visible text exactly when nothing visible follows the first of them, and none was
      left open exactly when the skip depth is back at 0. */
  lemma UnclosedTagKeepsRest(d: Html)
    ensures Concat(Feed(START, Events(d)).parts) + HiddenText(d) == VisibleText(d)
    ensures Concat(Feed(START, Events(d)).parts) == VisibleText(d) <==> HiddenText(d) == ""
    ensures Feed(START, Events(d)).skipDepth == OpenSkips(d)
  {
    CollectedThenHidden(START, d);
    SkipDepthCounts(START, d);
    assert Concat(START.parts) + VisibleText(d) == VisibleText(d);
    var collected := Concat(Feed(START, Events(d)).parts);
    assert collected + HiddenText(d) == VisibleText(d);
    assert |collected + HiddenText(d)| == |collected| + |HiddenText(d)|;
  }

  /** A page with a meta tag in its head loses its whole body. */
  lemma HeadMetaHidesBody()
    ensures var page := Element("head", [], Void("meta", [], Empty), TextNode("Hi", Empty));
            && VisibleText(page) == HiddenText(page) == "Hi"
            && Concat(Feed(START, Events(page)).parts) == "" && Feed(START, Events(page)).skipDepth == 1
  {
    var page := Element("head", [], Void("meta", [], Empty), TextNode("Hi", Empty));
    assert Lower("head") == "head" && Lower("meta") == "meta";
    assert Skipped("head") && Skipped("meta");
    UnclosedTagKeepsRest(page);
  }

  lemma SkipTagsDoNotBreak(tag: string)
    requires Skipped(tag)
    ensures OpenBreak(tag) == ""
  {
  }

  // ---------------------------------------------------------------- end to end

  /** The text and the links of a document. */
  method ExtractText(d: Html) returns (text: string, anchors: seq<Anchor>)
    ensures Proper(d) ==> text == Normalized(VisibleText(d)) && anchors == Anchors(d)
    ensures HiddenText(d) == "" ==> text == Normalized(VisibleText(d))
    ensures text == Normalized(Concat(Feed(START, Events(d)).parts)) && anchors == Feed(START, Events(d)).anchors
  {
    var extractor := new TextExtractor();
    extractor.FeedAll(Events(d));
    text := extractor.GetText();
    anchors := extractor.anchors;
    if Proper(d) {
      ExtractionIsMeaning(d);
    }
    UnclosedTagKeepsRest(d);
  }

  // ---------------------------------------------------------------- normalisation is a projection

  predicate NoTripleNewline(s: string)
  {
    forall i | 0 <= i < |s| - 2 :: !(s[i] == '\n' && s[i + 1] == '\n' && s[i + 2] == '\n')
  }

  /** No tab, and no two adjacent spaces. */
  predicate SingleSpaced(s: string)
  {
    && '\t' !in s
    && forall i | 0 <= i < |s| - 1 :: !(s[i] == ' ' && s[i + 1] == ' ')
  }

  predicate Trimmed(s: string)
  {
    s != "" ==> !IsSpace(s[0]) && !IsSpace(s[|s| - 1])
  }

  /** The characters that are not whitespace, in order. */
  function Ink(s: string): string
  {
    if s == "" then "" else (if IsSpace(s[0]) then "" else s[..1]) + Ink(s[1..])
  }

  lemma {:induction false} InkAppend(a: string, b: string)
    ensures Ink(a + b) == Ink(a) + Ink(b)
  {
    if a == "" {
      assert a + b == b;
    } else {
      var s, first := a + b, if IsSpace(a[0]) then "" else a[..1];
      assert s[0] == a[0] && s[1..] == a[1..] + b && s[..1] == a[..1];
      InkAppend(a[1..], b);
      assert Ink(s) == first + (Ink(a[1..]) + Ink(b)) == (first + Ink(a[1..])) + Ink(b);
    }
  }

  lemma {:induction false} InkOfSpaces(s: string)
    requires forall i | 0 <= i < |s| :: IsSpace(s[i])
    ensures Ink(s) == ""
  {
    if s != "" {
      InkOfSpaces(s[1..]);
    }
  }

  lemma {:induction false} NewlinesCollapsed(s: string)
    ensures NoTripleNewline(CollapseNewlines(s))
    ensures CollapseNewlines(s) != "" <==> s != ""
    ensures s != "" ==> CollapseNewlines(s)[0] == s[0]
    decreases |s|
  {
    if s != "" {
      if s[0] != '\n' {
        NewlinesCollapsed(s[1..]);
      } else {
        NewlinesCollapsed(s[NewlineRun(s)..]);
      }
    }
  }

  lemma {:induction false} NewlinesKeepInk(s: string)
    ensures Ink(CollapseNewlines(s)) == Ink(s)
    decreases |s|
  {
    if s != "" {
      var n := if s[0] != '\n' then 1 else NewlineRun(s);
      var kept := if s[0] == '\n' && n >= 3 then "\n\n" else s[..n];
      NewlinesKeepInk(s[n..]);
      InkAppend(kept, CollapseNewlines(s[n..]));
      InkAppend(s[..n], s[n..]);
      assert s == s[..n] + s[n..];
      if s[0] == '\n' {
        InkOfSpaces(kept);
        InkOfSpaces(s[..n]);
      }
    }
  }

  lemma {:induction false} BlanksCollapsed(s: string)
    ensures SingleSpaced(CollapseBlanks(s))
    ensures CollapseBlanks(s) != "" <==> s != ""
    ensures s != "" ==> CollapseBlanks(s)[0] == if IsBlank(s[0]) then ' ' else s[0]
    decreases |s|
  {
    if s != "" {
      if !IsBlank(s[0]) {
        BlanksCollapsed(s[1..]);
      } else {
        BlanksCollapsed(s[BlankRun(s)..]);
      }
    }
  }

  lemma {:induction false} BlanksKeepInk(s: string)
    ensures Ink(CollapseBlanks(s)) == Ink(s)
    decreases |s|
  {
    if s != "" {
      var n := if !IsBlank(s[0]) then 1 else BlankRun(s);
      var kept := if IsBlank(s[0]) then " " else s[..n];
      BlanksKeepInk(s[n..]);
      InkAppend(kept, CollapseBlanks(s[n..]));
      InkAppend(s[..n], s[n..]);
      assert s == s[..n] + s[n..];
      if IsBlank(s[0]) {
        InkOfSpaces(kept);
        InkOfSpaces(s[..n]);
      }
    }
  }

  lemma {:induction false} BlanksKeepNewlines(s: string)
    requires NoTripleNewline(s)
    ensures NoTripleNewline(CollapseBlanks(s))
    decreases |s|
  {
    if s != "" {
      if !IsBlank(s[0]) {
        BlanksKeepNewlines(s[1..]);
        BlanksCollapsed(s[1..]);
        if s[0] == '\n' && |s| > 2 && s[1] == '\n' {
          BlanksCollapsed(s[2..]);
          assert s[1..][1..] == s[2..];
        }
      } else {
        BlanksKeepNewlines(s[BlankRun(s)..]);
      }
    }
  }

  /** What stripping leaves is a piece of the text that holds all its ink. */
  lemma {:induction false} LStripPiece(s: string) returns (k: nat)
    ensures k <= |s| && LStrip(s) == s[k..] && Ink(LStrip(s)) == Ink(s)
  {
    if s != "" && IsSpace(s[0]) {
      k := LStripPiece(s[1..]);
      k := k + 1;
    } else {
      k := 0;
    }
  }

  lemma {:induction false} RStripPiece(s: string) returns (k: nat)
    ensures k <= |s| && RStrip(s) == s[..k] && Ink(RStrip(s)) == Ink(s)
    ensures s != "" && !IsSpace(s[0]) ==> k > 0
  {
    if s != "" && IsSpace(s[|s| - 1]) {
      var front := s[..|s| - 1];
      k := RStripPiece(front);
      assert s == front + s[|s| - 1..];
      InkAppend(front, s[|s| - 1..]);
      InkOfSpaces(s[|s| - 1..]);
      assert front[..k] == s[..k];
    } else {
      k := |s|;
    }
  }

  lemma {:induction false} StripPiece(s: string) returns (i: nat, j: nat)
    ensures i <= j <= |s| && Strip(s) == s[i..j]
    ensures Trimmed(Strip(s)) && Ink(Strip(s)) == Ink(s)
  {
    i := LStripPiece(s);
    var k := RStripPiece(LStrip(s));
    j := i + k;
    assert s[i..][..k] == s[i..j];
  }

  /** The normalised text has no run of three newlines, no tab, no two adjacent spaces and
      no outer whitespace, and keeps every other character in order. */
  lemma NormalizedIsTidy(s: string)
    ensures var t := Normalized(s);
            NoTripleNewline(t) && SingleSpaced(t) && Trimmed(t) && Ink(t) == Ink(s)
  {
    var a := CollapseNewlines(s);
    var b := CollapseBlanks(a);
    NewlinesCollapsed(s);
    NewlinesKeepInk(s);
    BlanksCollapsed(a);
    BlanksKeepInk(a);
    BlanksKeepNewlines(a);
    var i, j := StripPiece(b);
    PieceIsTidy(b, i, j);
  }

  lemma PieceIsTidy(b: string, i: nat, j: nat)
    requires i <= j <= |b| && NoTripleNewline(b) && SingleSpaced(b)
    ensures NoTripleNewline(b[i..j]) && SingleSpaced(b[i..j])
  {
    var t := b[i..j];
    forall k | 0 <= k < |t| - 2
      ensures !(t[k] == '\n' && t[k + 1] == '\n' && t[k + 2] == '\n')
    {
      assert t[k] == b[i + k] && t[k + 1] == b[i + k + 1] && t[k + 2] == b[i + k + 2];
    }
    forall k | 0 <= k < |t| - 1
      ensures !(t[k] == ' ' && t[k + 1] == ' ')
    {
      assert t[k] == b[i + k] && t[k + 1] == b[i + k + 1];
    }
  }

  lemma {:induction false} TidyNewlinesStay(s: string)
    requires NoTripleNewline(s)
    ensures CollapseNewlines(s) == s
    decreases |s|
  {
    if s != "" {
      var n := if s[0] != '\n' then 1 else NewlineRun(s);
      assert s[0] == '\n' && |s| > 2 ==> !(s[1] == '\n' && s[2] == '\n');
      TidyNewlinesStay(s[n..]);
      assert s == s[..n] + s[n..];
    }
  }

  lemma SingleSpacedTail(s: string)
    requires s != "" && SingleSpaced(s)
    ensures SingleSpaced(s[1..])
    ensures IsBlank(s[0]) ==> BlankRun(s) == 1
  {
    assert s[0] in s && (|s| > 1 ==> s[1] in s);
    forall c | c in s[1..]
      ensures c in s
    {
    }
  }

  lemma {:induction false} TidyBlanksStay(s: string)
    requires SingleSpaced(s)
    ensures CollapseBlanks(s) == s
    decreases |s|
  {
    if s != "" {
      SingleSpacedTail(s);
      TidyBlanksStay(s[1..]);
      assert s[0] in s;
      assert s == s[..1] + s[1..];
    }
  }

  /** Normalising twice changes nothing more. */
  lemma NormalizedIsStable(s: string)
    ensures Normalized(Normalized(s)) == Normalized(s)
  {
    var t := Normalized(s);
    NormalizedIsTidy(s);
    TidyNewlinesStay(t);
    TidyBlanksStay(t);
    StripKeeps(t);
  }
}
