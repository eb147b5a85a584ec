/** URL collection: deduplication within each source (app/messages/urls.py) and across the
    sources (app/messages/parser.py). Matching and URL parsing are inputs. */
module Urls {
  import opened Options
  import opened Text

  datatype Source = FromText | FromHtml

  datatype Url = Url(raw: string, normalized: string, scheme: string, host: string, path: string,
                     source: Source, linkText: Option<string>)

  datatype Parsed = Parsed(scheme: string, netloc: string, path: string)

  /** urlparse (None when it raises) and the normalised form of a URL. */
  datatype UrlLibrary = UrlLibrary(parse: string -> Option<Parsed>, normalize: string -> string)

  const BLOCKED_SCHEMES: set<string> := {"javascript", "data", "vbscript", "file"}

  /** A link found in a message. */
  datatype Link = Link(raw: string, source: Source, linkText: Option<string>)

  function BuildExtractedUrl(lib: UrlLibrary, link: Link): Option<Url>
  {
    var p := lib.parse(link.raw);
    if p.None? || p.value.scheme == "" || p.value.netloc == "" || Lower(p.value.scheme) in BLOCKED_SCHEMES then None
    else Some(Url(link.raw, lib.normalize(link.raw), Lower(p.value.scheme), Lower(p.value.netloc),
                  if p.value.path != "" then p.value.path else "/", link.source, link.linkText))
  }

  // ---------------------------------------------------------------- one-level specification

  function Raws(links: seq<Link>): (r: seq<string>)
  {
    seq(|links|, i requires 0 <= i < |links| => links[i].raw)
  }

  /** The links whose raw text did not occur before. */
  function FirstOccurrences(links: seq<Link>): seq<Link>
  {
    if links == [] then []
    else
      var front, last := links[..|links| - 1], links[|links| - 1];
      if last.raw in Raws(front) then FirstOccurrences(front) else FirstOccurrences(front) + [last]
  }

  /** The valid links, built. */
  function Built(lib: UrlLibrary, links: seq<Link>): seq<Url>
  {
    if links == [] then []
    else
      var front, u := Built(lib, links[..|links| - 1]), BuildExtractedUrl(lib, links[|links| - 1]);
      if u.Some? then front + [u.value] else front
  }

  function TextLinks(matches: seq<string>): seq<Link>
  {
    seq(|matches|, i requires 0 <= i < |matches| => Link(matches[i], FromText, None))
  }

  /** An anchor's link text is absent when empty; anchors without href are no links. */
  function HtmlLinks(anchors: seq<(string, string)>): seq<Link>
  {
    if anchors == [] then []
    else
      var (href, text) := anchors[|anchors| - 1];
      var front := HtmlLinks(anchors[..|anchors| - 1]);
      if href == "" then front else front + [Link(href, FromHtml, if text == "" then None else Some(text))]
  }

  function UrlRaws(urls: seq<Url>): seq<string>
  {
    seq(|urls|, i requires 0 <= i < |urls| => urls[i].raw)
  }

  /** The second deduplication, over built URLs. */
  function DistinctUrls(urls: seq<Url>): seq<Url>
  {
    if urls == [] then []
    else
      var front, last := urls[..|urls| - 1], urls[|urls| - 1];
      if last.raw in UrlRaws(front) then DistinctUrls(front) else DistinctUrls(front) + [last]
  }

  // ---------------------------------------------------------------- the loops

  method ExtractUrlsFromText(lib: UrlLibrary, matches: seq<string>) returns (urls: seq<Url>)
    ensures urls == Built(lib, FirstOccurrences(TextLinks(matches)))
  {
    urls := [];
    var seen: set<string> := {};
    ghost var links := TextLinks(matches);
    var i := 0;
    while i < |matches|
      invariant 0 <= i <= |matches|
      invariant forall r :: r in seen <==> r in Raws(links[..i])
      invariant urls == Built(lib, FirstOccurrences(links[..i]))
    {
      var raw := matches[i];
      ghost var front := links[..i];
      assert links[..i + 1] == front + [links[i]];
      OneMoreLink(lib, front, links[i]);
      if raw !in seen {
        seen := seen + {raw};
        var url := BuildExtractedUrl(lib, Link(raw, FromText, None));
        if url.Some? {
          urls := urls + [url.value];
        }
      }
      i := i + 1;
    }
    assert links[..i] == links;
  }

  method ExtractUrlsFromHtml(lib: UrlLibrary, anchors: seq<(string, string)>) returns (urls: seq<Url>)
    ensures urls == Built(lib, FirstOccurrences(HtmlLinks(anchors)))
  {
    urls := [];
    var seen: set<string> := {};
    var i := 0;
    while i < |anchors|
      invariant 0 <= i <= |anchors|
      invariant forall r :: r in seen <==> r in Raws(HtmlLinks(anchors[..i]))
      invariant urls == Built(lib, FirstOccurrences(HtmlLinks(anchors[..i])))
    {
      var (href, text) := anchors[i];
      ghost var front := HtmlLinks(anchors[..i]);
      assert anchors[..i + 1][..i] == anchors[..i];
      if href != "" {
        var link := Link(href, FromHtml, if text == "" then None else Some(text));
        OneMoreLink(lib, front, link);
        if href !in seen {
          seen := seen + {href};
          var url := BuildExtractedUrl(lib, link);
          if url.Some? {
            urls := urls + [url.value];
          }
        }
      }
      i := i + 1;
    }
    assert anchors[..i] == anchors;
  }

  /** The merge of the parser: text URLs, then HTML URLs, each raw text once. */
  method CollectUrls(lib: UrlLibrary, matches: seq<string>, anchors: seq<(string, string)>) returns (urls: seq<Url>)
    ensures urls == Built(lib, FirstOccurrences(TextLinks(matches) + HtmlLinks(anchors)))
  {
    var fromText := ExtractUrlsFromText(lib, matches);
    var fromHtml := ExtractUrlsFromHtml(lib, anchors);
    urls := [];
    var seen: set<string> := {};
    urls, seen := AddUnseen(urls, seen, [], fromText);
    assert [] + fromText == fromText;
    urls, seen := AddUnseen(urls, seen, fromText, fromHtml);
    TwoLevelsAreOne(lib, TextLinks(matches), HtmlLinks(anchors));
  }

  method AddUnseen(urls: seq<Url>, seen: set<string>, ghost before: seq<Url>, more: seq<Url>)
    returns (urls': seq<Url>, seen': set<string>)
    requires urls == DistinctUrls(before)
    requires forall r :: r in seen <==> r in UrlRaws(before)
    ensures urls' == DistinctUrls(before + more)
    ensures forall r :: r in seen' <==> r in UrlRaws(before + more)
  {
    urls', seen' := urls, seen;
    assert before + more[..0] == before;
    var i := 0;
    while i < |more|
      invariant 0 <= i <= |more|
      invariant urls' == DistinctUrls(before + more[..i])
      invariant forall r :: r in seen' <==> r in UrlRaws(before + more[..i])
    {
      var url := more[i];
      ghost var front := before + more[..i];
      assert before + more[..i + 1] == front + [url];
      assert (front + [url])[..|front|] == front;
      assert UrlRaws(front + [url]) == UrlRaws(front) + [url.raw];
      if url.raw !in seen' {
        seen' := seen' + {url.raw};
        urls' := urls' + [url];
      }
      i := i + 1;
    }
    assert more[..i] == more;
  }

  /** What one more link adds to the built URLs. */
  function Added(lib: UrlLibrary, front: seq<Link>, link: Link): Option<Url>
  {
    if link.raw in Raws(front) then None else BuildExtractedUrl(lib, link)
  }

  function Extend(urls: seq<Url>, u: Option<Url>): seq<Url>
  {
    if u.Some? then urls + [u.value] else urls
  }

  lemma OneMoreLink(lib: UrlLibrary, front: seq<Link>, link: Link)
    ensures Raws(front + [link]) == Raws(front) + [link.raw]
    ensures FirstOccurrences(front + [link])
         == if link.raw in Raws(front) then FirstOccurrences(front) else FirstOccurrences(front) + [link]
    ensures Built(lib, FirstOccurrences(front + [link]))
            == Extend(Built(lib, FirstOccurrences(front)), Added(lib, front, link))
  {
    assert (front + [link])[..|front|] == front;
    var first := FirstOccurrences(front);
    assert (first + [link])[..|first|] == first;
  }

  lemma OneMoreUrl(urls: seq<Url>, u: Url)
    ensures UrlRaws(urls + [u]) == UrlRaws(urls) + [u.raw]
    ensures DistinctUrls(urls + [u]) == if u.raw in UrlRaws(urls) then DistinctUrls(urls) else DistinctUrls(urls) + [u]
  {
    assert (urls + [u])[..|urls|] == urls;
  }

  // ---------------------------------------------------------------- laws

  /** Whether the library accepts a raw text as a URL; it depends on the text alone. */
  predicate Accepts(lib: UrlLibrary, raw: string)
  {
    BuildExtractedUrl(lib, Link(raw, FromText, None)).Some?
  }

  lemma {:induction false} BuiltRaws(lib: UrlLibrary, links: seq<Link>, raw: string)
    ensures raw in UrlRaws(Built(lib, FirstOccurrences(links))) <==> raw in Raws(links) && Accepts(lib, raw)
  {
    if links != [] {
      var front, last := links[..|links| - 1], links[|links| - 1];
      assert links == front + [last];
      BuiltRaws(lib, front, raw);
      OneMoreLink(lib, front, last);
      var u := Added(lib, front, last);
      if u.Some? {
        OneMoreUrl(Built(lib, FirstOccurrences(front)), u.value);
      }
    }
  }

  /** Deduplicating and filtering each source on its own and then deduplicating the built
      URLs is the same as one deduplication of all links followed by the filter. */
  lemma {:induction false} TwoLevelsAreOne(lib: UrlLibrary, a: seq<Link>, b: seq<Link>)
    ensures DistinctUrls(Built(lib, FirstOccurrences(a)) + Built(lib, FirstOccurrences(b)))
         == Built(lib, FirstOccurrences(a + b))
  {
    var built := Built(lib, FirstOccurrences(a));
    if b == [] {
      assert a + b == a && built + [] == built;
      OneLevelIsDistinct(lib, a);
    } else {
      var front, last := b[..|b| - 1], b[|b| - 1];
      assert b == front + [last] && a + b == (a + front) + [last];
      TwoLevelsAreOne(lib, a, front);
      OneMoreLink(lib, front, last);
      OneMoreLink(lib, a + front, last);
      AddedTwice(lib, a, front, last);
    }
  }

  /** The URL a link adds to its own source survives the merge exactly when the other source
      did not bring it. */
  lemma {:induction false} AddedTwice(lib: UrlLibrary, a: seq<Link>, front: seq<Link>, link: Link)
    ensures var built, more := Built(lib, FirstOccurrences(a)), Built(lib, FirstOccurrences(front));
            DistinctUrls(built + Extend(more, Added(lib, front, link)))
            == Extend(DistinctUrls(built + more), Added(lib, a + front, link))
  {
    var built, more := Built(lib, FirstOccurrences(a)), Built(lib, FirstOccurrences(front));
    var u, inA := Added(lib, front, link), link.raw in Raws(a);
    AddedAcross(lib, a, front, link);
    if u.Some? {
      BuiltRaws(lib, a, link.raw);
      BuiltRaws(lib, front, link.raw);
      ExtendMerged(built, more, u.value, inA);
    }
  }

  lemma AddedAcross(lib: UrlLibrary, a: seq<Link>, front: seq<Link>, link: Link)
    ensures Added(lib, a + front, link) == if link.raw in Raws(a) then None else Added(lib, front, link)
  {
    assert Raws(a + front) == Raws(a) + Raws(front);
  }

  lemma ExtendMerged(built: seq<Url>, more: seq<Url>, u: Url, known: bool)
    requires u.raw in UrlRaws(built) <==> known
    requires u.raw !in UrlRaws(more)
    ensures DistinctUrls(built + (more + [u]))
            == if known then DistinctUrls(built + more) else DistinctUrls(built + more) + [u]
  {
    assert built + (more + [u]) == (built + more) + [u];
    assert UrlRaws(built + more) == UrlRaws(built) + UrlRaws(more);
    OneMoreUrl(built + more, u);
  }

  lemma {:induction false} OneLevelIsDistinct(lib: UrlLibrary, links: seq<Link>)
    ensures DistinctUrls(Built(lib, FirstOccurrences(links))) == Built(lib, FirstOccurrences(links))
  {
    if links != [] {
      var front, last := links[..|links| - 1], links[|links| - 1];
      assert links == front + [last];
      OneLevelIsDistinct(lib, front);
      OneMoreLink(lib, front, last);
      var u := Added(lib, front, last);
      if u.Some? {
        OneMoreUrl(Built(lib, FirstOccurrences(front)), u.value);
        BuiltRaws(lib, front, last.raw);
      }
    }
  }

  /** What is kept of all links: no raw text twice, and for each raw text the link that
      brought it first. */
  lemma {:induction false} FirstOccurrencesMeaning(links: seq<Link>, link: Link)
    ensures link in FirstOccurrences(links)
       <==> exists i :: 0 <= i < |links| && links[i] == link && link.raw !in Raws(links[..i])
    ensures forall i, j | 0 <= i < j < |FirstOccurrences(links)| ::
              FirstOccurrences(links)[i].raw != FirstOccurrences(links)[j].raw
    ensures forall x | x in FirstOccurrences(links) :: x.raw in Raws(links)
  {
    if links != [] {
      var front, last := links[..|links| - 1], links[|links| - 1];
      assert links == front + [last];
      FirstOccurrencesMeaning(front, link);
      assert Raws(links) == Raws(front) + [last.raw];
      assert forall i | 0 <= i < |front| :: front[..i] == links[..i];
      assert links[..|front|] == front;
    }
  }

  /** Which links become URLs, and what is kept of them: a raw text with a scheme and a host whose
      scheme is not blocked, in any case; scheme and host in lower case, and a path that is at
      least a slash. */
  lemma BuiltUrl(lib: UrlLibrary, link: Link, u: Url)
    ensures BuildExtractedUrl(lib, link) == Some(u)
            <==> && lib.parse(link.raw).Some?
                 && var p := lib.parse(link.raw).value;
                    && p.scheme != "" && p.netloc != ""
                    && Lower(p.scheme) !in {"javascript", "data", "vbscript", "file"}
                    && u.raw == link.raw && u.normalized == lib.normalize(link.raw)
                    && u.scheme == Lower(p.scheme) && u.host == Lower(p.netloc)
                    && u.path == (if p.path == "" then "/" else p.path)
                    && u.source == link.source && u.linkText == link.linkText
  {
  }

  lemma {:induction false} BuiltMembers(lib: UrlLibrary, links: seq<Link>, u: Url)
    ensures u in Built(lib, links) <==> exists link :: link in links && BuildExtractedUrl(lib, link) == Some(u)
  {
    if links != [] {
      assert links == links[..|links| - 1] + [links[|links| - 1]];
      BuiltMembers(lib, links[..|links| - 1], u);
    }
  }

  lemma {:induction false} HtmlLinkMembers(anchors: seq<(string, string)>, link: Link)
    ensures link in HtmlLinks(anchors)
            <==> exists i :: 0 <= i < |anchors| && anchors[i].0 == link.raw != "" && link.source == FromHtml
                             && link.linkText == (if anchors[i].1 == "" then None else Some(anchors[i].1))
  {
    if anchors != [] {
      var front := anchors[..|anchors| - 1];
      assert anchors == front + [anchors[|anchors| - 1]];
      HtmlLinkMembers(front, link);
    }
  }

  /** Where the link of a collected URL comes from: its raw text is a match in the text, and then it
      has no link text, or it is the href of an anchor and no match, and then its link text is one
      such anchor's, if not empty. */
  lemma {:induction false} CollectedSource(lib: UrlLibrary, matches: seq<string>, anchors: seq<(string, string)>,
                                           u: Url)
    requires u in Built(lib, FirstOccurrences(TextLinks(matches) + HtmlLinks(anchors)))
    ensures u.source == FromText <==> u.raw in matches
    ensures u.raw in matches ==> u.linkText == None
    ensures u.raw !in matches ==>
              u.raw != "" && exists i :: 0 <= i < |anchors| && anchors[i].0 == u.raw
                                         && u.linkText == (if anchors[i].1 == "" then None else Some(anchors[i].1))
  {
    var links, more := TextLinks(matches), HtmlLinks(anchors);
    BuiltMembers(lib, FirstOccurrences(links + more), u);
    var link :| link in FirstOccurrences(links + more) && BuildExtractedUrl(lib, link) == Some(u);
    BuiltUrl(lib, link, u);
    FirstOccurrencesMeaning(links + more, link);
    var i :| 0 <= i < |links + more| && (links + more)[i] == link && link.raw !in Raws((links + more)[..i]);
    if i < |links| {
      assert matches[i] in matches;
    } else {
      assert link in more;
      HtmlLinkMembers(anchors, link);
      forall j | 0 <= j < |matches|
        ensures matches[j] != u.raw
      {
        assert Raws((links + more)[..i])[j] == matches[j];
      }
    }
  }

  /** No collected URL lacks a scheme or a host or has a blocked scheme. */
  lemma {:induction false} CollectedAreNavigable(lib: UrlLibrary, links: seq<Link>, u: Url)
    requires u in Built(lib, links)
    ensures u.scheme !in BLOCKED_SCHEMES && u.scheme != "" && u.host != "" && u.path != ""
    ensures exists i :: 0 <= i < |links| && BuildExtractedUrl(lib, links[i]) == Some(u)
  {
    var front, last := links[..|links| - 1], links[|links| - 1];
    if BuildExtractedUrl(lib, last) == Some(u) {
      assert BuildExtractedUrl(lib, links[|links| - 1]) == Some(u);
    } else {
      CollectedAreNavigable(lib, front, u);
      var i :| 0 <= i < |front| && BuildExtractedUrl(lib, front[i]) == Some(u);
      assert BuildExtractedUrl(lib, links[i]) == Some(u);
    }
  }
}
