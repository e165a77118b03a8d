/** The first-generation HTML reducer: it picks the part of a product page
    worth sending to the language model, by host name, and bounds its size.
    The regular expressions are kept as their literal text and matched by
    the engine passed in. */
module HtmlExtractor {
  import opened Wrappers
  import opened Strings
  import opened Runtime

  /** The generic path's size bound. */
  const MaxExcerpt: nat := 30000
  /** The Coles path's size bound. */
  const ColesLimit: nat := 50000
  /** A section must be longer than this to be chosen. */
  const MinSection: nat := 500

  // ---------------------------------------------------------------------------
  // The regular expressions

  /** `/<tag[^>]*attr=["']?name[^"']*["']?[^>]*>([\s\S]*?)<\/tag>/i` */
  function TagWith(tag: string, attr: string, name: string): Regex
  {
    "/<" + tag + "[^>]*" + attr + @"=[""']?" + name + @"[^""']*[""']?[^>]*>([\s\S]*?)<\/" + tag + ">/i"
  }

  /** `/<tag[^>]*>([\s\S]*?)<\/tag>/i` */
  function AnyTag(tag: string): Regex
  {
    "/<" + tag + @"[^>]*>([\s\S]*?)<\/" + tag + ">/i"
  }

  /** `/<tag\b[^<]*(?:(?!<\/tag>)<[^<]*)*<\/tag>/gi`: a whole element. */
  function Element(tag: string): Regex
  {
    "/<" + tag + @"\b[^<]*(?:(?!<\/" + tag + @">)<[^<]*)*<\/" + tag + ">/gi"
  }

  const Comment: Regex := @"/<!--[\s\S]*?-->/g"

  /** The main-content patterns, in the order they are tried. */
  const MainContentPatterns: seq<Regex> := [
    AnyTag("main"),
    TagWith("div", "id", "product"),
    TagWith("div", "class", "product"),
    TagWith("div", "id", "pdp"),
    TagWith("div", "class", "pdp"),
    TagWith("div", "id", "details"),
    AnyTag("article")
  ]

  /** Scripts, styles and vector images. */
  const ScriptStyleSvg: seq<Regex> := [Element("script"), Element("style"), Element("svg")]

  /** Every non-content element the generic path deletes, in order. */
  const NonContentPatterns: seq<Regex> :=
    ScriptStyleSvg + [Element("footer"), Element("header"), Element("nav"), Comment]

  // ---------------------------------------------------------------------------
  // Deleting matches

  /** `html.replace(ps[0], "").replace(ps[1], "")...` */
  function StripAll(e: Engine, ps: seq<Regex>, html: string): string
  {
    if ps == [] then html else StripAll(e, ps[1..], e.removeAll(ps[0], html))
  }

  /** The deletions only delete: the result is a subsequence of the input,
      so never longer. */
  lemma {:induction false} StripAllOnlyDeletes(e: Engine, ps: seq<Regex>, html: string)
    requires Sound(e)
    ensures IsSubsequence(StripAll(e, ps, html), html)
    ensures |StripAll(e, ps, html)| <= |html|
  {
    if ps == [] {
      PrefixIsSubsequence(html, html);
    } else {
      var once := e.removeAll(ps[0], html);
      StripAllOnlyDeletes(e, ps[1..], once);
      SubsequenceTransitive(StripAll(e, ps[1..], once), once, html);
    }
    SubsequenceLength(StripAll(e, ps, html), html);
  }

  // ---------------------------------------------------------------------------
  // The generic path

  /** `match && match[1] && match[1].length > 500` */
  predicate Qualifies(e: Engine, re: Regex, html: string)
  {
    e.find(re, html).Some? && |e.find(re, html).value.group| > MinSection
  }

  /** The index of the first pattern whose capture qualifies. */
  function FirstQualifying(e: Engine, ps: seq<Regex>, html: string): (r: Option<nat>)
    ensures r.Some? ==> r.value < |ps| && Qualifies(e, ps[r.value], html)
    ensures r.Some? ==> forall j :: 0 <= j < r.value ==> !Qualifies(e, ps[j], html)
    ensures r.None? ==> forall j :: 0 <= j < |ps| ==> !Qualifies(e, ps[j], html)
  {
    if ps == [] then None
    else if Qualifies(e, ps[0], html) then Some(0)
    else match FirstQualifying(e, ps[1..], html)
      case None => None
      case Some(i) => Some(i + 1)
  }

  /** The section the generic path keeps before truncation: the first
      qualifying capture, or, when none qualifies (or the capture is the whole
      page), the page with its non-content elements deleted. */
  function GenericSection(e: Engine, html: string): string
  {
    var chosen :=
      match FirstQualifying(e, MainContentPatterns, html)
      case None => html
      case Some(i) => e.find(MainContentPatterns[i], html).value.group;
    if chosen == html then StripAll(e, NonContentPatterns, html) else chosen
  }

  /** The generic path's result. */
  function GenericExcerpt(e: Engine, html: string): (r: string)
    ensures |r| <= MaxExcerpt
  {
    Take(GenericSection(e, html), MaxExcerpt)
  }

  /** Whatever the engine matches, the generic excerpt is a subsequence of the
      page: a capture is a piece of it, a stripped page a subsequence, and
      truncation keeps a prefix. */
  lemma GenericExcerptFromPage(e: Engine, html: string)
    requires Sound(e)
    ensures IsSubsequence(GenericExcerpt(e, html), html)
    ensures |GenericExcerpt(e, html)| <= |html|
  {
    var section := GenericSection(e, html);
    match FirstQualifying(e, MainContentPatterns, html) {
      case None =>
        StripAllOnlyDeletes(e, NonContentPatterns, html);
      case Some(i) =>
        var g := e.find(MainContentPatterns[i], html).value.group;
        if g == html {
          StripAllOnlyDeletes(e, NonContentPatterns, html);
        } else {
          InfixIsSubsequence(html, g);
        }
    }
    PrefixIsSubsequence(GenericExcerpt(e, html), section);
    SubsequenceTransitive(GenericExcerpt(e, html), section, html);
    SubsequenceLength(GenericExcerpt(e, html), html);
  }

  /** The generic path as the source runs it: a loop over the patterns that
      stops at the first qualifying capture, then the deletions, then the
      truncation. */
  method ReduceGeneric(e: Engine, html: string) returns (relevant: string)
    ensures relevant == GenericExcerpt(e, html)
  {
    relevant := html;
    var i := 0;
    while i < |MainContentPatterns|
      invariant 0 <= i <= |MainContentPatterns|
      invariant relevant == html
      invariant forall j :: 0 <= j < i ==> !Qualifies(e, MainContentPatterns[j], html)
    {
      var m := e.find(MainContentPatterns[i], html);
      if m.Some? && |m.value.group| > MinSection {
        relevant := m.value.group;
        break;
      }
      i := i + 1;
    }
    if relevant == html {
      var k := 0;
      while k < |NonContentPatterns|
        invariant 0 <= k <= |NonContentPatterns|
        invariant StripAll(e, NonContentPatterns[k..], relevant) == StripAll(e, NonContentPatterns, html)
      {
        assert NonContentPatterns[k..][1..] == NonContentPatterns[k + 1..];
        relevant := e.removeAll(NonContentPatterns[k], relevant);
        k := k + 1;
      }
    }
    if |relevant| > MaxExcerpt {
      relevant := relevant[..MaxExcerpt];
    }
  }

  // ---------------------------------------------------------------------------
  // The site helpers

  /** A site helper's patterns: the container's, and each part's (title,
      price, ...), each a list of alternatives tried in order. */
  datatype Site = Site(container: seq<Regex>, parts: seq<seq<Regex>>)

  /** A single `html.match(re)`, generalised to a list of alternatives tried
      in order; every site helper below gives each list one pattern. */
  function FirstMatch(e: Engine, alts: seq<Regex>, html: string): (m: Option<Match>)
    ensures m.None? <==> forall i :: 0 <= i < |alts| ==> e.find(alts[i], html).None?
    ensures m.Some? ==> exists i :: 0 <= i < |alts| && e.find(alts[i], html) == m
  {
    if alts == [] then None
    else if e.find(alts[0], html).Some? then e.find(alts[0], html)
    else FirstMatch(e, alts[1..], html)
  }

  /** The whole matches of the parts, concatenated in order (`extractedParts
      += match[0]` for each part that matched). */
  function PartsText(e: Engine, parts: seq<seq<Regex>>, html: string): string
  {
    if parts == [] then ""
    else
      var m := FirstMatch(e, parts[0], html);
      (if m.Some? then m.value.whole else "") + PartsText(e, parts[1..], html)
  }

  lemma {:induction false} PartsTextLength(e: Engine, parts: seq<seq<Regex>>, html: string)
    requires Sound(e)
    ensures |PartsText(e, parts, html)| <= |parts| * |html|
  {
    if parts != [] {
      var m := FirstMatch(e, parts[0], html);
      var head := if m.Some? then m.value.whole else "";
      if m.Some? {
        var i :| 0 <= i < |parts[0]| && e.find(parts[0][i], html) == m;
        var j := ContainsIndex(html, m.value.whole);
      }
      assert |head| <= |html|;
      PartsTextLength(e, parts[1..], html);
      var n := |parts| - 1;
      assert PartsText(e, parts, html) == head + PartsText(e, parts[1..], html);
      assert |PartsText(e, parts[1..], html)| <= n * |html|;
      MulSucc(n, |html|);
    }
  }

  lemma MulSucc(n: int, h: int)
    ensures n * h + h == (n + 1) * h
  {
  }

  /** A site helper: a container capture longer than 500 characters, kept
      whole; else the concatenated parts when longer than 500; else the first
      30000 characters. Nothing in it can throw. */
  function SiteExcerpt(e: Engine, site: Site, html: string): string
  {
    var c := FirstMatch(e, site.container, html);
    if c.Some? && |c.value.group| > MinSection then c.value.group
    else
      var parts := PartsText(e, site.parts, html);
      if |parts| > MinSection then parts else Take(html, MaxExcerpt)
  }

  /** What a site helper can return: a piece of the page longer than 500, a
      concatenation of at most one piece per part longer than 500, or the
      truncated page. Only the last is bounded by 30000. */
  lemma SiteExcerptShape(e: Engine, site: Site, html: string)
    requires Sound(e)
    ensures var r := SiteExcerpt(e, site, html);
      (|r| > MinSection && Contains(html, r)) ||
      (|r| > MinSection && |r| <= |site.parts| * |html|) ||
      r == Take(html, MaxExcerpt)
  {
    var c := FirstMatch(e, site.container, html);
    if c.Some? {
      var i :| 0 <= i < |site.container| && e.find(site.container[i], html) == c;
    }
    PartsTextLength(e, site.parts, html);
  }

  const Woolworths: Site := Site(
    [TagWith("div", "class", "product-details")],
    [[TagWith("h1", "class", "product-title")],
     [TagWith("div", "class", "price")],
     [TagWith("div", "class", "product-description")],
     [TagWith("div", "class", "specifications")]])

  const Kmart: Site := Site(
    [TagWith("div", "class", "pdp-details")],
    [[AnyTag("h1")], [TagWith("div", "class", "price")], [TagWith("div", "class", "product-description")]])

  /** The Target and BWS helpers use the same patterns. */
  const ProductDetails: Site := Site(
    [TagWith("div", "class", "product-details")],
    [[AnyTag("h1")], [TagWith("div", "class", "price")], [TagWith("div", "class", "product-description")]])

  /** The Coles helper: scripts, styles and vector images deleted, then the
      first 50000 characters. */
  function ColesExcerpt(e: Engine, html: string): (r: string)
    ensures |r| <= ColesLimit
  {
    Take(StripAll(e, ScriptStyleSvg, html), ColesLimit)
  }

  lemma ColesExcerptFromPage(e: Engine, html: string)
    requires Sound(e)
    ensures IsSubsequence(ColesExcerpt(e, html), html)
  {
    var stripped := StripAll(e, ScriptStyleSvg, html);
    StripAllOnlyDeletes(e, ScriptStyleSvg, html);
    PrefixIsSubsequence(ColesExcerpt(e, html), stripped);
    SubsequenceTransitive(ColesExcerpt(e, html), stripped, html);
  }

  // ---------------------------------------------------------------------------
  // extractRelevantHtml

  /** The helper chosen for a host name, in the order the source tests the
      host: Woolworths, Coles, Kmart, Target, BWS, else the generic path. */
  datatype Route = WoolworthsRoute | ColesRoute | KmartRoute | TargetRoute | BwsRoute | GenericRoute

  function RouteFor(domain: string): (r: Route)
    ensures r == WoolworthsRoute <==> Contains(domain, "woolworths.com.au")
    ensures r == ColesRoute <==> !Contains(domain, "woolworths.com.au") && Contains(domain, "coles.com.au")
    ensures r == GenericRoute <==>
      !Contains(domain, "woolworths.com.au") && !Contains(domain, "coles.com.au") &&
      !Contains(domain, "kmart.com.au") && !Contains(domain, "target.com.au") && !Contains(domain, "bws.com.au")
  {
    if Contains(domain, "woolworths.com.au") then WoolworthsRoute
    else if Contains(domain, "coles.com.au") then ColesRoute
    else if Contains(domain, "kmart.com.au") then KmartRoute
    else if Contains(domain, "target.com.au") then TargetRoute
    else if Contains(domain, "bws.com.au") then BwsRoute
    else GenericRoute
  }

  /** `extractRelevantHtml(html, url)`: an unparseable URL makes `new URL`
      throw, and the catch returns the first 30000 characters. */
  function RelevantHtml(rt: Runtime, html: string, url: string): string
  {
    match rt.parseUrl(url)
    case None => Take(html, MaxExcerpt)
    case Some(u) =>
      match RouteFor(Lower(u.hostname))
      case WoolworthsRoute => SiteExcerpt(rt.regex, Woolworths, html)
      case ColesRoute => ColesExcerpt(rt.regex, html)
      case KmartRoute => SiteExcerpt(rt.regex, Kmart, html)
      case TargetRoute => SiteExcerpt(rt.regex, ProductDetails, html)
      case BwsRoute => SiteExcerpt(rt.regex, ProductDetails, html)
      case GenericRoute => GenericExcerpt(rt.regex, html)
  }

  method ExtractRelevantHtml(rt: Runtime, html: string, url: string) returns (relevant: string)
    ensures relevant == RelevantHtml(rt, html, url)
  {
    var u := rt.parseUrl(url);
    if u.None? {
      return Take(html, MaxExcerpt);
    }
    var route := RouteFor(Lower(u.value.hostname));
    match route
    case WoolworthsRoute => relevant := SiteExcerpt(rt.regex, Woolworths, html);
    case ColesRoute => relevant := ColesExcerpt(rt.regex, html);
    case KmartRoute => relevant := SiteExcerpt(rt.regex, Kmart, html);
    case TargetRoute => relevant := SiteExcerpt(rt.regex, ProductDetails, html);
    case BwsRoute => relevant := SiteExcerpt(rt.regex, ProductDetails, html);
    case GenericRoute => relevant := ReduceGeneric(rt.regex, html);
  }

  /** The bounds the reducer keeps: 30000 on the generic and the exception
      paths, 50000 on the Coles path; no bound is claimed elsewhere. */
  lemma RelevantHtmlBounds(rt: Runtime, html: string, url: string)
    ensures rt.parseUrl(url).None? ==> RelevantHtml(rt, html, url) == Take(html, MaxExcerpt)
    ensures rt.parseUrl(url).Some? && RouteFor(Lower(rt.parseUrl(url).value.hostname)) == GenericRoute ==>
      |RelevantHtml(rt, html, url)| <= MaxExcerpt
    ensures rt.parseUrl(url).Some? && RouteFor(Lower(rt.parseUrl(url).value.hostname)) == ColesRoute ==>
      |RelevantHtml(rt, html, url)| <= ColesLimit
  {
  }

  /** The site paths are not bounded by 30000: whatever the engine, a
      Woolworths page whose product-details capture is longer than 30000
      characters is reduced to that whole capture, a piece of the page. */
  lemma SiteExcerptExceedsGenericBound(rt: Runtime, html: string, url: string)
    requires Sound(rt.regex)
    requires rt.parseUrl(url).Some? && Contains(Lower(rt.parseUrl(url).value.hostname), "woolworths.com.au")
    requires FirstMatch(rt.regex, Woolworths.container, html).Some?
    requires |FirstMatch(rt.regex, Woolworths.container, html).value.group| > MaxExcerpt
    ensures RelevantHtml(rt, html, url) == FirstMatch(rt.regex, Woolworths.container, html).value.group
    ensures |RelevantHtml(rt, html, url)| > MaxExcerpt && Contains(html, RelevantHtml(rt, html, url))
  {
    var c := FirstMatch(rt.regex, Woolworths.container, html);
    var i :| 0 <= i < |Woolworths.container| && rt.regex.find(Woolworths.container[i], html) == c;
  }
}
