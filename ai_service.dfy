/** The second-generation AI service: the HTML reducer with its Amazon,
    JB Hi-Fi and Walmart helpers, the site-named prompt, the model choice,
    the reply parser that keeps only strings, numbers and `null`, and one
    extraction attempt. */
module AiService {
  import opened Wrappers
  import opened Strings
  import opened Records
  import opened Runtime
  import opened HtmlExtractor
  import opened DataParser
  import PromptGenerator

  // ---------------------------------------------------------------------------
  // extractRelevantHtml

  const Amazon: Site := Site(
    [TagWith("div", "id", "dp-container"), TagWith("div", "id", "ppd"), TagWith("div", "id", "centerCol")],
    [[TagWith("span", "id", "productTitle"), TagWith("h1", "class", "a-size-large")],
     [TagWith("span", "class", "a-price"), TagWith("span", "id", "priceblock_ourprice")],
     [TagWith("div", "id", "productDescription"), TagWith("div", "id", "feature-bullets")]])

  const JbHiFi: Site := Site(
    [TagWith("div", "class", "product-detail")],
    [[TagWith("h1", "class", "product-title")],
     [TagWith("div", "class", "price")],
     [TagWith("div", "class", "product-description")]])

  const Walmart: Site := Site(
    [TagWith("div", "class", "product-main-content")],
    [[TagWith("h1", "class", "prod-ProductTitle")],
     [TagWith("span", "class", "price-characteristic")],
     [TagWith("div", "class", "about-product")]])

  /** The helper chosen for a host name: any host containing "amazon",
      then "jbhifi", then "walmart", else the generic path. */
  datatype RouteB = AmazonRoute | JbHiFiRoute | WalmartRoute | GenericRouteB

  function RouteForB(domain: string): (r: RouteB)
    ensures r == AmazonRoute <==> Contains(domain, "amazon")
    ensures r == JbHiFiRoute <==> !Contains(domain, "amazon") && Contains(domain, "jbhifi")
    ensures r == WalmartRoute <==>
      !Contains(domain, "amazon") && !Contains(domain, "jbhifi") && Contains(domain, "walmart")
    ensures r == GenericRouteB <==>
      !Contains(domain, "amazon") && !Contains(domain, "jbhifi") && !Contains(domain, "walmart")
  {
    if Contains(domain, "amazon") then AmazonRoute
    else if Contains(domain, "jbhifi") then JbHiFiRoute
    else if Contains(domain, "walmart") then WalmartRoute
    else GenericRouteB
  }

  /** `extractRelevantHtml(html, url)` of the second generation; an
      unparseable URL lands in the catch, which keeps the first 30000
      characters. */
  function RelevantHtmlB(rt: Runtime, html: string, url: string): string
  {
    match rt.parseUrl(url)
    case None => Take(html, MaxExcerpt)
    case Some(u) =>
      match RouteForB(Lower(u.hostname))
      case AmazonRoute => SiteExcerpt(rt.regex, Amazon, html)
      case JbHiFiRoute => SiteExcerpt(rt.regex, JbHiFi, html)
      case WalmartRoute => SiteExcerpt(rt.regex, Walmart, html)
      case GenericRouteB => GenericExcerpt(rt.regex, html)
  }

  method ExtractRelevantHtmlB(rt: Runtime, html: string, url: string) returns (relevant: string)
    ensures relevant == RelevantHtmlB(rt, html, url)
  {
    var u := rt.parseUrl(url);
    if u.None? {
      return Take(html, MaxExcerpt);
    }
    var route := RouteForB(Lower(u.value.hostname));
    match route
    case AmazonRoute => relevant := SiteExcerpt(rt.regex, Amazon, html);
    case JbHiFiRoute => relevant := SiteExcerpt(rt.regex, JbHiFi, html);
    case WalmartRoute => relevant := SiteExcerpt(rt.regex, Walmart, html);
    case GenericRouteB => relevant := ReduceGeneric(rt.regex, html);
  }

  /** What the reducer returns: on the generic and the exception paths at
      most 30000 characters of the page; on a site path either a piece
      longer than 500 or the first 30000 characters. */
  lemma RelevantHtmlBShape(rt: Runtime, html: string, url: string)
    requires Sound(rt.regex)
    ensures var r := RelevantHtmlB(rt, html, url);
      (rt.parseUrl(url).None? ==> r == Take(html, MaxExcerpt)) &&
      (rt.parseUrl(url).Some? && RouteForB(Lower(rt.parseUrl(url).value.hostname)) == GenericRouteB ==>
         |r| <= MaxExcerpt && IsSubsequence(r, html)) &&
      (rt.parseUrl(url).Some? && RouteForB(Lower(rt.parseUrl(url).value.hostname)) != GenericRouteB ==>
         |r| > MinSection || r == Take(html, MaxExcerpt))
  {
    match rt.parseUrl(url)
    case None =>
    case Some(u) =>
      match RouteForB(Lower(u.hostname))
      case AmazonRoute => SiteExcerptShape(rt.regex, Amazon, html);
      case JbHiFiRoute => SiteExcerptShape(rt.regex, JbHiFi, html);
      case WalmartRoute => SiteExcerptShape(rt.regex, Walmart, html);
      case GenericRouteB => GenericExcerptFromPage(rt.regex, html);
  }

  // ---------------------------------------------------------------------------
  // generateSiteSpecificPrompt

  /** The name the prompt gives the site, by the first host-name test that
      holds. */
  function SiteName(domain: string): (r: string)
    ensures r == "Amazon" <==> Contains(domain, "amazon")
    ensures r == "JB Hi-Fi" <==> !Contains(domain, "amazon") && Contains(domain, "jbhifi")
    ensures r == "Walmart" <==>
      !Contains(domain, "amazon") && !Contains(domain, "jbhifi") && Contains(domain, "walmart")
    ensures r == "eBay" <==>
      !Contains(domain, "amazon") && !Contains(domain, "jbhifi") && !Contains(domain, "walmart") &&
      Contains(domain, "ebay")
    ensures r == "Target" <==>
      !Contains(domain, "amazon") && !Contains(domain, "jbhifi") && !Contains(domain, "walmart") &&
      !Contains(domain, "ebay") && Contains(domain, "target")
    ensures r == "this e-commerce site" <==>
      !Contains(domain, "amazon") && !Contains(domain, "jbhifi") && !Contains(domain, "walmart") &&
      !Contains(domain, "ebay") && !Contains(domain, "target")
  {
    if Contains(domain, "amazon") then "Amazon"
    else if Contains(domain, "jbhifi") then "JB Hi-Fi"
    else if Contains(domain, "walmart") then "Walmart"
    else if Contains(domain, "ebay") then "eBay"
    else if Contains(domain, "target") then "Target"
    else "this e-commerce site"
  }

  const SiteOpening: string := "\nExtract structured product data from "
  const BeforeUrl: string := ".\n\nURL: "

  /** The template with the site name, the URL, the instruction and the HTML
      spliced in; the guidelines and the closing line are those of the
      first-generation prompt. */
  function SiteTemplate(siteName: string, url: string, instruction: string, html: string): string
  {
    SiteOpening + siteName + BeforeUrl + url + PromptGenerator.BeforeInstruction + instruction +
    PromptGenerator.BeforeHtml + html + PromptGenerator.AfterHtml
  }

  /** `generateSiteSpecificPrompt(url, instruction, html)`; `Err` where
      `new URL(url)` throws, which is not caught here. */
  function SiteSpecificPrompt(rt: Runtime, url: string, instruction: string, html: string): (r: Result<string>)
    ensures r.Err? <==> rt.parseUrl(url).None?
    ensures r.Err? ==> r.message == rt.invalidUrl
  {
    match rt.parseUrl(url)
    case None => Err(rt.invalidUrl)
    case Some(u) => Ok(SiteTemplate(SiteName(Lower(u.hostname)), url, instruction, html))
  }

  /** The prompt names the site and carries the URL, the instruction and the
      HTML verbatim. */
  lemma SitePromptContainsInputs(rt: Runtime, url: string, instruction: string, html: string)
    requires rt.parseUrl(url).Some?
    ensures var p := SiteSpecificPrompt(rt, url, instruction, html).value;
      var name := SiteName(Lower(rt.parseUrl(url).value.hostname));
      SiteOpening + name + BeforeUrl <= p &&
      Contains(p, url) && Contains(p, instruction) && Contains(p, html)
  {
    var name := SiteName(Lower(rt.parseUrl(url).value.hostname));
    HeadSplice(SiteOpening + name + BeforeUrl, url, PromptGenerator.BeforeInstruction, instruction,
      PromptGenerator.BeforeHtml, html, PromptGenerator.AfterHtml);
  }

  /** A text made of a head and spliced pieces starts with the head and
      contains each piece. */
  lemma HeadSplice(h: string, x: string, b: string, y: string, c: string, z: string, d: string)
    ensures h <= h + x + b + y + c + z + d
    ensures Contains(h + x + b + y + c + z + d, x)
    ensures Contains(h + x + b + y + c + z + d, y)
    ensures Contains(h + x + b + y + c + z + d, z)
  {
    PromptGenerator.SplicedInputs(h, x, b, y, c, z, d);
    assert h + x + b + y + c + z + d == h + (x + b + y + c + z + d);
  }

  // ---------------------------------------------------------------------------
  // selectAppropriateModel

  const LargeModel := "gpt-4o"
  const DefaultModel := "gpt-3.5-turbo"

  /** `selectAppropriateModel(html, instruction)`. */
  function SelectAppropriateModel(html: string, instruction: string): (r: string)
    ensures r == LargeModel <==> |instruction| > 500 && |html| > 50000
    ensures r == DefaultModel <==> !(|instruction| > 500 && |html| > 50000)
  {
    if |instruction| > 500 && |html| > 50000 then LargeModel else DefaultModel
  }

  /** On the generic and the exception paths the reduced HTML holds at most
      30000 characters, so the larger model is never chosen there. */
  lemma ShortExcerptsUseDefaultModel(rt: Runtime, html: string, url: string, instruction: string)
    requires rt.parseUrl(url).None? ||
      RouteForB(Lower(rt.parseUrl(url).value.hostname)) == GenericRouteB
    ensures SelectAppropriateModel(RelevantHtmlB(rt, html, url), instruction) == DefaultModel
  {
    assert |RelevantHtmlB(rt, html, url)| <= MaxExcerpt;
  }

  // ---------------------------------------------------------------------------
  // parseProductData

  function SalvageInitB(url: string): Record
  {
    [(SourceUrl, VStr(url)), (Salvaged, VStr("true"))]
  }

  /** `parseProductData(text, url)` of the second generation: as the first,
      but every value that is not a string, a number or `null` becomes its
      `String(...)` text, the salvage marker is the string "true", and there
      is no Coles fallback. */
  function ParsedRecordB(rt: Runtime, text: string, url: string): Record
  {
    Decide(Built(PrimaryInit(url), FirstParse(rt, text), StringValue),
           Built(SalvageInitB(url), SpanParse(rt, text), StringValue),
           None, url)
  }

  method ParseProductDataB(rt: Runtime, text: string, url: string) returns (result: Record)
    ensures result == ParsedRecordB(rt, text, url)
  {
    var parsed := rt.parseJson(CleanedText(text));
    ghost var spanParse := SpanParse(rt, text);
    if parsed.Some? {
      var entries := EntriesOf(parsed.value);
      if entries.Some? {
        var built := TryCopyInto(PrimaryInit(url), entries.value, StringValue);
        if built.Some? {
          TakePrimary(PrimaryInit(url), SalvageInitB(url), parsed, spanParse, StringValue, None, url);
          return built.value;
        }
      }
    }
    var span := BraceSpan(AggressiveText(text));
    if span.Some? {
      var salvaged := rt.parseJson(span.value);
      if salvaged.Some? {
        var entries := EntriesOf(salvaged.value);
        if entries.Some? {
          var built := TryCopyInto(SalvageInitB(url), entries.value, StringValue);
          if built.Some? {
            TakeSalvage(PrimaryInit(url), SalvageInitB(url), parsed, salvaged, StringValue, None, url);
            return built.value;
          }
        }
      }
    }
    TakeFallback(PrimaryInit(url), SalvageInitB(url), parsed, spanParse, StringValue, None, url);
    return ErrorRecord(url);
  }

  /** A second-generation attempt on this parse result runs to its
      `return`: the parse succeeded, `Object.entries` accepted the value,
      and `String` printed every value it was given. */
  predicate RunsThroughB(parsed: Option<Json>)
  {
    parsed.Some? && !parsed.value.JNull? &&
    forall i :: 0 <= i < |EntriesOf(parsed.value).value| ==> !Unprintable(EntriesOf(parsed.value).value[i].1)
  }

  /** The attempt yields a record exactly when it runs through. */
  lemma BuiltRunsThroughB(init: Record, parsed: Option<Json>)
    ensures Built(init, parsed, StringValue).Some? <==> RunsThroughB(parsed)
  {
    if parsed.Some? && !parsed.value.JNull? {
      StringValueConverts(EntriesOf(parsed.value).value);
    }
  }

  predicate AllScalar(r: Record)
  {
    forall i :: 0 <= i < |r| ==> Scalar(r[i].1)
  }

  /** Whichever attempt succeeds, every field is scalar when both initial
      records are. */
  lemma DecideIsScalar(i1: Record, i2: Record, p: Option<Json>, s: Option<Json>, url: string)
    requires AllScalar(i1) && AllScalar(i2)
    ensures AllScalar(Decide(Built(i1, p, StringValue), Built(i2, s, StringValue), None, url))
  {
    if Built(i1, p, StringValue).Some? {
      StringValuedRecordIsScalar(i1, EntriesOf(p.value).value);
    } else if Built(i2, s, StringValue).Some? {
      StringValuedRecordIsScalar(i2, EntriesOf(s.value).value);
    } else {
      var e := ErrorRecord(url);
      assert Scalar(e[0].1) && Scalar(e[1].1);
    }
  }

  lemma InitsScalar(url: string)
    ensures AllScalar(PrimaryInit(url)) && AllScalar(SalvageInitB(url))
  {
  }

  /** Every field of every outcome is a string, a number or `null`. */
  lemma ParsedRecordBIsScalar(rt: Runtime, text: string, url: string)
    ensures AllScalar(ParsedRecordB(rt, text, url))
  {
    InitsScalar(url);
    DecideIsScalar(PrimaryInit(url), SalvageInitB(url), FirstParse(rt, text), SpanParse(rt, text), url);
  }

  /** A reply that parses and whose values all print: each key of the
      reply with its converted value, and `sourceUrl` unless the reply has
      its own. */
  lemma PrimaryRecordBFields(rt: Runtime, text: string, url: string, k: string)
    requires RunsThroughB(FirstParse(rt, text))
    ensures var es := EntriesOf(FirstParse(rt, text).value).value;
      Get(ParsedRecordB(rt, text, url), k) ==
        if k in Keys(es) && k != ProtoKey then StringValue(LastFor(es, k))
        else if k == SourceUrl then Some(VStr(url))
        else None
  {
    var j := FirstParse(rt, text).value;
    BuiltRunsThroughB(PrimaryInit(url), FirstParse(rt, text));
    assert ParsedRecordB(rt, text, url) == Built(PrimaryInit(url), Some(j), StringValue).value;
    assert ProtoKey !in Keys(PrimaryInit(url)) by { InitsOwnNoProto(url); }
    BuiltFields(PrimaryInit(url), j, StringValue, k);
    PrimaryInitGet(url, k);
  }

  /** A reply whose brace span runs through when the whole does not: the
      span's keys, then `sourceUrl` and the marker, which is the string
      "true". */
  lemma SalvagedRecordBFields(rt: Runtime, text: string, url: string, k: string)
    requires !RunsThroughB(FirstParse(rt, text))
    requires RunsThroughB(SpanParse(rt, text))
    ensures var es := EntriesOf(SpanParse(rt, text).value).value;
      Get(ParsedRecordB(rt, text, url), k) ==
        if k in Keys(es) && k != ProtoKey then StringValue(LastFor(es, k))
        else if k == SourceUrl then Some(VStr(url))
        else if k == Salvaged then Some(VStr("true"))
        else None
  {
    var j := SpanParse(rt, text).value;
    assert ParsedRecordB(rt, text, url) == Built(SalvageInitB(url), Some(j), StringValue).value by {
      BuiltRunsThroughB(PrimaryInit(url), FirstParse(rt, text));
      BuiltRunsThroughB(SalvageInitB(url), SpanParse(rt, text));
    }
    assert ProtoKey !in Keys(SalvageInitB(url)) by {
      InitsOwnNoProto(url);
      assert Keys(SalvageInitB(url)) == Keys(SalvageInit(url));
    }
    BuiltRunsThroughB(SalvageInitB(url), SpanParse(rt, text));
    BuiltFields(SalvageInitB(url), j, StringValue, k);
    SalvageInitBGet(url, k);
  }

  lemma SalvageInitBGet(url: string, k: string)
    ensures Get(SalvageInitB(url), k) ==
      if k == SourceUrl then Some(VStr(url)) else if k == Salvaged then Some(VStr("true")) else None
  {
  }

  /** When neither attempt runs through, the outcome is the error record,
      whatever the host. */
  lemma FailedRecordB(rt: Runtime, text: string, url: string)
    requires !RunsThroughB(FirstParse(rt, text)) && !RunsThroughB(SpanParse(rt, text))
    ensures ParsedRecordB(rt, text, url) == ErrorRecord(url)
    ensures Get(ParsedRecordB(rt, text, url), "error") == Some(VStr("Failed to parse extracted data"))
    ensures Get(ParsedRecordB(rt, text, url), "url") == Some(VStr(url))
  {
    var p, s := FirstParse(rt, text), SpanParse(rt, text);
    BuiltRunsThroughB(PrimaryInit(url), p);
    BuiltRunsThroughB(SalvageInitB(url), s);
    TakeFallback(PrimaryInit(url), SalvageInitB(url), p, s, StringValue, None, url);
    assert ParsedRecordB(rt, text, url) == ErrorRecord(url);
    ErrorRecordFields(url);
  }

  /** Every outcome lists its keys once each, in the order `Object.keys`
      gives them: index keys first in ascending numeric order, then the
      others. */
  lemma ParsedRecordBKeyOrder(rt: Runtime, text: string, url: string)
    ensures WellKeyed(ParsedRecordB(rt, text, url))
  {
    FixedRecordsKeyOrder(url, "");
    SalvageInitBKeyOrder(url);
    DecideKeyOrder(PrimaryInit(url), SalvageInitB(url), FirstParse(rt, text), SpanParse(rt, text), StringValue, None, url);
  }

  lemma SalvageInitBKeyOrder(url: string)
    ensures WellKeyed(SalvageInitB(url))
  {
    var s := SalvageInitB(url);
    assert s[0].0[0] == 's' && s[1].0[0] == '_';
    NoIndexKeyInJsOrder(s);
  }

  /** The reply `[{"name":"Milk"}]`: the element prints as "[object Object]"
      under the key "0", which comes before `sourceUrl`. */
  lemma ArrayReplyBExample(rt: Runtime, text: string, url: string)
    requires FirstParse(rt, text) == Some(JArr([MilkObject]))
    ensures ParsedRecordB(rt, text, url) == [("0", VStr("[object Object]")), (SourceUrl, VStr(url))]
  {
    assert StringValue(MilkObject) == Some(VStr("[object Object]")) by {
      assert Keys(MilkObject.members) == ["name"];
      ObjectPrintsAsObject(MilkObject);
    }
    OneElementReply(url, SalvageInitB(url), FirstParse(rt, text), SpanParse(rt, text), StringValue, None, MilkObject);
  }

  /** An object without its own "toString" prints as "[object Object]". */
  lemma ObjectPrintsAsObject(j: Json)
    requires j.JObj? && "toString" !in Keys(j.members)
    ensures StringValue(j) == Some(VStr("[object Object]"))
  {
  }

  const ToStringReply := "{\"x\":{\"toString\":\"y\"}}"
  const ToStringJson := JObj([("x", JObj([("toString", JStr("y"))]))])

  /** The reply `{"x":{"toString":"y"}}`: `String` throws on the value of
      "x" in the first attempt and again in the salvage, which finds the
      same text; the outcome is the error record. */
  lemma ThrowingStringExample(rt: Runtime, url: string)
    requires rt.parseJson(ToStringReply) == Some(ToStringJson)
    ensures ParsedRecordB(rt, ToStringReply, url) == ErrorRecord(url)
  {
    ToStringReplyFacts();
    PlainObjectReply(rt, ToStringReply);
    ToStringDoesNotRunThrough();
    FailedRecordB(rt, ToStringReply, url);
  }

  lemma ToStringReplyFacts()
    ensures var t := ToStringReply;
      |t| == 22 && t[0] == '{' && t[21] == '}' && '`' !in t &&
      forall k :: 0 <= k < |t| ==> !IsJsSpace(t[k]) && !IsLineTerminator(t[k])
  {
  }

  /** The value of "x" owns "toString". */
  lemma ToStringDoesNotRunThrough()
    ensures !RunsThroughB(Some(ToStringJson))
  {
    var inner := JObj([("toString", JStr("y"))]);
    OneMemberEntries("x", inner);
    assert Keys(inner.members) == ["toString"];
    StringValueThrowsExample(inner);
    assert EntriesOf(ToStringJson).value[0].1 == inner;
  }

  // ---------------------------------------------------------------------------
  // extractDataWithAI

  /** How an extraction attempt ends: with a record, or by throwing. */
  datatype AttemptResult = Returned(record: Record) | Threw(failure: Failure)

  /** An attempt's outcome and the calls it made on the way. */
  datatype Outcome = Outcome(calls: seq<Call>, result: AttemptResult)

  function AiFailedRecord(url: string): Record
  {
    [("error", VStr("AI extraction failed")), ("url", VStr(url))]
  }

  /** `extractDataWithAI(html, url, instruction)` answered by `reply`. The
      reducer and the model choice cannot throw; the prompt throws a
      `TypeError` on an unparseable URL, outside the `try`, so that error
      leaves the function. A failing model call is caught and becomes a
      record. */
  function ExtractDataWithAI(rt: Runtime, html: string, url: string, instruction: string, reply: ModelReply): (o: Outcome)
    ensures o.result.Threw? <==> rt.parseUrl(url).None?
    ensures o.result.Threw? ==> o.calls == [] && o.result.failure == Plain(rt.invalidUrl)
  {
    var relevant := RelevantHtmlB(rt, html, url);
    match SiteSpecificPrompt(rt, url, instruction, relevant)
    case Err(m) => Outcome([], Threw(Plain(m)))
    case Ok(prompt) =>
      var model := SelectAppropriateModel(relevant, instruction);
      match reply
      case Completion(text) => Outcome([GenerateCall(model, prompt)], Returned(ParsedRecordB(rt, text, url)))
      case ModelFailed(_) => Outcome([GenerateCall(model, prompt)], Returned(AiFailedRecord(url)))
  }

  /** On a parseable URL the attempt makes exactly one model call, with the
      site prompt built from the reduced HTML, and returns the parsed reply
      or, when the call fails, the error record. */
  lemma AttemptMakesOneCall(rt: Runtime, html: string, url: string, instruction: string, reply: ModelReply)
    requires rt.parseUrl(url).Some?
    ensures var o := ExtractDataWithAI(rt, html, url, instruction, reply);
      var relevant := RelevantHtmlB(rt, html, url);
      o.calls == [GenerateCall(SelectAppropriateModel(relevant, instruction),
                               SiteSpecificPrompt(rt, url, instruction, relevant).value)] &&
      o.result == (if reply.Completion? then Returned(ParsedRecordB(rt, reply.text, url))
                   else Returned(AiFailedRecord(url)))
  {
  }

  /** On a parseable URL the attempt returns a record holding only strings,
      numbers and `null`, after one model call. */
  lemma AttemptReturnsScalar(rt: Runtime, html: string, url: string, instruction: string, reply: ModelReply)
    requires rt.parseUrl(url).Some?
    ensures var o := ExtractDataWithAI(rt, html, url, instruction, reply);
      o.result.Returned? && AllScalar(o.result.record) && |o.calls| == 1 && o.calls[0].GenerateCall?
  {
    AttemptMakesOneCall(rt, html, url, instruction, reply);
    if reply.Completion? {
      ParsedRecordBIsScalar(rt, reply.text, url);
    }
  }
}
