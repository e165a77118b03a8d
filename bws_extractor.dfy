/** `extractBwsProductInfo(url)`: a product record read off a BWS product
    URL alone, or `None` (`null`). The four patterns that decide the
    outcome are modelled character by character; the volume and alcohol
    patterns are left to the regular-expression engine. */
module BwsExtractor {
  import opened Wrappers
  import opened Strings
  import opened Records
  import opened Runtime

  predicate IsDigit(c: char)
  {
    '0' <= c <= '9'
  }

  predicate NotSlash(c: char)
  {
    c != '/'
  }

  predicate NotQuestion(c: char)
  {
    c != '?'
  }

  // ---------------------------------------------------------------------------
  // `/\/products?\/([^/]+)/`

  /** Where the capture starts when the pattern is tried at `i`: after
      "/products/" or "/product/", provided a character other than "/"
      follows. ("/products/" without one cannot fall back to "/product/",
      whose "/" would have to be the "s".) */
  function IdStart(s: string, i: nat): Option<nat>
  {
    if OccursAt(s, "/products/", i) && i + 10 < |s| && s[i + 10] != '/' then Some(i + 10)
    else if OccursAt(s, "/product/", i) && i + 9 < |s| && s[i + 9] != '/' then Some(i + 9)
    else None
  }

  /** `url.match(/\/products?\/([^/]+)/)?.[1]`. */
  function ProductId(url: string): Option<string>
  {
    var k := FirstWhere(|url|, IdAt(url), 0);
    if k == |url| then None
    else
      var st := IdStart(url, k).value;
      Some(url[st..RunEnd(url, st, NotSlash)])
  }

  /** Whether the pattern matches when tried at `i`. */
  function IdAt(url: string): nat -> bool
  {
    (i: nat) => IdStart(url, i).Some?
  }

  /** There is no product id exactly when the pattern matches nowhere. */
  lemma ProductIdNone(url: string)
    ensures ProductId(url).None? <==> forall i :: 0 <= i < |url| ==> IdStart(url, i).None?
  {
    var k := FirstWhere(|url|, IdAt(url), 0);
    if k == |url| {
      assert forall i :: 0 <= i < |url| ==> IdAt(url)(i) == IdStart(url, i).Some?;
    } else {
      assert IdAt(url)(k);
    }
  }

  /** A product id is a non-empty piece of the URL right after "/products/"
      or "/product/", holding no "/", and running to the end of the URL or
      to a "/". */
  lemma ProductIdShape(url: string)
    ensures var r := ProductId(url);
      r.Some? ==> (r.value != [] && '/' !in r.value &&
      exists st :: 0 <= st <= |url| - |r.value| && OccursAt(url, r.value, st) &&
        ((st >= 10 && OccursAt(url, "/products/", st - 10)) || (st >= 9 && OccursAt(url, "/product/", st - 9))) &&
        (st + |r.value| == |url| || url[st + |r.value|] == '/'))
  {
    var k := FirstWhere(|url|, IdAt(url), 0);
    if k < |url| {
      assert IdStart(url, k).Some? by {
        assert IdAt(url)(k);
      }
      var st := IdStart(url, k).value;
      IdStartShape(url, k);
      IdCapture(url, st, RunEnd(url, st, NotSlash));
    }
  }

  /** The run of characters other than "/" from a capture start is a
      non-empty piece of the URL found right after the prefix. */
  lemma IdCapture(url: string, st: nat, e: nat)
    requires st < |url| && url[st] != '/' && e == RunEnd(url, st, NotSlash)
    requires (st >= 10 && OccursAt(url, "/products/", st - 10)) || (st >= 9 && OccursAt(url, "/product/", st - 9))
    ensures var r := url[st..e];
      r != [] && '/' !in r &&
      exists st' :: 0 <= st' <= |url| - |r| && OccursAt(url, r, st') &&
        ((st' >= 10 && OccursAt(url, "/products/", st' - 10)) || (st' >= 9 && OccursAt(url, "/product/", st' - 9))) &&
        (st' + |r| == |url| || url[st' + |r|] == '/')
  {
    var r := url[st..e];
    assert forall m :: 0 <= m < |r| ==> r[m] == url[st + m] && NotSlash(url[st + m]);
    assert url[st..st + |r|] == r;
    assert OccursAt(url, r, st);
  }

  /** A match tried at `i` captures from right after "/products/" or
      "/product/", at a character other than "/". */
  lemma IdStartShape(url: string, i: nat)
    requires IdStart(url, i).Some?
    ensures var st := IdStart(url, i).value;
      st < |url| && url[st] != '/' &&
      ((st >= 10 && OccursAt(url, "/products/", st - 10)) || (st >= 9 && OccursAt(url, "/product/", st - 9)))
  {
  }

  // ---------------------------------------------------------------------------
  // `/\/products?\/[^/]+\/([^?]+)/`

  /** Where the capture starts when the pattern is tried at `i`: after the
      product id and the "/" that ends it, provided a character other than
      "?" follows. */
  function NameStart(s: string, i: nat): Option<nat>
  {
    match IdStart(s, i)
    case None => None
    case Some(st) =>
      var e := RunEnd(s, st, NotSlash);
      if e + 1 < |s| && s[e + 1] != '?' then Some(e + 1) else None
  }

  /** `url.match(/\/products?\/[^/]+\/([^?]+)/)?.[1]`. */
  function ProductNameCapture(url: string): Option<string>
  {
    var k := FirstWhere(|url|, NameAt(url), 0);
    if k == |url| then None
    else
      var st := NameStart(url, k).value;
      NameStartShape(url, k);
      Some(url[st..RunEnd(url, st, NotQuestion)])
  }

  /** Whether the pattern matches when tried at `i`. */
  function NameAt(url: string): nat -> bool
  {
    (i: nat) => NameStart(url, i).Some?
  }

  /** There is no capture exactly when the pattern matches nowhere. */
  lemma ProductNameCaptureNone(url: string)
    ensures ProductNameCapture(url).None? <==> forall i :: 0 <= i < |url| ==> NameStart(url, i).None?
  {
    var k := FirstWhere(|url|, NameAt(url), 0);
    if k == |url| {
      assert forall i :: 0 <= i < |url| ==> NameAt(url)(i) == NameStart(url, i).Some?;
    } else {
      assert NameAt(url)(k);
    }
  }

  /** A capture is a non-empty piece of the URL right after a "/", holding
      no "?", and running to the end of the URL or to a "?". */
  lemma ProductNameCaptureShape(url: string)
    ensures var r := ProductNameCapture(url);
      r.Some? ==> (r.value != [] && '?' !in r.value &&
      exists st :: 1 <= st <= |url| - |r.value| && OccursAt(url, r.value, st) && url[st - 1] == '/' &&
        (st + |r.value| == |url| || url[st + |r.value|] == '?'))
  {
    var k := FirstWhere(|url|, NameAt(url), 0);
    if k < |url| {
      var st := NameStart(url, k).value;
      NameStartShape(url, k);
      NameCaptureAt(url, st);
    }
  }

  lemma NameStartShape(s: string, i: nat)
    requires NameStart(s, i).Some?
    ensures var st := NameStart(s, i).value; 1 <= st < |s| && s[st - 1] == '/' && s[st] != '?'
  {
    var e := RunEnd(s, IdStart(s, i).value, NotSlash);
    assert !NotSlash(s[e]);
  }

  /** The capture that starts at `st`: the run of characters other than
      "?". */
  lemma NameCaptureAt(url: string, st: nat)
    requires 1 <= st < |url| && url[st - 1] == '/' && url[st] != '?'
    ensures var r := url[st..RunEnd(url, st, NotQuestion)];
      r != [] && '?' !in r && 1 <= st <= |url| - |r| && OccursAt(url, r, st) &&
      (st + |r| == |url| || url[st + |r|] == '?')
  {
    var e := RunEnd(url, st, NotQuestion);
    var r := url[st..e];
    assert forall m :: 0 <= m < |r| ==> r[m] == url[st + m];
  }

  // ---------------------------------------------------------------------------
  // `/\$([0-9]+(\.[0-9]+)?)/`

  function PriceAt(s: string, i: nat): bool
  {
    i + 1 < |s| && s[i] == '$' && IsDigit(s[i + 1])
  }

  /** The capture at a matching `i`: the digits, and a "." with the digits
      after it when there are any. */
  function PriceDigits(s: string, i: nat): (r: string)
    requires PriceAt(s, i)
    ensures r != [] && IsDigit(r[0])
    ensures forall m :: 0 <= m < |r| ==> IsDigit(r[m]) || r[m] == '.'
    ensures OccursAt(s, r, i + 1)
  {
    var d := RunEnd(s, i + 1, IsDigit);
    if d + 1 < |s| && s[d] == '.' && IsDigit(s[d + 1]) then
      var f := RunEnd(s, d + 1, IsDigit);
      assert forall m :: i + 1 <= m < f ==> IsDigit(s[m]) || s[m] == '.' by {
        forall m | i + 1 <= m < f ensures IsDigit(s[m]) || s[m] == '.' {
          if m > d { assert d + 1 <= m; }
        }
      }
      s[i + 1..f]
    else
      s[i + 1..d]
  }

  /** `url.match(/\$([0-9]+(\.[0-9]+)?)/)?.[1]`. */
  function PriceCapture(url: string): (r: Option<string>)
    ensures r.None? <==> forall i :: 0 <= i < |url| ==> !PriceAt(url, i)
    ensures r.Some? ==> r.value != [] && IsDigit(r.value[0]) && Contains(url, "$" + r.value)
  {
    var at := (i: nat) => PriceAt(url, i);
    var k := FirstWhere(|url|, at, 0);
    if k == |url| then
      assert forall i :: 0 <= i < |url| ==> at(i) == PriceAt(url, i);
      None
    else
      assert PriceAt(url, k) by { assert at(k); }
      PriceFound(url, k);
      Some(PriceDigits(url, k))
  }

  /** Where the pattern matches, the URL holds "$" and then the capture. */
  lemma PriceFound(url: string, k: nat)
    requires PriceAt(url, k)
    ensures Contains(url, "$" + PriceDigits(url, k))
  {
    var r := PriceDigits(url, k);
    assert OccursAt(url, "$" + r, k) by {
      assert url[k..k + 1 + |r|] == [url[k]] + url[k + 1..k + 1 + |r|];
    }
    ContainsAt(url, "$" + r, k);
  }

  // ---------------------------------------------------------------------------
  // `/bws\.com\.au\/([^/]+)\//`

  const Host := "bws.com.au"

  function CategoryAt(s: string, i: nat): bool
  {
    OccursAt(s, Host + "/", i) && i + 11 < |s| && s[i + 11] != '/' && RunEnd(s, i + 11, NotSlash) < |s|
  }

  /** `url.match(/bws\.com\.au\/([^/]+)\//)?.[1]`: the first path segment
      after the host, and only when a "/" closes it. */
  function CategoryCapture(url: string): (r: Option<string>)
    ensures r.None? <==> forall i :: 0 <= i < |url| ==> !CategoryAt(url, i)
    ensures r.Some? ==> r.value != [] && '/' !in r.value && Contains(url, Host + "/" + r.value + "/")
  {
    var at := (i: nat) => CategoryAt(url, i);
    var k := FirstWhere(|url|, at, 0);
    if k == |url| then
      assert forall i :: 0 <= i < |url| ==> at(i) == CategoryAt(url, i);
      None
    else
      assert CategoryAt(url, k) by {
        assert at(k);
      }
      CategorySegment(url, k);
      Some(url[k + 11..RunEnd(url, k + 11, NotSlash)])
  }

  /** Where the pattern matches, the capture is a non-empty segment without
      "/" that the URL holds between "bws.com.au/" and a "/". */
  lemma CategorySegment(url: string, k: nat)
    requires CategoryAt(url, k)
    ensures var r := url[k + 11..RunEnd(url, k + 11, NotSlash)];
      r != [] && '/' !in r && Contains(url, Host + "/" + r + "/")
  {
    var e := RunEnd(url, k + 11, NotSlash);
    var r := url[k + 11..e];
    assert forall m :: 0 <= m < |r| ==> r[m] == url[k + 11 + m] && NotSlash(url[k + 11 + m]);
    assert OccursAt(url, Host + "/" + r + "/", k) by {
      assert url[k..k + 11] == Host + "/";
      assert url[k..e + 1] == url[k..k + 11] + r + "/";
    }
    ContainsAt(url, Host + "/" + r + "/", k);
  }

  // ---------------------------------------------------------------------------
  // The record

  const VolumePattern := "/(\\d+(\\.\\d+)?)\\s*(ml|l|litre|liter)/i"
  const AlcoholPattern := "/(\\d+(\\.\\d+)?)\\s*%/"

  /** `name.match(re) || url.match(re)`, then the whole match or `null`. */
  function FirstOf(e: Engine, re: Regex, name: string, url: string): (v: Value)
    ensures v.VStr? || v.VNull?
  {
    match e.find(re, name)
    case Some(m) => VStr(m.whole)
    case None =>
      match e.find(re, url)
      case Some(m) => VStr(m.whole)
      case None => VNull
  }

  /** The hyphens of a capture turned into spaces, then title-cased. */
  function Readable(raw: string): string
  {
    TitleCase(ReplaceChar(raw, '-', ' '))
  }

  /** The object literal before the query parameters are spread into it. */
  function BwsFields(e: Engine, url: string, id: string, name: string): Record
  {
    var category := match CategoryCapture(url)
      case Some(c) => VStr(Readable(c))
      case None => VNull;
    var price := match PriceCapture(url)
      case Some(p) => VStr("$" + p)
      case None => VUndefined;
    [("productId", VStr(id)), ("productName", VStr(name)), ("sourceUrl", VStr(url)),
     ("_salvaged", VBool(true)), ("category", category), ("price", price),
     ("volume", FirstOf(e, VolumePattern, name, url)),
     ("alcoholPercentage", FirstOf(e, AlcoholPattern, name, url))]
  }

  function StrValue(s: string): Value
  {
    VStr(s)
  }

  /** `Object.fromEntries(new URL(url).searchParams)`. */
  function Params(u: Url): (r: Record)
    ensures DistinctKeys(r)
  {
    CopyKeepsKeysDistinct([], u.searchParams, StrValue);
    Copy([], u.searchParams, StrValue)
  }

  /** The product name: the capture after the product id, or the product id
      itself, made readable. */
  function ProductName(url: string, id: string): string
  {
    match ProductNameCapture(url)
    case Some(n) => Readable(n)
    case None => Readable(id)
  }

  /** `extractBwsProductInfo(url)`; `None` for `null`. */
  function ExtractBwsProductInfo(rt: Runtime, url: string): (r: Option<Record>)
    ensures r.None? <==>
      !Contains(url, Host) || ProductId(url).None? || rt.parseUrl(url).None?
  {
    if !Contains(url, Host) then None
    else
      match ProductId(url)
      case None => None
      case Some(id) =>
        match rt.parseUrl(url)
        case None => None
        case Some(u) =>
          var fields := BwsFields(rt.regex, url, id, ProductName(url, id));
          Some(Copy(fields, Params(u), Id))
  }

  // ---------------------------------------------------------------------------
  // Properties

  /** Every field of the result: a query parameter's last value wins over
      the field of the same name; otherwise `productId`, `productName`,
      `sourceUrl`, `_salvaged`, `category` and `price` are as the URL gives
      them, and no other key is present except `volume` and
      `alcoholPercentage`. */
  lemma BwsRecordFields(rt: Runtime, url: string, k: string)
    requires ExtractBwsProductInfo(rt, url).Some?
    ensures var r := ExtractBwsProductInfo(rt, url).value;
      var id := ProductId(url).value;
      var ps := rt.parseUrl(url).value.searchParams;
      Get(r, k) ==
        if k in Keys(ps) then Some(VStr(LastFor(ps, k)))
        else if k == "productId" then Some(VStr(id))
        else if k == "productName" then Some(VStr(ProductName(url, id)))
        else if k == "sourceUrl" then Some(VStr(url))
        else if k == "_salvaged" then Some(VBool(true))
        else if k == "category" then
          (if CategoryCapture(url).Some? then Some(VStr(Readable(CategoryCapture(url).value))) else Some(VNull))
        else if k == "price" then
          (if PriceCapture(url).Some? then Some(VStr("$" + PriceCapture(url).value)) else Some(VUndefined))
        else if k == "volume" || k == "alcoholPercentage" then Get(r, k)
        else None
  {
    var u := rt.parseUrl(url).value;
    var id := ProductId(url).value;
    var fields := BwsFields(rt.regex, url, id, ProductName(url, id));
    assert ExtractBwsProductInfo(rt, url).value == Copy(fields, Params(u), Id);
    ParamsWin(fields, u, k);
    if k !in Keys(u.searchParams) {
      BwsFieldsGet(rt.regex, url, id, ProductName(url, id), k);
    }
  }

  /** Reading the object literal: each of its eight keys gives its field. */
  lemma BwsFieldsGet(e: Engine, url: string, id: string, name: string, k: string)
    ensures Get(BwsFields(e, url, id, name), k) ==
      if k == "productId" then Some(VStr(id))
      else if k == "productName" then Some(VStr(name))
      else if k == "sourceUrl" then Some(VStr(url))
      else if k == "_salvaged" then Some(VBool(true))
      else if k == "category" then
        (if CategoryCapture(url).Some? then Some(VStr(Readable(CategoryCapture(url).value))) else Some(VNull))
      else if k == "price" then
        (if PriceCapture(url).Some? then Some(VStr("$" + PriceCapture(url).value)) else Some(VUndefined))
      else if k == "volume" then Some(FirstOf(e, VolumePattern, name, url))
      else if k == "alcoholPercentage" then Some(FirstOf(e, AlcoholPattern, name, url))
      else None
  {
    FieldsGet(BwsFields(e, url, id, name), k);
  }

  /** The literal's keys are not indexes, so the result lists its keys the
      way `Object.keys` does: a query parameter named "0" comes before them. */
  lemma BwsRecordKeyOrder(rt: Runtime, url: string)
    ensures ExtractBwsProductInfo(rt, url).Some? ==> InJsOrder(ExtractBwsProductInfo(rt, url).value)
  {
    if ExtractBwsProductInfo(rt, url).Some? {
      var id := ProductId(url).value;
      var u := rt.parseUrl(url).value;
      var fields := BwsFields(rt.regex, url, id, ProductName(url, id));
      assert ExtractBwsProductInfo(rt, url).value == Copy(fields, Params(u), Id);
      FieldsKeyOrder(rt.regex, url, id, ProductName(url, id));
      CopyKeepsJsOrder(fields, Params(u), Id);
    }
  }

  lemma FieldsKeyOrder(e: Engine, url: string, id: string, name: string)
    ensures InJsOrder(BwsFields(e, url, id, name))
  {
    var fields := BwsFields(e, url, id, name);
    assert fields[0].0[0] == 'p' && fields[1].0[0] == 'p' && fields[2].0[0] == 's' && fields[3].0[0] == '_';
    assert fields[4].0[0] == 'c' && fields[5].0[0] == 'p' && fields[6].0[0] == 'v' && fields[7].0[0] == 'a';
    NoIndexKeyInJsOrder(fields);
  }

  /** The spread: query parameters override, other keys keep their field. */
  lemma ParamsWin(fields: Record, u: Url, k: string)
    ensures Get(Copy(fields, Params(u), Id), k) ==
      if k in Keys(u.searchParams) then Some(VStr(LastFor(u.searchParams, k))) else Get(fields, k)
  {
    SpreadGet(fields, Params(u), k);
    CopyGet([], u.searchParams, StrValue, k);
    CopyKeys([], u.searchParams, StrValue);
  }

  lemma FieldsGet(fields: Record, k: string)
    requires |fields| == 8
    requires fields[0].0 == "productId" && fields[1].0 == "productName" && fields[2].0 == "sourceUrl"
    requires fields[3].0 == "_salvaged" && fields[4].0 == "category" && fields[5].0 == "price"
    requires fields[6].0 == "volume" && fields[7].0 == "alcoholPercentage"
    ensures Get(fields, k) ==
      if k == fields[0].0 then Some(fields[0].1)
      else if k == fields[1].0 then Some(fields[1].1)
      else if k == fields[2].0 then Some(fields[2].1)
      else if k == fields[3].0 then Some(fields[3].1)
      else if k == fields[4].0 then Some(fields[4].1)
      else if k == fields[5].0 then Some(fields[5].1)
      else if k == fields[6].0 then Some(fields[6].1)
      else if k == fields[7].0 then Some(fields[7].1)
      else None
  {
    var f := fields;
    assert f[1..][0] == f[1] && f[2..][0] == f[2] && f[3..][0] == f[3] && f[4..][0] == f[4];
    assert f[5..][0] == f[5] && f[6..][0] == f[6] && f[7..][0] == f[7] && f[8..] == [];
    assert f[1..][1..] == f[2..] && f[2..][1..] == f[3..] && f[3..][1..] == f[4..];
    assert f[4..][1..] == f[5..] && f[5..][1..] == f[6..] && f[6..][1..] == f[7..] && f[7..][1..] == f[8..];
  }

  /** The product name keeps the shape of its source: as many words, as
      many characters, and each character that of the capture (hyphens as
      spaces) with only word starts upper-cased. */
  lemma ProductNameShape(url: string, id: string)
    ensures var raw := if ProductNameCapture(url).Some? then ProductNameCapture(url).value else id;
      var spaced := ReplaceChar(raw, '-', ' ');
      var name := ProductName(url, id);
      |name| == |raw| && |Split(name, ' ')| == |Split(spaced, ' ')| && WordStartsUpper(spaced, name)
  {
    var raw := if ProductNameCapture(url).Some? then ProductNameCapture(url).value else id;
    TitleCasePreservesShape(ReplaceChar(raw, '-', ' '));
    TitleCaseChars(ReplaceChar(raw, '-', ' '));
  }
}
