/** The first-generation reader of the language model's reply: strip code
    fences and parse; on failure salvage the outermost brace span; on
    failure again fall back to a record derived from a Coles URL; and
    otherwise return a fixed error record. It never throws. */
module DataParser {
  import opened Wrappers
  import opened Strings
  import opened Records
  import opened Runtime

  // ---------------------------------------------------------------------------
  // Cleaning the reply

  /** `text.trim().replace(/```json|```/g, "").trim()` */
  function CleanedText(text: string): (r: string)
    ensures !Contains(r, Fence)
  {
    var stripped := StripFences(Trim(text));
    assert !Contains(Trim(stripped), Fence) by {
      StripFencesLeavesNoFence(Trim(text));
      TrimIsInfix(stripped);
      if Contains(Trim(stripped), Fence) {
        ContainsTransitive(stripped, Trim(stripped), Fence);
      }
    }
    Trim(stripped)
  }

  /** The aggressive clean-up of the salvage path: fences removed, every run
      of line breaks and then every run of white space replaced by one
      space, the result trimmed. */
  function AggressiveText(text: string): (r: string)
    ensures NoLineTerminator(r)
  {
    var collapsed := ReplaceRuns(ReplaceRuns(StripFences(Trim(text)), IsLineBreak), IsJsSpace);
    CollapsedHasNoLineTerminator(StripFences(Trim(text)));
    TrimIsInfix(collapsed);
    Trim(collapsed)
  }

  // ---------------------------------------------------------------------------
  // `/\{.*\}/`

  /** The first line terminator at or after `i`, or the end of `s`. */
  function LineEnd(s: string, i: nat): (k: nat)
    requires i <= |s|
    ensures i <= k <= |s|
    ensures k < |s| ==> IsLineTerminator(s[k])
    ensures forall m :: i <= m < k ==> !IsLineTerminator(s[m])
    decreases |s| - i
  {
    if i == |s| || IsLineTerminator(s[i]) then i else LineEnd(s, i + 1)
  }

  /** The last index in `lo..hi` holding `c`, or -1. */
  function LastIndexIn(s: string, c: char, lo: nat, hi: nat): (k: int)
    requires lo <= hi <= |s|
    ensures k == -1 || (lo <= k < hi && s[k] == c)
    ensures k == -1 ==> forall m :: lo <= m < hi ==> s[m] != c
    ensures k >= 0 ==> forall m :: k < m < hi ==> s[m] != c
    decreases hi - lo
  {
    if hi == lo then -1
    else if s[hi - 1] == c then hi - 1
    else LastIndexIn(s, c, lo, hi - 1)
  }

  /** `s.match(/\{.*\}/)` tried from index `i` on: the leftmost "{" that
      has a "}" after it on the same line, extended greedily to the last
      such "}". */
  function BraceSpanFrom(s: string, i: nat): (r: Option<string>)
    requires i <= |s|
    ensures r.Some? ==> |r.value| >= 2 && r.value[0] == '{' && r.value[|r.value| - 1] == '}'
    ensures r.Some? ==> exists a :: i <= a && OccursAt(s, r.value, a)
    decreases |s| - i
  {
    if i == |s| then None
    else
      var j := ClosingBrace(s, i);
      if s[i] == '{' && j >= 0 then
        SpanAt(s, i, j);
        Some(s[i..j + 1])
      else BraceSpanFrom(s, i + 1)
  }

  /** The last "}" after index `i` on the line of `i`, or -1. */
  function ClosingBrace(s: string, i: nat): (k: int)
    requires i < |s|
    ensures k == -1 || (i < k < |s| && s[k] == '}')
  {
    LastIndexIn(s, '}', i + 1, LineEnd(s, i + 1))
  }

  lemma SpanAt(s: string, i: nat, j: nat)
    requires i < j < |s| && s[i] == '{' && s[j] == '}'
    ensures var t := s[i..j + 1]; |t| >= 2 && t[0] == '{' && t[|t| - 1] == '}' && OccursAt(s, t, i)
  {
  }

  function BraceSpan(s: string): (r: Option<string>)
    ensures r.Some? ==> |r.value| >= 2 && r.value[0] == '{' && r.value[|r.value| - 1] == '}'
    ensures r.Some? ==> Contains(s, r.value)
  {
    var r := BraceSpanFrom(s, 0);
    assert r.Some? ==> Contains(s, r.value) by {
      if r.Some? {
        var a :| 0 <= a && OccursAt(s, r.value, a);
        ContainsAt(s, r.value, a);
      }
    }
    r
  }

  /** The first index at or after `i` holding `c`, or the end of `s`. */
  function FirstIndexFrom(s: string, c: char, i: nat): (k: nat)
    requires i <= |s|
    ensures i <= k <= |s|
    ensures k < |s| ==> s[k] == c
    ensures forall m :: i <= m < k ==> s[m] != c
    decreases |s| - i
  {
    if i == |s| || s[i] == c then i else FirstIndexFrom(s, c, i + 1)
  }

  /** From the first "{" at or after `i` through the last "}" of `s`, when
      that "}" comes after that "{". */
  function FirstToLastBrace(s: string, i: nat): Option<string>
    requires i <= |s|
  {
    var a := FirstIndexFrom(s, '{', i);
    var b := LastIndexIn(s, '}', 0, |s|);
    if a < |s| && b > a then Some(s[a..b + 1]) else None
  }

  /** On a text without line breaks the match runs from the first "{" to the
      last "}", and exists exactly when that "}" comes after that "{". */
  lemma {:induction false} BraceSpanOnOneLine(s: string, i: nat)
    requires i <= |s| && NoLineTerminator(s)
    ensures BraceSpanFrom(s, i) == FirstToLastBrace(s, i)
    decreases |s| - i
  {
    if i < |s| {
      if s[i] == '{' && ClosingBrace(s, i) >= 0 {
        SpanStartsHere(s, i);
        FirstToLastHere(s, i);
      } else {
        SpanStartsLater(s, i);
        FirstToLastLater(s, i);
        BraceSpanOnOneLine(s, i + 1);
      }
    }
  }

  /** On one line, a "{" with a "}" after it begins the span to the last "}". */
  lemma FirstToLastHere(s: string, i: nat)
    requires i < |s| && NoLineTerminator(s) && s[i] == '{' && ClosingBrace(s, i) >= 0
    ensures FirstToLastBrace(s, i) == Some(s[i..ClosingBrace(s, i) + 1])
  {
    ClosingBraceOnOneLine(s, i);
    LastInSuffix(s, '}', i + 1, |s|);
    assert FirstIndexFrom(s, '{', i) == i;
  }

  /** On one line, any other index leaves the span to the next index. */
  lemma FirstToLastLater(s: string, i: nat)
    requires i < |s| && NoLineTerminator(s) && !(s[i] == '{' && ClosingBrace(s, i) >= 0)
    ensures FirstToLastBrace(s, i) == FirstToLastBrace(s, i + 1)
  {
    ClosingBraceOnOneLine(s, i);
    LastInSuffix(s, '}', i + 1, |s|);
    if s[i] == '{' {
      assert FirstIndexFrom(s, '{', i) == i;
    } else {
      assert FirstIndexFrom(s, '{', i) == FirstIndexFrom(s, '{', i + 1);
    }
  }

  /** A "{" with a closing "}" on its line starts the match. */
  lemma SpanStartsHere(s: string, i: nat)
    requires i < |s| && s[i] == '{' && ClosingBrace(s, i) >= 0
    ensures BraceSpanFrom(s, i) == Some(s[i..ClosingBrace(s, i) + 1])
  {
  }

  /** Any other index leaves the match to the next one. */
  lemma SpanStartsLater(s: string, i: nat)
    requires i < |s| && !(s[i] == '{' && ClosingBrace(s, i) >= 0)
    ensures BraceSpanFrom(s, i) == BraceSpanFrom(s, i + 1)
  {
  }

  /** Without line breaks the closing "}" is the last one after `i`. */
  lemma ClosingBraceOnOneLine(s: string, i: nat)
    requires i < |s| && NoLineTerminator(s)
    ensures ClosingBrace(s, i) == LastIndexIn(s, '}', i + 1, |s|)
  {
    LineEndAtEnd(s, i + 1);
  }

  /** Without line breaks the line runs to the end of the text. */
  lemma LineEndAtEnd(s: string, i: nat)
    requires i <= |s| && NoLineTerminator(s)
    ensures LineEnd(s, i) == |s|
  {
  }

  /** The last `c` in `s[lo..hi]`, when there is one, is the last `c` in
      `s[..hi]`; when there is none, the last `c` in `s[..hi]` is before `lo`. */
  lemma LastInSuffix(s: string, c: char, lo: nat, hi: nat)
    requires lo <= hi <= |s|
    ensures var l := LastIndexIn(s, c, lo, hi); var b := LastIndexIn(s, c, 0, hi);
      (l >= 0 ==> l == b) && (l < 0 ==> b < lo)
  {
  }

  // ---------------------------------------------------------------------------
  // Records

  const SourceUrl := "sourceUrl"
  const Salvaged := "_salvaged"

  /** The record built from a parsed reply: `init` and then, for every entry
      of `Object.entries(j)`, the converted value; `None` where
      `Object.entries` throws (on `null`) or a conversion throws. */
  function FromParsed(init: Record, j: Json, convert: Json -> Option<Value>): (r: Option<Record>)
    ensures r.Some? <==> !j.JNull? && Converts(EntriesOf(j).value, convert)
  {
    match EntriesOf(j)
    case None => None
    case Some(es) => TryAssigned(init, es, convert)
  }

  /** No value of the entries is an array that `join` cannot print. */
  predicate JoinsPrint(es: Entries<Json>)
  {
    forall i :: 0 <= i < |es| ==> !(es[i].1.JArr? && Unprintable(es[i].1))
  }

  /** A first-generation attempt on this parse result runs to its `return`:
      the parse succeeded, `Object.entries` accepted the value, and no
      array in it made `join` throw. */
  predicate RunsThrough(parsed: Option<Json>)
  {
    parsed.Some? && !parsed.value.JNull? && JoinsPrint(EntriesOf(parsed.value).value)
  }

  /** The attempt yields a record exactly when it runs through; objects
      whose members cannot be printed never stop it. */
  lemma BuiltRunsThrough(init: Record, parsed: Option<Json>, stringify: Json -> string)
    ensures Built(init, parsed, Flattener(stringify)).Some? <==> RunsThrough(parsed)
  {
    if parsed.Some? && !parsed.value.JNull? {
      FlattenConverts(EntriesOf(parsed.value).value, stringify);
    }
  }

  function PrimaryInit(url: string): Record
  {
    [(SourceUrl, VStr(url))]
  }

  function SalvageInit(url: string): Record
  {
    [(SourceUrl, VStr(url)), (Salvaged, VBool(true))]
  }

  /** Neither initial record owns `__proto__`. */
  lemma InitsOwnNoProto(url: string)
    ensures ProtoKey !in Keys(PrimaryInit(url)) && ProtoKey !in Keys(SalvageInit(url))
  {
    assert ProtoKey[0] != SourceUrl[0] && ProtoKey[1] != Salvaged[1];
  }

  function ErrorRecord(url: string): Record
  {
    [("error", VStr("Failed to parse extracted data")), ("url", VStr(url))]
  }

  lemma ErrorRecordFields(url: string)
    ensures Get(ErrorRecord(url), "error") == Some(VStr("Failed to parse extracted data"))
    ensures Get(ErrorRecord(url), "url") == Some(VStr(url))
  {
    var r := ErrorRecord(url);
    assert |"error"| == 5 && |"url"| == 3;
    assert r[1..][0] == ("url", VStr(url));
  }

  /** The first parse: `JSON.parse` of the cleaned text. */
  function FirstParse(rt: Runtime, text: string): Option<Json>
  {
    rt.parseJson(CleanedText(text))
  }

  /** The salvage parse: `JSON.parse` of the brace span of the aggressively
      cleaned text; `None` when there is no span or it does not parse. */
  function SpanParse(rt: Runtime, text: string): Option<Json>
  {
    match BraceSpan(AggressiveText(text))
    case None => None
    case Some(span) => rt.parseJson(span)
  }

  /** The record built from a parse, when it gave a value `Object.entries`
      accepts and every value converts. */
  function Built(init: Record, parsed: Option<Json>, convert: Json -> Option<Value>): (r: Option<Record>)
    ensures r.Some? <==> parsed.Some? && !parsed.value.JNull? && Converts(EntriesOf(parsed.value).value, convert)
  {
    match parsed
    case None => None
    case Some(j) => FromParsed(init, j, convert)
  }

  /** The order of the attempts: the first parse's record, else the
      salvaged one, else the fallback, else the error record. */
  function Decide(primary: Option<Record>, salvage: Option<Record>, fallback: Option<Record>, url: string): Record
  {
    if primary.Some? then primary.value
    else if salvage.Some? then salvage.value
    else if fallback.Some? then fallback.value
    else ErrorRecord(url)
  }

  // ---------------------------------------------------------------------------
  // The Coles fallback

  /** The end of the capture of `/\/product\/(.+?)(?:\/|-|$)/` that starts
      at `p`: the first "/" or "-" after at least one character, or the end. */
  function SlugEnd(s: string, k: nat): (e: nat)
    requires 1 <= k <= |s|
    ensures k <= e <= |s|
    ensures e < |s| ==> s[e] == '/' || s[e] == '-'
    ensures forall m :: k <= m < e ==> s[m] != '/' && s[m] != '-'
    decreases |s| - k
  {
    if k == |s| || s[k] == '/' || s[k] == '-' then k else SlugEnd(s, k + 1)
  }

  const ProductSegment := "/product/"

  /** The capture of `/\/product\/(.+?)(?:\/|-|$)/` in `path`, searched from
      index `i`: the leftmost "/product/" followed by a capture that holds no
      line terminator. */
  function ColesSlugFrom(path: string, i: nat): (r: Option<string>)
    requires i <= |path|
    ensures r.Some? ==> |r.value| >= 1 && Contains(path, ProductSegment + r.value)
    ensures r.Some? ==> forall m :: 1 <= m < |r.value| ==> r.value[m] != '/' && r.value[m] != '-'
    decreases |path| - i
  {
    var at := IndexOf(path, ProductSegment, i);
    if at < 0 || at + 9 >= |path| then None
    else
      var p := at + 9;
      var e := SlugEnd(path, p + 1);
      if NoLineTerminator(path[p..e]) then
        SlugFound(path, at, e);
        Some(path[p..e])
      else ColesSlugFrom(path, at + 1)
  }

  /** The capture that follows a "/product/" found at `at`. */
  lemma SlugFound(path: string, at: nat, e: nat)
    requires OccursAt(path, ProductSegment, at) && at + 9 < e <= |path|
    ensures Contains(path, ProductSegment + path[at + 9..e])
  {
    assert path[at..at + 9] == ProductSegment;
    assert path[at..e] == path[at..at + 9] + path[at + 9..e];
    ContainsAt(path, ProductSegment + path[at + 9..e], at);
  }

  /** The product name of the fallback: the capture with hyphens turned into
      spaces and the first letter of each word upper-cased, or "Coles
      Product". */
  function ColesProductName(path: string): string
  {
    match ColesSlugFrom(path, 0)
    case None => "Coles Product"
    case Some(slug) => UpperWordStarts(ReplaceChar(slug, '-', ' '))
  }

  function ColesRecord(url: string, name: string): Record
  {
    [("productName", VStr(name)), (SourceUrl, VStr(url)), (Salvaged, VBool(true)),
     ("error", VStr("Partial data only - extraction failed"))]
  }

  /** The Coles fallback; `None` when the host is not Coles or `new URL`
      throws. */
  function ColesFallback(rt: Runtime, url: string): (r: Option<Record>)
    ensures r.Some? <==> rt.parseUrl(url).Some? && Contains(Lower(rt.parseUrl(url).value.hostname), "coles.com.au")
  {
    match rt.parseUrl(url)
    case None => None
    case Some(u) =>
      if Contains(Lower(u.hostname), "coles.com.au") then Some(ColesRecord(url, ColesProductName(u.pathname)))
      else None
  }

  // ---------------------------------------------------------------------------
  // parseProductData

  /** `parseProductData(text, url)`. */
  function ParsedRecord(rt: Runtime, text: string, url: string): Record
  {
    Decide(Built(PrimaryInit(url), FirstParse(rt, text), Flattener(rt.stringify)),
           Built(SalvageInit(url), SpanParse(rt, text), Flattener(rt.stringify)),
           ColesFallback(rt, url), url)
  }

  /** The source's control flow: the primary parse and its `forEach`, then
      the salvage and its `forEach`, then the fallbacks. */
  method ParseProductData(rt: Runtime, text: string, url: string) returns (result: Record)
    ensures result == ParsedRecord(rt, text, url)
  {
    var convert := Flattener(rt.stringify);
    var parsed := rt.parseJson(CleanedText(text));
    ghost var spanParse := SpanParse(rt, text);
    ghost var coles := ColesFallback(rt, url);
    if parsed.Some? {
      var entries := EntriesOf(parsed.value);
      if entries.Some? {
        var built := TryCopyInto(PrimaryInit(url), entries.value, convert);
        if built.Some? {
          TakePrimary(PrimaryInit(url), SalvageInit(url), parsed, spanParse, convert, coles, url);
          return built.value;
        }
      }
    }
    var span := BraceSpan(AggressiveText(text));
    if span.Some? {
      var salvaged := rt.parseJson(span.value);
      if salvaged.Some? {
        var entries := EntriesOf(salvaged.value);
        if entries.Some? {
          var built := TryCopyInto(SalvageInit(url), entries.value, convert);
          if built.Some? {
            TakeSalvage(PrimaryInit(url), SalvageInit(url), parsed, salvaged, convert, coles, url);
            return built.value;
          }
        }
      }
    }
    TakeFallback(PrimaryInit(url), SalvageInit(url), parsed, spanParse, convert, coles, url);
    var fallback := ColesFallback(rt, url);
    if fallback.Some? {
      return fallback.value;
    }
    return ErrorRecord(url);
  }

  // ---------------------------------------------------------------------------
  // The three outcomes of the attempts, for any two initial records and any
  // conversion of values

  lemma TakePrimary(i1: Record, i2: Record, p: Option<Json>, s: Option<Json>, convert: Json -> Option<Value>,
                    f: Option<Record>, url: string)
    requires p.Some? && EntriesOf(p.value).Some?
    requires TryAssigned(i1, EntriesOf(p.value).value, convert).Some?
    ensures Decide(Built(i1, p, convert), Built(i2, s, convert), f, url) ==
      TryAssigned(i1, EntriesOf(p.value).value, convert).value
  {
  }

  lemma TakeSalvage(i1: Record, i2: Record, p: Option<Json>, s: Option<Json>, convert: Json -> Option<Value>,
                    f: Option<Record>, url: string)
    requires Built(i1, p, convert).None?
    requires s.Some? && EntriesOf(s.value).Some?
    requires TryAssigned(i2, EntriesOf(s.value).value, convert).Some?
    ensures Decide(Built(i1, p, convert), Built(i2, s, convert), f, url) ==
      TryAssigned(i2, EntriesOf(s.value).value, convert).value
  {
  }

  lemma TakeFallback(i1: Record, i2: Record, p: Option<Json>, s: Option<Json>, convert: Json -> Option<Value>,
                     f: Option<Record>, url: string)
    requires Built(i1, p, convert).None? && Built(i2, s, convert).None?
    ensures Decide(Built(i1, p, convert), Built(i2, s, convert), f, url) ==
      if f.Some? then f.value else ErrorRecord(url)
  {
  }

  // ---------------------------------------------------------------------------
  // Properties

  lemma BuiltIsFlat(init: Record, parsed: Option<Json>, stringify: Json -> string)
    requires AllFlat(init)
    ensures Built(init, parsed, Flattener(stringify)).Some? ==> AllFlat(Built(init, parsed, Flattener(stringify)).value)
  {
    if Built(init, parsed, Flattener(stringify)).Some? {
      FlattenedRecordIsFlat(init, EntriesOf(parsed.value).value, stringify);
    }
  }

  /** Whichever attempt succeeds, the record is flat when both initial
      records and the fallback are. */
  lemma DecideIsFlat(i1: Record, i2: Record, p: Option<Json>, s: Option<Json>, f: Option<Record>, url: string,
                     stringify: Json -> string)
    requires AllFlat(i1) && AllFlat(i2)
    requires f.Some? ==> AllFlat(f.value)
    ensures AllFlat(Decide(Built(i1, p, Flattener(stringify)), Built(i2, s, Flattener(stringify)), f, url))
  {
    BuiltIsFlat(i1, p, stringify);
    BuiltIsFlat(i2, s, stringify);
    var e := ErrorRecord(url);
    assert Flat(e[0].1) && Flat(e[1].1);
  }

  lemma ColesIsFlat(rt: Runtime, url: string)
    ensures ColesFallback(rt, url).Some? ==> AllFlat(ColesFallback(rt, url).value)
  {
  }

  lemma InitsFlat(url: string)
    ensures AllFlat(PrimaryInit(url)) && AllFlat(SalvageInit(url))
  {
  }

  /** No field of any outcome is a nested object or array. */
  lemma ParsedRecordIsFlat(rt: Runtime, text: string, url: string)
    ensures AllFlat(ParsedRecord(rt, text, url))
  {
    InitsFlat(url);
    ColesIsFlat(rt, url);
    DecideIsFlat(PrimaryInit(url), SalvageInit(url), FirstParse(rt, text), SpanParse(rt, text), ColesFallback(rt, url), url,
                 rt.stringify);
  }

  /** Reading field `k` of the record built from the parsed value `j` when
      every value converts: the last value the object gives `k`, converted,
      else the initial one. */
  lemma BuiltFields(init: Record, j: Json, convert: Json -> Option<Value>, k: string)
    requires !j.JNull? && Converts(EntriesOf(j).value, convert)
    ensures var es := EntriesOf(j).value;
      Get(Built(init, Some(j), convert).value, k) ==
        if k in Keys(es) && (k != ProtoKey || ProtoKey in Keys(init)) then convert(LastFor(es, k))
        else Get(init, k)
  {
    TryAssignedGet(init, EntriesOf(j).value, convert, k);
  }

  /** The primary path, when it runs through: every reply key other than
      `__proto__` reads as its flattened last value; `sourceUrl` is the URL
      unless the reply has its own `sourceUrl`; no other key appears. */
  lemma PrimaryRecordFields(rt: Runtime, text: string, url: string, k: string)
    requires RunsThrough(FirstParse(rt, text))
    ensures var es := EntriesOf(FirstParse(rt, text).value).value;
      Get(ParsedRecord(rt, text, url), k) ==
        if k in Keys(es) && k != ProtoKey then Flatten(rt.stringify, LastFor(es, k))
        else if k == SourceUrl then Some(VStr(url))
        else None
  {
    var j := FirstParse(rt, text).value;
    BuiltRunsThrough(PrimaryInit(url), FirstParse(rt, text), rt.stringify);
    BuiltFields(PrimaryInit(url), j, Flattener(rt.stringify), k);
    InitsOwnNoProto(url);
    PrimaryInitGet(url, k);
    assert ParsedRecord(rt, text, url) == Built(PrimaryInit(url), Some(j), Flattener(rt.stringify)).value;
  }

  /** The primary path stops when an array in the reply cannot be printed
      (or the parse fails): the record is then whatever the salvage and the
      fallbacks give. */
  lemma PrimaryAbandoned(rt: Runtime, text: string, url: string)
    requires !RunsThrough(FirstParse(rt, text))
    ensures ParsedRecord(rt, text, url) ==
      Decide(None, Built(SalvageInit(url), SpanParse(rt, text), Flattener(rt.stringify)), ColesFallback(rt, url), url)
  {
    BuiltRunsThrough(PrimaryInit(url), FirstParse(rt, text), rt.stringify);
  }

  /** The salvage path runs only when the primary one does not run through,
      and marks its record `_salvaged: true` unless the reply sets that key
      itself. */
  lemma SalvagedRecordFields(rt: Runtime, text: string, url: string, k: string)
    requires !RunsThrough(FirstParse(rt, text))
    requires RunsThrough(SpanParse(rt, text))
    ensures var es := EntriesOf(SpanParse(rt, text).value).value;
      Get(ParsedRecord(rt, text, url), k) ==
        if k in Keys(es) && k != ProtoKey then Flatten(rt.stringify, LastFor(es, k))
        else if k == SourceUrl then Some(VStr(url))
        else if k == Salvaged then Some(VBool(true))
        else None
  {
    var j := SpanParse(rt, text).value;
    var convert := Flattener(rt.stringify);
    assert ParsedRecord(rt, text, url) == Built(SalvageInit(url), Some(j), convert).value by {
      BuiltRunsThrough(PrimaryInit(url), FirstParse(rt, text), rt.stringify);
      BuiltRunsThrough(SalvageInit(url), SpanParse(rt, text), rt.stringify);
    }
    assert ProtoKey !in Keys(SalvageInit(url)) by { InitsOwnNoProto(url); }
    BuiltRunsThrough(SalvageInit(url), SpanParse(rt, text), rt.stringify);
    BuiltFields(SalvageInit(url), j, convert, k);
    SalvageInitGet(url, k);
  }

  lemma PrimaryInitGet(url: string, k: string)
    ensures Get(PrimaryInit(url), k) == if k == SourceUrl then Some(VStr(url)) else None
  {
  }

  lemma SalvageInitGet(url: string, k: string)
    ensures Get(SalvageInit(url), k) ==
      if k == SourceUrl then Some(VStr(url)) else if k == Salvaged then Some(VBool(true)) else None
  {
  }

  /** When both parses fail: the Coles record for a Coles host, otherwise
      exactly the error record. */
  lemma FallbackRecord(rt: Runtime, text: string, url: string)
    requires !RunsThrough(FirstParse(rt, text)) && !RunsThrough(SpanParse(rt, text))
    ensures var r := ParsedRecord(rt, text, url);
      ColesFallback(rt, url).Some? ==>
        Get(r, "productName").Some? && Get(r, SourceUrl) == Some(VStr(url)) &&
        Get(r, Salvaged) == Some(VBool(true)) &&
        Get(r, "error") == Some(VStr("Partial data only - extraction failed"))
    ensures ColesFallback(rt, url).None? ==> ParsedRecord(rt, text, url) == ErrorRecord(url)
  {
    assert ParsedRecord(rt, text, url) == Decide(None, None, ColesFallback(rt, url), url) by {
      BuiltRunsThrough(PrimaryInit(url), FirstParse(rt, text), rt.stringify);
      BuiltRunsThrough(SalvageInit(url), SpanParse(rt, text), rt.stringify);
    }
    if ColesFallback(rt, url).Some? {
      var u := rt.parseUrl(url).value;
      ColesRecordFields(url, ColesProductName(u.pathname));
    }
  }

  lemma ColesRecordFields(url: string, name: string)
    ensures var r := ColesRecord(url, name);
      Get(r, "productName") == Some(VStr(name)) && Get(r, SourceUrl) == Some(VStr(url)) &&
      Get(r, Salvaged) == Some(VBool(true)) &&
      Get(r, "error") == Some(VStr("Partial data only - extraction failed"))
  {
    var r := ColesRecord(url, name);
    var ks := ["productName", SourceUrl, Salvaged, "error"];
    assert |ks[0]| == 11 && |ks[1]| == 9 && |ks[2]| == 9 && |ks[3]| == 5;
    assert ks[1][0] == 's' && ks[2][0] == '_';
    forall i | 0 <= i < 4 ensures Get(r, ks[i]) == Some(r[i].1) {
      GetAt(r, ks, i);
    }
  }

  /** In a record whose keys are pairwise different, the key at `i` reads
      the value at `i`. */
  lemma {:induction false} GetAt(r: Record, ks: seq<string>, i: nat)
    requires |ks| == |r| && i < |r|
    requires forall n :: 0 <= n < |r| ==> r[n].0 == ks[n]
    requires forall m, n :: 0 <= m < n < |ks| ==> ks[m] != ks[n]
    ensures Get(r, ks[i]) == Some(r[i].1)
  {
    if i > 0 {
      GetAt(r[1..], ks[1..], i - 1);
    }
  }

  /** The Coles product name: the capture after "/product/" up to the next
      "/" or "-", with hyphens turned into spaces and only the case of letters
      changed; otherwise "Coles Product". */
  lemma ColesProductNameShape(path: string)
    ensures ColesSlugFrom(path, 0).None? ==> ColesProductName(path) == "Coles Product"
    ensures ColesSlugFrom(path, 0).Some? ==>
      var slug := ColesSlugFrom(path, 0).value;
      var name := ColesProductName(path);
      Contains(path, ProductSegment + slug) &&
      Lower(name) == Lower(ReplaceChar(slug, '-', ' ')) &&
      forall m :: 1 <= m < |name| ==> name[m] != '/' && name[m] != '-'
  {
    if ColesSlugFrom(path, 0).Some? {
      var slug := ColesSlugFrom(path, 0).value;
      var spaced := ReplaceChar(slug, '-', ' ');
      var name := ColesProductName(path);
      forall m | 0 <= m < |name| ensures LowerChar(name[m]) == LowerChar(spaced[m]) {
        UpperLower(spaced[m]);
      }
      assert Lower(name) == Lower(spaced);
    }
  }

  /** Keys that are pairwise different and listed as `Object.keys` lists
      them. */
  predicate WellKeyed(r: Record)
  {
    DistinctKeys(r) && InJsOrder(r)
  }

  lemma BuiltKeyOrder(init: Record, p: Option<Json>, convert: Json -> Option<Value>)
    requires WellKeyed(init)
    ensures Built(init, p, convert).Some? ==> WellKeyed(Built(init, p, convert).value)
  {
    if Built(init, p, convert).Some? {
      TryAssignedKeyOrder(init, EntriesOf(p.value).value, convert);
    }
  }

  /** Whichever attempt wins, its record is well keyed when the initial
      records, the fallback and the error record are. */
  lemma DecideKeyOrder(i1: Record, i2: Record, p: Option<Json>, s: Option<Json>, convert: Json -> Option<Value>,
                       f: Option<Record>, url: string)
    requires WellKeyed(i1) && WellKeyed(i2) && WellKeyed(ErrorRecord(url))
    requires f.Some? ==> WellKeyed(f.value)
    ensures WellKeyed(Decide(Built(i1, p, convert), Built(i2, s, convert), f, url))
  {
    BuiltKeyOrder(i1, p, convert);
    BuiltKeyOrder(i2, s, convert);
  }

  /** The records with fixed keys have no index key and no repeated key. */
  lemma FixedRecordsKeyOrder(url: string, name: string)
    ensures WellKeyed(PrimaryInit(url)) && WellKeyed(SalvageInit(url))
    ensures WellKeyed(ErrorRecord(url)) && WellKeyed(ColesRecord(url, name))
  {
    var c := ColesRecord(url, name);
    assert c[0].0[0] == 'p' && c[1].0[0] == 's' && c[2].0[0] == '_' && c[3].0[0] == 'e';
    assert |c[0].0| == 11 && |c[1].0| == 9 && |c[2].0| == 9 && |c[3].0| == 5;
    NoIndexKeyInJsOrder(c);
    var e := ErrorRecord(url);
    assert e[0].0[0] == 'e' && e[1].0[0] == 'u';
    NoIndexKeyInJsOrder(e);
    var s := SalvageInit(url);
    assert s[0].0[0] == 's' && s[1].0[0] == '_';
    NoIndexKeyInJsOrder(s);
    assert PrimaryInit(url)[0].0[0] == 's';
    NoIndexKeyInJsOrder(PrimaryInit(url));
  }

  /** Every outcome lists its keys once each, in the order `Object.keys`
      gives them: index keys first in ascending numeric order, then the
      others. */
  lemma ParsedRecordKeyOrder(rt: Runtime, text: string, url: string)
    ensures WellKeyed(ParsedRecord(rt, text, url))
  {
    var name := match rt.parseUrl(url) case Some(u) => ColesProductName(u.pathname) case None => "";
    FixedRecordsKeyOrder(url, name);
    DecideKeyOrder(PrimaryInit(url), SalvageInit(url), FirstParse(rt, text), SpanParse(rt, text),
                   Flattener(rt.stringify), ColesFallback(rt, url), url);
  }

  // ---------------------------------------------------------------------------
  // A reply that parses to an array

  const MilkObject := JObj([("name", JStr("Milk"))])

  /** `Object.entries` of a one-element array: the index key "0". */
  lemma OneElementEntries(x: Json)
    ensures EntriesOf(JArr([x])) == Some([("0", x)])
  {
    assert NatToString(0) == "0";
    var es := seq(1, i requires 0 <= i < 1 => (NatToString(i), [x][i]));
    assert |es| == 1 && es[0] == ("0", x);
    assert es == [("0", x)];
    assert EntriesOf(JArr([x])) == Some(es);
  }

  /** Assigning the index key "0" to `{ sourceUrl: url }` lists it first. */
  lemma IndexKeyGoesFirst(url: string, x: Json, convert: Json -> Option<Value>)
    requires convert(x).Some?
    ensures TryAssigned(PrimaryInit(url), [("0", x)], convert) ==
      Some([("0", convert(x).value), (SourceUrl, VStr(url))])
  {
    assert "0" != ProtoKey;
    TryAssignedOne(PrimaryInit(url), "0", x, convert);
    assert Strings.DecimalValue("0") == 0 by {
      assert "0"[..0] == [];
    }
    assert IsIndexKey("0") && !IsIndexKey(SourceUrl);
    assert Put(PrimaryInit(url), "0", convert(x).value) == [("0", convert(x).value), (SourceUrl, VStr(url))];
  }

  /** The reply `[{"name":"Milk"}]`: the element is printed as "name: Milk"
      under the key "0", which comes before `sourceUrl`. */
  lemma ArrayReplyExample(rt: Runtime, text: string, url: string)
    requires FirstParse(rt, text) == Some(JArr([MilkObject]))
    ensures ParsedRecord(rt, text, url) == [("0", VStr("name: Milk")), (SourceUrl, VStr(url))]
  {
    MilkFlattened(rt.stringify, MilkObject);
    OneElementReply(url, SalvageInit(url), FirstParse(rt, text), SpanParse(rt, text), Flattener(rt.stringify),
                    ColesFallback(rt, url), MilkObject);
  }

  /** A first parse giving a one-element array whose element converts
      yields that element under "0", ahead of `sourceUrl`. */
  lemma OneElementReply(url: string, i2: Record, p: Option<Json>, s: Option<Json>, convert: Json -> Option<Value>,
                        f: Option<Record>, x: Json)
    requires p == Some(JArr([x])) && convert(x).Some?
    ensures Decide(Built(PrimaryInit(url), p, convert), Built(i2, s, convert), f, url) ==
      [("0", convert(x).value), (SourceUrl, VStr(url))]
  {
    OneElementEntries(x);
    IndexKeyGoesFirst(url, x, convert);
    TakePrimary(PrimaryInit(url), i2, p, s, convert, f, url);
  }

  lemma MilkFlattened(stringify: Json -> string, j: Json)
    requires j == MilkObject
    ensures Flatten(stringify, j) == Some(VStr("name: Milk"))
  {
    assert j.members[..0] == [];
    assert ObjEntries(j.members) == [("name", JStr("Milk"))];
    var es := [("name", JStr("Milk"))];
    assert ToStr(es[0].1) == Some("Milk");
    assert MemberTexts(es).value[0] == "name" + ": " + "Milk" == "name: Milk";
    assert |MemberTexts(es).value| == 1;
    assert MemberTexts(es).value == ["name: Milk"];
  }

  // ---------------------------------------------------------------------------
  // Worked examples, for the URL "http://x" and replies whose object is
  // `{"a": 1}`

  const ExampleUrl := "http://x"
  const Body := "{\"a\": 1}"
  const BodyJson := JObj([("a", JNum("1"))])
  const FencedReply := "```json\n{\"a\": 1}\n```"
  const ChattyReply := "text {\"a\": 1} more text"
  const NoJsonReply := "not json at all"

  /** A fenced reply is parsed after its fences are stripped. */
  lemma FencedReplyExample(rt: Runtime)
    requires rt.parseJson(Body) == Some(BodyJson)
    ensures ParsedRecord(rt, FencedReply, ExampleUrl) == [(SourceUrl, VStr(ExampleUrl)), ("a", VNum("1"))]
  {
    FencedCleaned(FencedReply);
    PrimaryBody(rt, FencedReply, ExampleUrl);
  }

  /** A reply with prose around the object fails the first parse and is
      salvaged from its brace span, marked `_salvaged`. */
  lemma ChattyReplyExample(rt: Runtime)
    requires rt.parseJson(ChattyReply) == None
    requires rt.parseJson(Body) == Some(BodyJson)
    ensures ParsedRecord(rt, ChattyReply, ExampleUrl) ==
      [(SourceUrl, VStr(ExampleUrl)), (Salvaged, VBool(true)), ("a", VNum("1"))]
  {
    ChattySteps(rt, ChattyReply);
  }

  lemma ChattySteps(rt: Runtime, text: string)
    requires text == ChattyReply
    requires rt.parseJson(text) == None
    requires rt.parseJson(Body) == Some(BodyJson)
    ensures ParsedRecord(rt, text, ExampleUrl) ==
      [(SourceUrl, VStr(ExampleUrl)), (Salvaged, VBool(true)), ("a", VNum("1"))]
  {
    ChattyParses(rt, text);
    SalvagedBody(rt, text, ExampleUrl);
  }

  lemma ChattyParses(rt: Runtime, text: string)
    requires text == ChattyReply
    requires rt.parseJson(text) == None
    requires rt.parseJson(Body) == Some(BodyJson)
    ensures FirstParse(rt, text) == None && SpanParse(rt, text) == Some(BodyJson)
  {
    ChattyCleaned(text);
    ChattySpan(text);
  }

  lemma ChattyCleaned(text: string)
    requires text == ChattyReply
    ensures CleanedText(text) == text && AggressiveText(text) == text
  {
    ChattyTrimmed(text);
    ChattyCollapsed(text);
  }

  lemma ChattyTrimmed(text: string)
    requires text == ChattyReply
    ensures CleanedText(text) == text
  {
    ChattyEnds();
    PlainCleaned(text);
  }

  lemma ChattyCollapsed(text: string)
    requires text == ChattyReply
    ensures AggressiveText(text) == text
  {
    ChattyEnds();
    ChattySpaces();
    UnchangedByAggressiveCleaning(text);
  }

  lemma ChattySpan(text: string)
    requires text == ChattyReply
    ensures BraceSpan(text) == Some(Body)
  {
    ChattyBraces();
    BraceSpanBetween(text, 5, 12);
  }

  /** A reply with no object at all, for a host other than Coles, gives the
      error record. */
  lemma NoJsonReplyExample(rt: Runtime)
    requires rt.parseJson(NoJsonReply) == None
    requires rt.parseUrl(ExampleUrl) == Some(Url("x", "/", []))
    ensures ParsedRecord(rt, NoJsonReply, ExampleUrl) == ErrorRecord(ExampleUrl)
  {
    NoJsonSteps(rt, NoJsonReply);
  }

  lemma NoJsonSteps(rt: Runtime, text: string)
    requires text == NoJsonReply
    requires rt.parseJson(text) == None
    requires rt.parseUrl(ExampleUrl) == Some(Url("x", "/", []))
    ensures ParsedRecord(rt, text, ExampleUrl) == ErrorRecord(ExampleUrl)
  {
    NoJsonParses(rt, text);
    ErrorPath(rt, text);
  }

  lemma NoJsonParses(rt: Runtime, text: string)
    requires text == NoJsonReply
    requires rt.parseJson(text) == None
    ensures FirstParse(rt, text) == None && SpanParse(rt, text) == None
  {
    NoJsonCleaned(text);
    NoJsonNoSpan(text);
  }

  lemma NoJsonCleaned(text: string)
    requires text == NoJsonReply
    ensures CleanedText(text) == text && AggressiveText(text) == text
  {
    NoJsonTrimmed(text);
    NoJsonCollapsed(text);
  }

  lemma NoJsonTrimmed(text: string)
    requires text == NoJsonReply
    ensures CleanedText(text) == text
  {
    NoJsonFacts();
    PlainCleaned(text);
  }

  lemma NoJsonCollapsed(text: string)
    requires text == NoJsonReply
    ensures AggressiveText(text) == text
  {
    NoJsonFacts();
    UnchangedByAggressiveCleaning(text);
  }

  lemma NoJsonNoSpan(text: string)
    requires text == NoJsonReply
    ensures BraceSpan(text) == None
  {
    NoJsonFacts();
    NoBraceSpan(text);
  }

  /** Both parses failing on a non-Coles host gives the error record. */
  lemma ErrorPath(rt: Runtime, text: string)
    requires FirstParse(rt, text) == None && SpanParse(rt, text) == None
    requires rt.parseUrl(ExampleUrl) == Some(Url("x", "/", []))
    ensures ParsedRecord(rt, text, ExampleUrl) == ErrorRecord(ExampleUrl)
  {
    NotColes();
    assert ColesFallback(rt, ExampleUrl) == None;
  }

  lemma NotColes()
    ensures !Contains(Lower("x"), "coles.com.au")
  {
  }

  /** The first parse yielding `{"a": 1}` gives that field after `sourceUrl`. */
  lemma PrimaryBody(rt: Runtime, text: string, url: string)
    requires FirstParse(rt, text) == Some(BodyJson)
    ensures ParsedRecord(rt, text, url) == [(SourceUrl, VStr(url)), ("a", VNum("1"))]
  {
    BodyEntries(BodyJson);
    PrimaryBuilt(url, rt.stringify);
    TakePrimary(PrimaryInit(url), SalvageInit(url), FirstParse(rt, text), SpanParse(rt, text),
                Flattener(rt.stringify), ColesFallback(rt, url), url);
  }

  lemma PrimaryBuilt(url: string, stringify: Json -> string)
    ensures TryAssigned(PrimaryInit(url), [("a", JNum("1"))], Flattener(stringify)) ==
      Some([(SourceUrl, VStr(url)), ("a", VNum("1"))])
  {
    var init := PrimaryInit(url);
    assert Keys(init) == [SourceUrl];
    OneFieldAdded(init, stringify);
    PrimaryShape(url);
  }

  lemma PrimaryShape(url: string)
    ensures PrimaryInit(url) + [("a", VNum("1"))] == [(SourceUrl, VStr(url)), ("a", VNum("1"))]
  {
  }

  /** The salvage yielding `{"a": 1}` gives that field after `sourceUrl`
      and `_salvaged`. */
  lemma SalvagedBody(rt: Runtime, text: string, url: string)
    requires FirstParse(rt, text) == None
    requires SpanParse(rt, text) == Some(BodyJson)
    ensures ParsedRecord(rt, text, url) ==
      [(SourceUrl, VStr(url)), (Salvaged, VBool(true)), ("a", VNum("1"))]
  {
    BodyEntries(BodyJson);
    SalvageBuilt(url, rt.stringify);
    TakeSalvage(PrimaryInit(url), SalvageInit(url), FirstParse(rt, text), SpanParse(rt, text),
                Flattener(rt.stringify), ColesFallback(rt, url), url);
  }

  lemma SalvageBuilt(url: string, stringify: Json -> string)
    ensures TryAssigned(SalvageInit(url), [("a", JNum("1"))], Flattener(stringify)) ==
      Some([(SourceUrl, VStr(url)), (Salvaged, VBool(true)), ("a", VNum("1"))])
  {
    var init := SalvageInit(url);
    assert Keys(init) == [SourceUrl, Salvaged];
    OneFieldAdded(init, stringify);
    SalvageShape(url);
  }

  lemma SalvageShape(url: string)
    ensures SalvageInit(url) + [("a", VNum("1"))] == [(SourceUrl, VStr(url)), (Salvaged, VBool(true)), ("a", VNum("1"))]
  {
  }

  lemma BodyEntries(j: Json)
    requires j == BodyJson
    ensures EntriesOf(j) == Some([("a", JNum("1"))])
  {
    var ms := [("a", JNum("1"))];
    assert Keys<Json>([]) == [];
    PutAppends<Json>([], "a", JNum("1"));
    assert Copy([], ms, Id) == Put(Copy([], ms[..0], Id), "a", JNum("1"));
  }

  /** `{"a": 1}` adds its one field after whatever `init` holds. */
  lemma OneFieldAdded(init: Record, stringify: Json -> string)
    requires "a" !in Keys(init)
    ensures TryAssigned(init, [("a", JNum("1"))], Flattener(stringify)) == Some(init + [("a", VNum("1"))])
  {
    assert Flattener(stringify)(JNum("1")) == Some(VNum("1"));
    TryAssignedOne(init, "a", JNum("1"), Flattener(stringify));
    PutAppends(init, "a", VNum("1"));
  }

  lemma FencedCleaned(text: string)
    requires text == FencedReply
    ensures CleanedText(text) == Body
  {
    FencedTrimmed(text);
    FencedStripped(text);
    BodyLineTrimmed("\n" + Body + "\n");
  }

  lemma FencedTrimmed(text: string)
    requires text == FencedReply
    ensures Trim(text) == text
  {
    assert text[0] == '`' && text[|text| - 1] == '`';
    TrimUnchanged(text);
  }

  lemma FencedStripped(text: string)
    requires text == FencedReply
    ensures StripFences(text) == "\n" + Body + "\n"
  {
    var inner := "\n" + Body + "\n";
    assert text == JsonFence + inner + Fence;
    assert JsonFence <= text && text[7..] == inner + Fence;
    assert '`' !in inner;
    StripFencesPlainPrefix(inner, Fence);
    assert StripFences(Fence) == [];
    assert inner + [] == inner;
  }

  lemma BodyLineTrimmed(inner: string)
    requires inner == "\n" + Body + "\n"
    ensures Trim(inner) == Body
  {
    assert Body[0] == '{' && Body[|Body| - 1] == '}';
    TrimNewlines(Body);
  }

  /** A text between two line feeds, with no white space at its ends, is
      what trimming leaves. */
  lemma TrimNewlines(b: string)
    requires b != [] && !IsJsSpace(b[0]) && !IsJsSpace(b[|b| - 1])
    ensures Trim("\n" + b + "\n") == b
  {
    var line := b + "\n";
    var s := "\n" + line;
    assert "\n" + b + "\n" == s;
    assert IsJsSpace(s[0]) && s[1..] == line;
    assert line[0] == b[0];
    assert TrimStart(line) == line;
    assert TrimStart(s) == line;
    assert line[..|line| - 1] == b && IsJsSpace(line[|line| - 1]);
    assert TrimEnd(line) == TrimEnd(b);
    assert TrimEnd(b) == b;
  }

  lemma ChattyEnds()
    ensures var t := ChattyReply;
      |t| == 23 && t[0] == 't' && t[22] == 't' && '`' !in t
  {
  }

  lemma ChattySpaces()
    ensures var t := ChattyReply;
      (forall k :: 0 <= k < |t| ==> !IsLineBreak(t[k])) &&
      (forall k :: 0 <= k < |t| && IsJsSpace(t[k]) ==> t[k] == ' ' && (k + 1 < |t| ==> !IsJsSpace(t[k + 1])))
  {
  }

  lemma ChattyBraces()
    ensures var t := ChattyReply;
      |t| == 23 && NoLineTerminator(t) && t[5] == '{' && t[12] == '}' && t[5..13] == Body &&
      (forall m :: 0 <= m < 5 ==> t[m] != '{') && (forall m :: 12 < m < |t| ==> t[m] != '}')
  {
  }

  lemma NoJsonFacts()
    ensures var t := NoJsonReply;
      |t| == 15 && t[0] == 'n' && t[14] == 'l' && '`' !in t && '{' !in t && NoLineTerminator(t) &&
      (forall k :: 0 <= k < |t| ==> !IsLineBreak(t[k])) &&
      (forall k :: 0 <= k < |t| && IsJsSpace(t[k]) ==> t[k] == ' ' && (k + 1 < |t| ==> !IsJsSpace(t[k + 1])))
  {
  }

  /** On one line, with the first "{" at `a` and the last "}" at `b > a`,
      the brace span is `s[a..b + 1]`. */
  lemma BraceSpanBetween(s: string, a: nat, b: nat)
    requires NoLineTerminator(s) && a < b < |s|
    requires s[a] == '{' && s[b] == '}'
    requires forall m :: 0 <= m < a ==> s[m] != '{'
    requires forall m :: b < m < |s| ==> s[m] != '}'
    ensures BraceSpan(s) == Some(s[a..b + 1])
  {
    assert FirstToLastBrace(s, 0) == Some(s[a..b + 1]) by {
      FirstIndexAt(s, '{', a);
      LastIndexAt(s, '}', b);
    }
    assert BraceSpanFrom(s, 0) == Some(s[a..b + 1]) by { BraceSpanOnOneLine(s, 0); }
  }

  lemma FirstIndexAt(s: string, c: char, a: nat)
    requires a < |s| && s[a] == c
    requires forall m :: 0 <= m < a ==> s[m] != c
    ensures FirstIndexFrom(s, c, 0) == a
  {
  }

  lemma LastIndexAt(s: string, c: char, b: nat)
    requires b < |s| && s[b] == c
    requires forall m :: b < m < |s| ==> s[m] != c
    ensures LastIndexIn(s, c, 0, |s|) == b
  {
  }

  /** On one line without a "{" there is no brace span. */
  lemma NoBraceSpan(s: string)
    requires NoLineTerminator(s) && '{' !in s
    ensures BraceSpan(s) == None
  {
    BraceSpanOnOneLine(s, 0);
  }

  /** A text without backticks or white space at either end is its own
      cleaned text. */
  lemma PlainCleaned(text: string)
    requires text != [] && !IsJsSpace(text[0]) && !IsJsSpace(text[|text| - 1])
    requires '`' !in text
    ensures CleanedText(text) == text
  {
    TrimUnchanged(text);
    StripFencesPlainPrefix(text, []);
    assert text + [] == text;
  }

  /** A one-line text without backticks, leading or trailing white space or
      doubled spaces comes through the aggressive clean-up unchanged. */
  lemma UnchangedByAggressiveCleaning(text: string)
    requires text != [] && !IsJsSpace(text[0]) && !IsJsSpace(text[|text| - 1])
    requires '`' !in text
    requires forall k :: 0 <= k < |text| ==> !IsLineBreak(text[k])
    requires forall k :: 0 <= k < |text| && IsJsSpace(text[k]) ==>
      text[k] == ' ' && (k + 1 < |text| ==> !IsJsSpace(text[k + 1]))
    ensures AggressiveText(text) == text
  {
    TrimUnchanged(text);
    StripFencesPlainPrefix(text, []);
    assert text + [] == text;
    ReplaceRunsUnchanged(text, IsLineBreak);
    ReplaceRunsUnchanged(text, IsJsSpace);
  }

  // ---------------------------------------------------------------------------
  // Replies with values that cannot be printed

  /** A one-line reply that is an object literal with no white space and no
      backticks goes unchanged through both clean-ups, and its brace span is
      the whole text: both attempts parse the same text. */
  lemma PlainObjectReply(rt: Runtime, text: string)
    requires |text| >= 2 && text[0] == '{' && text[|text| - 1] == '}' && '`' !in text
    requires forall k :: 0 <= k < |text| ==> !IsJsSpace(text[k]) && !IsLineTerminator(text[k])
    ensures FirstParse(rt, text) == rt.parseJson(text)
    ensures SpanParse(rt, text) == rt.parseJson(text)
  {
    PlainObjectCleaned(text);
    PlainObjectSpan(text);
  }

  lemma PlainObjectCleaned(text: string)
    requires |text| >= 2 && text[0] == '{' && text[|text| - 1] == '}' && '`' !in text
    requires forall k :: 0 <= k < |text| ==> !IsJsSpace(text[k])
    ensures CleanedText(text) == text && AggressiveText(text) == text
  {
    PlainCleaned(text);
    assert forall k :: 0 <= k < |text| ==> !IsLineBreak(text[k]);
    UnchangedByAggressiveCleaning(text);
  }

  lemma PlainObjectSpan(text: string)
    requires |text| >= 2 && text[0] == '{' && text[|text| - 1] == '}'
    requires forall k :: 0 <= k < |text| ==> !IsLineTerminator(text[k])
    ensures BraceSpan(text) == Some(text)
  {
    BraceSpanBetween(text, 0, |text| - 1);
    assert text[0..|text|] == text;
  }

  const DimsJson := JObj([("dims", JObj([("toString", JStr("x"))]))])

  /** `Object.entries` of an object with one member. */
  lemma OneMemberEntries(k: string, v: Json)
    ensures EntriesOf(JObj([(k, v)])) == Some([(k, v)])
  {
    var ms := [(k, v)];
    assert ms[..0] == [];
    assert Copy([], ms, Id) == Put(Copy([], ms[..0], Id), k, v);
  }

  /** The reply object `{"specs":{"dims":{"toString":"x"}}}`: printing
      `dims` inside `specs` throws, and the `catch` stores the
      `JSON.stringify` text of `specs`. */
  lemma StringifiedObjectExample(rt: Runtime, text: string, url: string)
    requires FirstParse(rt, text) == Some(JObj([("specs", DimsJson)]))
    ensures ParsedRecord(rt, text, url) == [(SourceUrl, VStr(url)), ("specs", VStr(rt.stringify(DimsJson)))]
  {
    OneMemberEntries("specs", DimsJson);
    StringifiedBuilt(url, rt.stringify);
    TakePrimary(PrimaryInit(url), SalvageInit(url), FirstParse(rt, text), SpanParse(rt, text),
                Flattener(rt.stringify), ColesFallback(rt, url), url);
  }

  lemma StringifiedBuilt(url: string, stringify: Json -> string)
    ensures TryAssigned(PrimaryInit(url), [("specs", DimsJson)], Flattener(stringify)) ==
      Some([(SourceUrl, VStr(url)), ("specs", VStr(stringify(DimsJson)))])
  {
    var v := VStr(stringify(DimsJson));
    assert Flattener(stringify)(DimsJson) == Some(v) by {
      FlattenStringifiesExample(stringify, DimsJson);
    }
    TryAssignedOne(PrimaryInit(url), "specs", DimsJson, Flattener(stringify));
    assert Keys(PrimaryInit(url)) == [SourceUrl] && !IsIndexKey("specs");
    PutAppends(PrimaryInit(url), "specs", v);
    assert PrimaryInit(url) + [("specs", v)] == [(SourceUrl, VStr(url)), ("specs", v)];
  }

  const TagsReply := "{\"tags\":[{\"toString\":\"x\"}]}"
  const TagsJson := JObj([("tags", JArr([JObj([("toString", JStr("x"))])]))])

  /** The reply `{"tags":[{"toString":"x"}]}`: `join` throws in the first
      attempt, and again in the salvage, which finds the same text; the
      record is the Coles fallback or the error record. */
  lemma ThrowingJoinExample(rt: Runtime, url: string)
    requires rt.parseJson(TagsReply) == Some(TagsJson)
    ensures ParsedRecord(rt, TagsReply, url) ==
      if ColesFallback(rt, url).Some? then ColesFallback(rt, url).value else ErrorRecord(url)
  {
    TagsFacts();
    PlainObjectReply(rt, TagsReply);
    TagsDoNotRunThrough();
    BuiltRunsThrough(PrimaryInit(url), Some(TagsJson), rt.stringify);
    BuiltRunsThrough(SalvageInit(url), Some(TagsJson), rt.stringify);
  }

  lemma TagsFacts()
    ensures var t := TagsReply;
      |t| == 27 && t[0] == '{' && t[26] == '}' && '`' !in t &&
      forall k :: 0 <= k < |t| ==> !IsJsSpace(t[k]) && !IsLineTerminator(t[k])
  {
  }

  /** The array under "tags" holds an object that owns "toString". */
  lemma TagsDoNotRunThrough()
    ensures !RunsThrough(Some(TagsJson))
  {
    var arr := JArr([JObj([("toString", JStr("x"))])]);
    OneMemberEntries("tags", arr);
    assert Keys(arr.elems[0].members) == ["toString"];
    assert Unprintable(arr.elems[0]);
    assert EntriesOf(TagsJson).value[0].1 == arr;
  }
}
