/** The second-generation batch extraction: the URLs are processed in order;
    each page is fetched once, then handed to the AI service up to three
    times, with a wait after each failure that depends on whether the
    failure was a rate limit; a fixed pause separates the URLs. */
module ExtractionService {
  import opened Wrappers
  import opened Strings
  import opened Records
  import opened Runtime
  import opened AiService

  // ---------------------------------------------------------------------------
  // JavaScript arithmetic on numbers that may be NaN

  function NumAdd(a: Num, b: int): (r: Num)
    ensures r.NaN? <==> a.NaN?
    ensures a.Finite? ==> r.n == a.n + b
  {
    if a.NaN? then NaN else Finite(a.n + b)
  }

  function NumMul(a: Num, b: int): (r: Num)
    ensures r.NaN? <==> a.NaN?
    ensures a.Finite? ==> r.n == a.n * b
  {
    if a.NaN? then NaN else Finite(a.n * b)
  }

  /** `Math.max(a, b)`: NaN when either operand is. */
  function NumMax(a: Num, b: int): (r: Num)
    ensures r.NaN? <==> a.NaN?
    ensures r.Finite? ==> r.n >= b && r.n >= a.n && (r.n == a.n || r.n == b)
  {
    if a.NaN? then NaN else if a.n >= b then a else Finite(b)
  }

  /** `Math.min(a, b)`: NaN when either operand is. */
  function NumMin(a: Num, b: int): (r: Num)
    ensures r.NaN? <==> a.NaN?
    ensures r.Finite? ==> r.n <= b && r.n <= a.n && (r.n == a.n || r.n == b)
  {
    if a.NaN? then NaN else if a.n <= b then a else Finite(b)
  }

  function Pow2(k: nat): (r: nat)
    ensures r >= 1
  {
    if k == 0 then 1 else 2 * Pow2(k - 1)
  }

  // ---------------------------------------------------------------------------
  // The waits

  const MaxRetries: nat := 3
  const InitialWait: int := 5000
  const BackoffCap: int := 30000
  const RateLimitBuffer: int := 5000
  const RateLimitFloor: int := 10000
  const BetweenUrls: int := 5000

  /** A failure counts as a rate limit when its reason says the SDK gave up
      retrying, or its response body mentions `rate_limit_exceeded`. */
  predicate IsRateLimit(f: Failure)
  {
    f.reason == Some("maxRetriesExceeded") ||
    (f.responseBody.Some? && Contains(f.responseBody.value, "rate_limit_exceeded"))
  }

  /** The wait the response headers ask for: `retry-after-ms` as is, else
      `retry-after` in seconds, else 0. An empty header is skipped, and a
      header `parseInt` cannot read gives NaN (nothing here throws). */
  function RetryAfter(rt: Runtime, f: Failure): (r: Num)
    ensures f.retryAfterMs.Some? && f.retryAfterMs.value != "" ==> r == rt.parseInt(f.retryAfterMs.value)
    ensures (f.retryAfterMs.None? || f.retryAfterMs.value == "") && f.retryAfter.Some? && f.retryAfter.value != "" ==>
      r == NumMul(rt.parseInt(f.retryAfter.value), 1000)
    ensures (f.retryAfterMs.None? || f.retryAfterMs.value == "") && (f.retryAfter.None? || f.retryAfter.value == "") ==>
      r == Finite(0)
  {
    if f.retryAfterMs.Some? && f.retryAfterMs.value != "" then rt.parseInt(f.retryAfterMs.value)
    else if f.retryAfter.Some? && f.retryAfter.value != "" then NumMul(rt.parseInt(f.retryAfter.value), 1000)
    else Finite(0)
  }

  /** The wait after a rate limit: the requested wait plus 5 s, never less
      than 10 s; exactly 10 s when no header asks for a wait. */
  function RateLimitWait(rt: Runtime, f: Failure): (w: Num)
    ensures w.Finite? ==> w.n >= RateLimitFloor
    ensures w.NaN? <==> RetryAfter(rt, f).NaN?
    ensures RetryAfter(rt, f).Finite? ==>
      w.n == if RetryAfter(rt, f).n + RateLimitBuffer >= RateLimitFloor then RetryAfter(rt, f).n + RateLimitBuffer
             else RateLimitFloor
  {
    NumMax(NumAdd(RetryAfter(rt, f), RateLimitBuffer), RateLimitFloor)
  }

  lemma NoHeaderWaitsTenSeconds(rt: Runtime, f: Failure)
    requires f.retryAfterMs.None? || f.retryAfterMs.value == ""
    requires f.retryAfter.None? || f.retryAfter.value == ""
    ensures RateLimitWait(rt, f) == Finite(RateLimitFloor)
  {
  }

  /** The wait after another failure, the `retries`-th: the current wait
      doubled `retries` times, never more than 30 s. */
  function Backoff(waitTime: Num, retries: nat): (b: Num)
    ensures b.Finite? ==> b.n <= BackoffCap
    ensures b.NaN? <==> waitTime.NaN?
    ensures waitTime.Finite? ==>
      b.n == if waitTime.n * Pow2(retries) <= BackoffCap then waitTime.n * Pow2(retries) else BackoffCap
  {
    NumMin(NumMul(waitTime, Pow2(retries)), BackoffCap)
  }

  // ---------------------------------------------------------------------------
  // Field stringification

  /** `typeof v === "object" && v !== null`. */
  predicate IsObject(v: Value)
  {
    v.VJson? && (v.j.JArr? || v.j.JObj?)
  }

  function Stringified(rt: Runtime, v: Value): Value
  {
    if IsObject(v) then VStr(rt.stringify(v.j)) else v
  }

  /** Every top-level object field replaced by its JSON text, in place. */
  function StringifyFields(rt: Runtime, r: Record): (s: Record)
    ensures |s| == |r|
    ensures forall i :: 0 <= i < |r| ==> s[i] == (r[i].0, Stringified(rt, r[i].1))
  {
    seq(|r|, i requires 0 <= i < |r| => (r[i].0, Stringified(rt, r[i].1)))
  }

  method StringifyObjectFields(rt: Runtime, r: Record) returns (s: Record)
    ensures s == StringifyFields(rt, r)
  {
    s := r;
    for i := 0 to |s|
      invariant |s| == |r|
      invariant forall k :: 0 <= k < i ==> s[k] == (r[k].0, Stringified(rt, r[k].1))
      invariant forall k :: i <= k < |s| ==> s[k] == r[k]
    {
      if IsObject(s[i].1) {
        s := s[i := (s[i].0, VStr(rt.stringify(s[i].1.j)))];
      }
    }
  }

  /** No field is left an object; the keys, their order and every other
      field are unchanged. */
  lemma StringifyFieldsShape(rt: Runtime, r: Record, k: string)
    ensures var s := StringifyFields(rt, r);
      Keys(s) == Keys(r) &&
      (forall i :: 0 <= i < |s| ==> !IsObject(s[i].1)) &&
      Get(s, k) == (if Get(r, k).Some? then Some(Stringified(rt, Get(r, k).value)) else None)
  {
    StringifyGet(rt, r, k);
  }

  lemma {:induction false} StringifyGet(rt: Runtime, r: Record, k: string)
    ensures Get(StringifyFields(rt, r), k) == (if Get(r, k).Some? then Some(Stringified(rt, Get(r, k).value)) else None)
    decreases |r|
  {
    if r != [] {
      var s := StringifyFields(rt, r);
      assert s[1..] == StringifyFields(rt, r[1..]);
      StringifyGet(rt, r[1..], k);
    }
  }

  /** The AI service only returns strings, numbers and `null`, so the step
      changes nothing on its records. */
  lemma StringifyScalarRecord(rt: Runtime, r: Record)
    requires AllScalar(r)
    ensures StringifyFields(rt, r) == r
  {
  }

  // ---------------------------------------------------------------------------
  // The retry loop

  /** The calls made and the records pushed. */
  datatype Trace = Trace(calls: seq<Call>, pushed: seq<Record>)

  function Prepend(calls: seq<Call>, t: Trace): Trace
  {
    Trace(calls + t.calls, t.pushed)
  }

  function GaveUpRecord(url: string): Record
  {
    [("error", VStr("Failed to process " + url + " after multiple attempts")), ("url", VStr(url))]
  }

  /** The retry loop from `retries` failures so far and the current
      `waitTime`; `attempt(a)` is how the a-th attempt ends. */
  function RetryFrom(rt: Runtime, attempt: nat -> Outcome, url: string, retries: nat, waitTime: Num): Trace
    decreases MaxRetries - retries
  {
    if retries >= MaxRetries then Trace([], [])
    else
      var o := attempt(retries);
      match o.result
      case Returned(r) => Trace(o.calls, [StringifyFields(rt, r)])
      case Threw(f) =>
        var next := retries + 1;
        if IsRateLimit(f) then
          var wait := RateLimitWait(rt, f);
          Prepend(o.calls + [SleepCall(wait)], RetryFrom(rt, attempt, url, next, wait))
        else if next < MaxRetries then
          Prepend(o.calls + [SleepCall(Backoff(waitTime, next))], RetryFrom(rt, attempt, url, next, waitTime))
        else Trace(o.calls, [GaveUpRecord(url)])
  }

  /** How many times the loop calls the attempt. */
  function AttemptsFrom(attempt: nat -> Outcome, retries: nat): (n: nat)
    ensures retries < MaxRetries ==> 1 <= n <= MaxRetries - retries
    ensures retries >= MaxRetries ==> n == 0
    decreases MaxRetries - retries
  {
    if retries >= MaxRetries then 0
    else
      match attempt(retries).result
      case Returned(_) => 1
      case Threw(f) =>
        if IsRateLimit(f) || retries + 1 < MaxRetries then 1 + AttemptsFrom(attempt, retries + 1) else 1
  }

  function CountGenerate(calls: seq<Call>): nat
  {
    if calls == [] then 0
    else (if calls[0].GenerateCall? then 1 else 0) + CountGenerate(calls[1..])
  }

  lemma {:induction false} CountGenerateAppend(a: seq<Call>, b: seq<Call>)
    ensures CountGenerate(a + b) == CountGenerate(a) + CountGenerate(b)
    decreases |a|
  {
    if a != [] {
      assert (a + b)[0] == a[0];
      assert (a + b)[1..] == a[1..] + b;
      CountGenerateAppend(a[1..], b);
    } else {
      assert a + b == b;
    }
  }

  /** At most three attempts, hence at most three model calls when each
      attempt makes at most one. */
  lemma {:induction false} AtMostThreeModelCalls(rt: Runtime, attempt: nat -> Outcome, url: string, retries: nat, waitTime: Num)
    requires forall a :: CountGenerate(attempt(a).calls) <= 1
    ensures CountGenerate(RetryFrom(rt, attempt, url, retries, waitTime).calls) <= AttemptsFrom(attempt, retries)
    ensures AttemptsFrom(attempt, retries) <= MaxRetries
    decreases MaxRetries - retries
  {
    if retries < MaxRetries {
      var o := attempt(retries);
      assert CountGenerate(o.calls) <= 1;
      if o.result.Threw? {
        var f := o.result.failure;
        var next := retries + 1;
        if IsRateLimit(f) {
          var wait := RateLimitWait(rt, f);
          assert RetryFrom(rt, attempt, url, retries, waitTime) ==
            Prepend(o.calls + [SleepCall(wait)], RetryFrom(rt, attempt, url, next, wait));
          assert AttemptsFrom(attempt, retries) == 1 + AttemptsFrom(attempt, next);
          AtMostThreeModelCalls(rt, attempt, url, next, wait);
          CountGenerateAppend(o.calls, [SleepCall(wait)]);
          CountGenerateAppend(o.calls + [SleepCall(wait)], RetryFrom(rt, attempt, url, next, wait).calls);
        } else if next < MaxRetries {
          assert RetryFrom(rt, attempt, url, retries, waitTime) ==
            Prepend(o.calls + [SleepCall(Backoff(waitTime, next))], RetryFrom(rt, attempt, url, next, waitTime));
          assert AttemptsFrom(attempt, retries) == 1 + AttemptsFrom(attempt, next);
          AtMostThreeModelCalls(rt, attempt, url, next, waitTime);
          CountGenerateAppend(o.calls, [SleepCall(Backoff(waitTime, next))]);
          CountGenerateAppend(o.calls + [SleepCall(Backoff(waitTime, next))], RetryFrom(rt, attempt, url, next, waitTime).calls);
        }
      }
    }
  }

  /** What the loop pushes: at most one record. Nothing exactly when the
      third attempt fails with a rate limit; the give-up record exactly when
      the third attempt fails otherwise. `ReturnedRecordPushed` gives the
      remaining case. */
  lemma {:induction false} RetryPushes(rt: Runtime, attempt: nat -> Outcome, url: string, retries: nat, waitTime: Num)
    requires retries < MaxRetries
    ensures var t := RetryFrom(rt, attempt, url, retries, waitTime);
      |t.pushed| <= 1 &&
      (t.pushed == [] <==>
         (attempt(2).result.Threw? && IsRateLimit(attempt(2).result.failure) &&
          forall a :: retries <= a < 2 ==> attempt(a).result.Threw?)) &&
      (t.pushed == [GaveUpRecord(url)] && (forall a :: retries <= a < 3 ==> attempt(a).result.Threw?) <==>
         (forall a :: retries <= a < 3 ==> attempt(a).result.Threw?) && !IsRateLimit(attempt(2).result.failure))
    decreases MaxRetries - retries
  {
    var o := attempt(retries);
    if o.result.Threw? && retries + 1 < MaxRetries {
      var f := o.result.failure;
      var wait := if IsRateLimit(f) then RateLimitWait(rt, f) else waitTime;
      RetryPushes(rt, attempt, url, retries + 1, wait);
    }
  }

  /** When attempt `a` is the first to return, the loop pushes its record,
      stringified, and nothing else. */
  lemma {:induction false} ReturnedRecordPushed(rt: Runtime, attempt: nat -> Outcome, url: string, retries: nat,
                                                waitTime: Num, a: nat, r: Record)
    requires retries <= a < MaxRetries
    requires forall b :: retries <= b < a ==> attempt(b).result.Threw?
    requires attempt(a).result == Returned(r)
    ensures RetryFrom(rt, attempt, url, retries, waitTime).pushed == [StringifyFields(rt, r)]
    decreases a - retries
  {
    if retries < a {
      var f := attempt(retries).result.failure;
      var wait := if IsRateLimit(f) then RateLimitWait(rt, f) else waitTime;
      ReturnedRecordPushed(rt, attempt, url, retries + 1, wait, a, r);
    }
  }

  /** The loop ends at the first attempt that returns, pushing its record
      and waiting no more. */
  lemma FirstReturnEndsLoop(rt: Runtime, attempt: nat -> Outcome, url: string, waitTime: Num)
    requires attempt(0).result.Returned?
    ensures RetryFrom(rt, attempt, url, 0, waitTime) ==
      Trace(attempt(0).calls, [StringifyFields(rt, attempt(0).result.record)])
    ensures AttemptsFrom(attempt, 0) == 1
  {
  }

  /** Three failures that are not rate limits, with no calls of their own:
      waits of 10 s and 20 s (5 s doubled, then doubled twice), then the
      give-up record. */
  lemma PlainFailures(rt: Runtime, attempt: nat -> Outcome, url: string)
    requires forall a :: a < 3 ==> attempt(a).calls == [] && attempt(a).result.Threw? && !IsRateLimit(attempt(a).result.failure)
    ensures RetryFrom(rt, attempt, url, 0, Finite(InitialWait)) ==
      Trace([SleepCall(Finite(10000)), SleepCall(Finite(20000))], [GaveUpRecord(url)])
  {
    assert attempt(0).calls == [] && attempt(1).calls == [] && attempt(2).calls == [];
    assert Backoff(Finite(5000), 1) == Finite(10000) && Backoff(Finite(5000), 2) == Finite(20000);
  }

  /** Three rate limits without headers, with no calls of their own: three
      waits of 10 s and no record at all. */
  lemma RateLimitedThrice(rt: Runtime, attempt: nat -> Outcome, url: string, waitTime: Num)
    requires forall a :: a < 3 ==>
      attempt(a).calls == [] && attempt(a).result.Threw? && IsRateLimit(attempt(a).result.failure) &&
      attempt(a).result.failure.retryAfterMs.None? && attempt(a).result.failure.retryAfter.None?
    ensures RetryFrom(rt, attempt, url, 0, waitTime) ==
      Trace([SleepCall(Finite(10000)), SleepCall(Finite(10000)), SleepCall(Finite(10000))], [])
  {
    assert attempt(0).calls == [] && attempt(1).calls == [] && attempt(2).calls == [];
  }

  /** A rate-limit wait replaces `waitTime`: a later backoff doubles the
      rate-limit wait, not the initial 5 s. */
  lemma BackoffAfterRateLimit(rt: Runtime, attempt: nat -> Outcome, url: string, f: Failure, g: Failure)
    requires attempt(0) == Outcome([], Threw(f)) && IsRateLimit(f)
    requires attempt(1) == Outcome([], Threw(g)) && !IsRateLimit(g)
    requires f.retryAfterMs.None? && f.retryAfter.None?
    ensures RetryFrom(rt, attempt, url, 0, Finite(InitialWait)).calls[..2] ==
      [SleepCall(Finite(10000)), SleepCall(Finite(30000))]
  {
    var t := RetryFrom(rt, attempt, url, 2, Finite(10000));
    assert RetryFrom(rt, attempt, url, 0, Finite(InitialWait)).calls ==
      [SleepCall(Finite(10000)), SleepCall(Finite(30000))] + t.calls;
  }

  /** Every finite wait among the calls is at least the 10 s floor. */
  ghost predicate WaitsAboveFloor(cs: seq<Call>)
  {
    forall c :: c in cs && c.SleepCall? && c.ms.Finite? ==> c.ms.n >= RateLimitFloor
  }

  /** Every wait among the calls is finite and at most the 30 s cap. */
  ghost predicate WaitsCapped(cs: seq<Call>)
  {
    forall c :: c in cs && c.SleepCall? ==> c.ms.Finite? && c.ms.n <= BackoffCap
  }

  ghost predicate NoWaits(cs: seq<Call>)
  {
    forall c :: c in cs ==> !c.SleepCall?
  }

  /** Every wait of the loop is at least 10 s (or NaN): a rate-limit wait by
      its floor, a backoff because it doubles a wait of at least 5 s at least
      once. When no failure is a rate limit, every wait is at most 30 s. */
  lemma {:induction false} RetryWaits(rt: Runtime, attempt: nat -> Outcome, url: string, retries: nat, waitTime: Num)
    requires forall a :: NoWaits(attempt(a).calls)
    requires waitTime.Finite? ==> waitTime.n >= InitialWait
    ensures WaitsAboveFloor(RetryFrom(rt, attempt, url, retries, waitTime).calls)
    ensures waitTime.Finite? && (forall a :: retries <= a < MaxRetries && attempt(a).result.Threw? ==> !IsRateLimit(attempt(a).result.failure)) ==>
      WaitsCapped(RetryFrom(rt, attempt, url, retries, waitTime).calls)
    decreases MaxRetries - retries
  {
    if retries < MaxRetries {
      var o := attempt(retries);
      var t := RetryFrom(rt, attempt, url, retries, waitTime);
      assert NoWaits(o.calls);
      if o.result.Threw? {
        var f := o.result.failure;
        var next := retries + 1;
        if IsRateLimit(f) {
          var wait := RateLimitWait(rt, f);
          var rest := RetryFrom(rt, attempt, url, next, wait);
          RetryWaits(rt, attempt, url, next, wait);
          assert t.calls == o.calls + [SleepCall(wait)] + rest.calls;
          JoinWaits(o.calls, SleepCall(wait), rest.calls);
        } else if next < MaxRetries {
          var wait := Backoff(waitTime, next);
          var rest := RetryFrom(rt, attempt, url, next, waitTime);
          RetryWaits(rt, attempt, url, next, waitTime);
          BackoffAboveFloor(waitTime, next);
          assert t.calls == o.calls + [SleepCall(wait)] + rest.calls;
          JoinWaits(o.calls, SleepCall(wait), rest.calls);
        } else {
          assert t.calls == o.calls;
        }
      } else {
        assert t.calls == o.calls;
      }
    }
  }

  lemma JoinWaits(a: seq<Call>, s: Call, b: seq<Call>)
    requires NoWaits(a)
    ensures WaitsAboveFloor([s]) && WaitsAboveFloor(b) ==> WaitsAboveFloor(a + [s] + b)
    ensures WaitsCapped([s]) && WaitsCapped(b) ==> WaitsCapped(a + [s] + b)
  {
  }

  /** A backoff from a wait of at least 5 s lies between the 10 s floor and
      the 30 s cap. */
  lemma BackoffAboveFloor(waitTime: Num, retries: nat)
    requires retries >= 1
    requires waitTime.Finite? ==> waitTime.n >= InitialWait
    ensures Backoff(waitTime, retries).Finite? ==> RateLimitFloor <= Backoff(waitTime, retries).n <= BackoffCap
  {
    if waitTime.Finite? {
      assert Pow2(retries) >= 2 by { assert Pow2(retries) == 2 * Pow2(retries - 1); }
      MulAtLeastTwice(waitTime.n, Pow2(retries));
    }
  }

  lemma MulAtLeastTwice(a: int, p: int)
    requires a >= 0 && p >= 2
    ensures a * p >= a * 2
  {
    assert a * p == a * 2 + a * (p - 2);
  }

  // ---------------------------------------------------------------------------
  // extractProductData

  function FetchErrorRecord(url: string): Record
  {
    [("error", VStr("Failed to process " + url)), ("url", VStr(url))]
  }

  /** The attempts for the i-th URL: each calls the AI service on the page,
      answered by that attempt's model reply. */
  function AttemptsFor(rt: Runtime, w: World, i: nat, html: string, url: string, instruction: string): nat -> Outcome
  {
    (a: nat) => ExtractDataWithAI(rt, html, url, instruction, w.reply(i, a))
  }

  /** The i-th of n URLs: one fetch; a failed fetch or a non-OK status gives
      the fetch error record and nothing else; otherwise the retry loop,
      then a 5 s pause unless this is the last URL. */
  function ForUrl(rt: Runtime, w: World, i: nat, n: nat, url: string, instruction: string): Trace
  {
    var reply := w.fetch(i);
    if reply.FetchFailed? || !reply.ok then Trace([FetchCall(url)], [FetchErrorRecord(url)])
    else
      var t := RetryFrom(rt, AttemptsFor(rt, w, i, reply.body, url, instruction), url, 0, Finite(InitialWait));
      Trace([FetchCall(url)] + t.calls + (if i + 1 < n then [SleepCall(Finite(BetweenUrls))] else []), t.pushed)
  }

  /** The traces of steps 0 .. k-1, one after the other. */
  function Sequenced(step: nat -> Trace, k: nat): Trace
  {
    if k == 0 then Trace([], [])
    else
      var before := Sequenced(step, k - 1);
      Trace(before.calls + step(k - 1).calls, before.pushed + step(k - 1).pushed)
  }

  /** The j-th URL of the batch. */
  function UrlSteps(rt: Runtime, w: World, urls: seq<string>, instruction: string): nat -> Trace
  {
    (j: nat) => if j < |urls| then ForUrl(rt, w, j, |urls|, urls[j], instruction) else Trace([], [])
  }

  /** The first k URLs of the batch. */
  function Run(rt: Runtime, w: World, urls: seq<string>, instruction: string, k: nat): Trace
    requires k <= |urls|
  {
    Sequenced(UrlSteps(rt, w, urls, instruction), k)
  }

  lemma RunNext(rt: Runtime, w: World, urls: seq<string>, instruction: string, i: nat)
    requires i < |urls|
    ensures var before := Run(rt, w, urls, instruction, i);
      var t := ForUrl(rt, w, i, |urls|, urls[i], instruction);
      Run(rt, w, urls, instruction, i + 1) == Trace(before.calls + t.calls, before.pushed + t.pushed)
  {
    assert UrlSteps(rt, w, urls, instruction)(i) == ForUrl(rt, w, i, |urls|, urls[i], instruction);
  }

  /** The retry loop of one URL, as the source runs it; `attempt(a)` stands
      for the a-th `extractDataWithAI` call on the page. */
  method RetryExtraction(rt: Runtime, attempt: nat -> Outcome, url: string)
    returns (calls: seq<Call>, pushed: seq<Record>)
    ensures Trace(calls, pushed) == RetryFrom(rt, attempt, url, 0, Finite(InitialWait))
  {
    ghost var total := RetryFrom(rt, attempt, url, 0, Finite(InitialWait));
    var retries: nat := 0;
    var waitTime := Finite(InitialWait);
    var extracted: Option<Record> := None;
    calls, pushed := [], [];
    ghost var rest := total;
    while retries < MaxRetries && extracted.None?
      invariant retries <= MaxRetries
      invariant extracted.None? ==> rest == RetryFrom(rt, attempt, url, retries, waitTime)
      invariant extracted.Some? ==> rest == Trace([], [])
      invariant calls + rest.calls == total.calls && pushed + rest.pushed == total.pushed
      decreases MaxRetries - retries, if extracted.None? then 1 else 0
    {
      var o := attempt(retries);
      ghost var before := calls;
      calls := calls + o.calls;
      match o.result {
        case Returned(r) =>
          var s := StringifyObjectFields(rt, r);
          ReturnedPass(rt, attempt, url, retries, waitTime, before, pushed, total);
          pushed := pushed + [s];
          extracted := Some(s);
          rest := Trace([], []);
        case Threw(f) =>
          retries := retries + 1;
          if IsRateLimit(f) {
            var wait := RateLimitWait(rt, f);
            RateLimitedPass(rt, attempt, url, retries - 1, waitTime, before, pushed, total);
            waitTime := wait;
            calls := calls + [SleepCall(wait)];
            rest := RetryFrom(rt, attempt, url, retries, waitTime);
          } else if retries < MaxRetries {
            var backoff := Backoff(waitTime, retries);
            BackedOffPass(rt, attempt, url, retries - 1, waitTime, before, pushed, total);
            calls := calls + [SleepCall(backoff)];
            rest := RetryFrom(rt, attempt, url, retries, waitTime);
          } else {
            GaveUpPass(rt, attempt, url, retries - 1, waitTime, before, pushed, total);
            pushed := pushed + [GaveUpRecord(url)];
            rest := Trace([], []);
            break;
          }
      }
    }
    assert calls + [] == calls && pushed + [] == pushed;
  }

  // One pass of the retry loop: if `before` and `pushed` followed by the
  // trace from `retries` failures make up `total`, so do the calls and
  // records after the pass followed by the trace from where it leaves off.

  lemma ReturnedPass(rt: Runtime, attempt: nat -> Outcome, url: string, retries: nat, waitTime: Num,
                     before: seq<Call>, pushed: seq<Record>, total: Trace)
    requires retries < MaxRetries && attempt(retries).result.Returned?
    requires before + RetryFrom(rt, attempt, url, retries, waitTime).calls == total.calls
    requires pushed + RetryFrom(rt, attempt, url, retries, waitTime).pushed == total.pushed
    ensures var o := attempt(retries);
      before + o.calls + [] == total.calls &&
      pushed + [StringifyFields(rt, o.result.record)] + [] == total.pushed
  {
    var o := attempt(retries);
    assert RetryFrom(rt, attempt, url, retries, waitTime) == Trace(o.calls, [StringifyFields(rt, o.result.record)]);
    CallsAssoc(before, o.calls, []);
  }

  lemma RateLimitedPass(rt: Runtime, attempt: nat -> Outcome, url: string, retries: nat, waitTime: Num,
                        before: seq<Call>, pushed: seq<Record>, total: Trace)
    requires retries < MaxRetries && attempt(retries).result.Threw?
    requires IsRateLimit(attempt(retries).result.failure)
    requires before + RetryFrom(rt, attempt, url, retries, waitTime).calls == total.calls
    requires pushed + RetryFrom(rt, attempt, url, retries, waitTime).pushed == total.pushed
    ensures var o := attempt(retries); var wait := RateLimitWait(rt, o.result.failure);
      var rest := RetryFrom(rt, attempt, url, retries + 1, wait);
      before + o.calls + [SleepCall(wait)] + rest.calls == total.calls && pushed + rest.pushed == total.pushed
  {
    var o := attempt(retries);
    var wait := RateLimitWait(rt, o.result.failure);
    var rest := RetryFrom(rt, attempt, url, retries + 1, wait);
    assert RetryFrom(rt, attempt, url, retries, waitTime) == Prepend(o.calls + [SleepCall(wait)], rest);
    CallsAssoc(before, o.calls + [SleepCall(wait)], rest.calls);
  }

  lemma BackedOffPass(rt: Runtime, attempt: nat -> Outcome, url: string, retries: nat, waitTime: Num,
                      before: seq<Call>, pushed: seq<Record>, total: Trace)
    requires retries + 1 < MaxRetries && attempt(retries).result.Threw?
    requires !IsRateLimit(attempt(retries).result.failure)
    requires before + RetryFrom(rt, attempt, url, retries, waitTime).calls == total.calls
    requires pushed + RetryFrom(rt, attempt, url, retries, waitTime).pushed == total.pushed
    ensures var o := attempt(retries);
      var rest := RetryFrom(rt, attempt, url, retries + 1, waitTime);
      before + o.calls + [SleepCall(Backoff(waitTime, retries + 1))] + rest.calls == total.calls &&
      pushed + rest.pushed == total.pushed
  {
    var o := attempt(retries);
    var rest := RetryFrom(rt, attempt, url, retries + 1, waitTime);
    var sleep := [SleepCall(Backoff(waitTime, retries + 1))];
    assert RetryFrom(rt, attempt, url, retries, waitTime) == Prepend(o.calls + sleep, rest);
    CallsAssoc(before, o.calls + sleep, rest.calls);
  }

  lemma GaveUpPass(rt: Runtime, attempt: nat -> Outcome, url: string, retries: nat, waitTime: Num,
                   before: seq<Call>, pushed: seq<Record>, total: Trace)
    requires retries + 1 == MaxRetries && attempt(retries).result.Threw?
    requires !IsRateLimit(attempt(retries).result.failure)
    requires before + RetryFrom(rt, attempt, url, retries, waitTime).calls == total.calls
    requires pushed + RetryFrom(rt, attempt, url, retries, waitTime).pushed == total.pushed
    ensures before + attempt(retries).calls + [] == total.calls &&
      pushed + [GaveUpRecord(url)] + [] == total.pushed
  {
    var o := attempt(retries);
    assert RetryFrom(rt, attempt, url, retries, waitTime) == Trace(o.calls, [GaveUpRecord(url)]);
    CallsAssoc(before, o.calls, []);
  }

  lemma CallsAssoc(a: seq<Call>, b: seq<Call>, c: seq<Call>)
    ensures a + b + c == a + (b + c)
  {
  }

  /** One URL: the fetch, then the retry loop and the pause. */
  method ProcessUrl(rt: Runtime, w: World, i: nat, n: nat, url: string, instruction: string)
    returns (calls: seq<Call>, pushed: seq<Record>)
    ensures Trace(calls, pushed) == ForUrl(rt, w, i, n, url, instruction)
  {
    calls := [FetchCall(url)];
    var reply := w.fetch(i);
    if reply.FetchFailed? || !reply.ok {
      pushed := [FetchErrorRecord(url)];
      return;
    }
    var html := reply.body;
    var tried;
    tried, pushed := RetryExtraction(rt, AttemptsFor(rt, w, i, html, url, instruction), url);
    calls := calls + tried;
    if i < n - 1 {
      calls := calls + [SleepCall(Finite(BetweenUrls))];
    }
  }

  /** `extractProductData(urls, instruction)`: the records and the calls
      made, in order. */
  method ExtractProductData(rt: Runtime, w: World, urls: seq<string>, instruction: string)
    returns (results: seq<Record>, calls: seq<Call>)
    ensures Trace(calls, results) == Run(rt, w, urls, instruction, |urls|)
  {
    results, calls := [], [];
    for i := 0 to |urls|
      invariant Trace(calls, results) == Run(rt, w, urls, instruction, i)
    {
      var made, pushed := ProcessUrl(rt, w, i, |urls|, urls[i], instruction);
      RunNext(rt, w, urls, instruction, i);
      calls := calls + made;
      results := results + pushed;
    }
  }

  // ---------------------------------------------------------------------------
  // The loop composed with the AI service

  /** The AI service throws only the `TypeError` of an unparseable URL, which
      is never a rate limit. */
  lemma PipelineNeverRateLimited(rt: Runtime, w: World, i: nat, html: string, url: string, instruction: string, a: nat)
    ensures var o := AttemptsFor(rt, w, i, html, url, instruction)(a);
      o.result.Threw? ==> !IsRateLimit(o.result.failure)
  {
    var o := ExtractDataWithAI(rt, html, url, instruction, w.reply(i, a));
    assert AttemptsFor(rt, w, i, html, url, instruction)(a) == o;
    if o.result.Threw? {
      assert o.result.failure == Plain(rt.invalidUrl);
    }
  }

  /** So in the composed pipeline a URL that parses gets exactly one model
      call and its record, a model failure included, with no retry; a URL
      that does not parse fails three times, waiting 10 s and 20 s, and ends
      with the give-up record. */
  lemma PipelineRetry(rt: Runtime, w: World, i: nat, html: string, url: string, instruction: string)
    ensures var attempt := AttemptsFor(rt, w, i, html, url, instruction);
      var t := RetryFrom(rt, attempt, url, 0, Finite(InitialWait));
      (rt.parseUrl(url).Some? ==>
         (t.calls == attempt(0).calls && |t.pushed| == 1 && attempt(0).result == Returned(t.pushed[0]) &&
          |attempt(0).calls| == 1 && attempt(0).calls[0].GenerateCall?)) &&
      (rt.parseUrl(url).None? ==>
         t == Trace([SleepCall(Finite(10000)), SleepCall(Finite(20000))], [GaveUpRecord(url)]))
  {
    if rt.parseUrl(url).Some? {
      ParsedUrlRetry(rt, w, i, html, url, instruction);
    } else {
      UnparsedUrlRetry(rt, w, i, html, url, instruction);
    }
  }

  lemma ParsedUrlRetry(rt: Runtime, w: World, i: nat, html: string, url: string, instruction: string)
    requires rt.parseUrl(url).Some?
    ensures var attempt := AttemptsFor(rt, w, i, html, url, instruction);
      var t := RetryFrom(rt, attempt, url, 0, Finite(InitialWait));
      t.calls == attempt(0).calls && |t.pushed| == 1 && attempt(0).result == Returned(t.pushed[0]) &&
      |attempt(0).calls| == 1 && attempt(0).calls[0].GenerateCall?
  {
    var attempt := AttemptsFor(rt, w, i, html, url, instruction);
    assert attempt(0) == ExtractDataWithAI(rt, html, url, instruction, w.reply(i, 0));
    AttemptReturnsScalar(rt, html, url, instruction, w.reply(i, 0));
    StringifyScalarRecord(rt, attempt(0).result.record);
  }

  lemma UnparsedUrlRetry(rt: Runtime, w: World, i: nat, html: string, url: string, instruction: string)
    requires rt.parseUrl(url).None?
    ensures RetryFrom(rt, AttemptsFor(rt, w, i, html, url, instruction), url, 0, Finite(InitialWait)) ==
      Trace([SleepCall(Finite(10000)), SleepCall(Finite(20000))], [GaveUpRecord(url)])
  {
    var attempt := AttemptsFor(rt, w, i, html, url, instruction);
    forall a | a < 3
      ensures attempt(a).calls == [] && attempt(a).result.Threw? && !IsRateLimit(attempt(a).result.failure)
    {
      assert attempt(a) == ExtractDataWithAI(rt, html, url, instruction, w.reply(i, a));
    }
    PlainFailures(rt, attempt, url);
  }

  /** In the composed pipeline every URL yields exactly one record, so the
      results line up with the URLs. */
  lemma OneRecordPerUrl(rt: Runtime, w: World, urls: seq<string>, instruction: string, k: nat)
    requires k <= |urls|
    ensures |Run(rt, w, urls, instruction, k).pushed| == k
  {
    var step := UrlSteps(rt, w, urls, instruction);
    forall j: nat | j < k
      ensures |step(j).pushed| == 1
    {
      ForUrlPushesOne(rt, w, j, |urls|, urls[j], instruction);
    }
    OnePushEach(step, k);
  }

  /** Steps of one record each make k records in k steps. */
  lemma {:induction false} OnePushEach(step: nat -> Trace, k: nat)
    requires forall j: nat :: j < k ==> |step(j).pushed| == 1
    ensures |Sequenced(step, k).pushed| == k
  {
    if k > 0 {
      OnePushEach(step, k - 1);
    }
  }

  /** Every URL, fetched or not, yields exactly one record. */
  lemma ForUrlPushesOne(rt: Runtime, w: World, i: nat, n: nat, url: string, instruction: string)
    ensures |ForUrl(rt, w, i, n, url, instruction).pushed| == 1
  {
    var reply := w.fetch(i);
    if !(reply.FetchFailed? || !reply.ok) {
      PipelineRetry(rt, w, i, reply.body, url, instruction);
    }
  }

  /** A failed fetch or a non-OK status: one call, the fetch error record,
      and no pause before the next URL. */
  lemma FetchFailureSkipsPause(rt: Runtime, w: World, i: nat, n: nat, url: string, instruction: string)
    requires w.fetch(i).FetchFailed? || !w.fetch(i).ok
    ensures ForUrl(rt, w, i, n, url, instruction).calls == [FetchCall(url)]
    ensures ForUrl(rt, w, i, n, url, instruction).pushed == [FetchErrorRecord(url)]
    ensures forall c :: c in ForUrl(rt, w, i, n, url, instruction).calls ==> !c.SleepCall?
  {
  }

  /** A fetched page ends with the 5 s pause exactly when it is not the last
      URL. */
  lemma PauseBetweenUrls(rt: Runtime, w: World, i: nat, n: nat, url: string, instruction: string)
    requires w.fetch(i).Response? && w.fetch(i).ok
    ensures var cs := ForUrl(rt, w, i, n, url, instruction).calls;
      |cs| >= 1 && cs[0] == FetchCall(url) &&
      (cs[|cs| - 1] == SleepCall(Finite(BetweenUrls)) <==> i + 1 < n)
  {
    var t := RetryFrom(rt, AttemptsFor(rt, w, i, w.fetch(i).body, url, instruction), url, 0, Finite(InitialWait));
    var cs := ForUrl(rt, w, i, n, url, instruction).calls;
    if i + 1 >= n {
      assert cs == [FetchCall(url)] + t.calls;
      PipelineRetry(rt, w, i, w.fetch(i).body, url, instruction);
      if rt.parseUrl(url).None? {
        assert cs[|cs| - 1] == SleepCall(Finite(20000));
      } else {
        assert cs[|cs| - 1].GenerateCall?;
      }
    }
  }
}
