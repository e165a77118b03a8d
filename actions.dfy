/** The first-generation orchestrator: a server module that keeps one
    progress snapshot and one cancel flag, and extracts a batch of URLs one
    after the other (fetch, reduce, prompt, model call, parse). Requests to
    cancel or to reset the flag can run while the extraction awaits. */
module Actions {
  import opened Wrappers
  import opened Strings
  import opened Records
  import opened Runtime
  import opened HtmlExtractor
  import opened PromptGenerator
  import opened DataParser

  // ---------------------------------------------------------------------------
  // Progress snapshots

  datatype Progress = Progress(currentUrl: string, currentUrlIndex: int, totalUrls: nat, status: string, percent: int)

  /** `Math.round(p / q)`: the nearest integer, halves rounded up. */
  function Round(p: nat, q: nat): nat
    requires q > 0
  {
    (2 * p + q) / (2 * q)
  }

  /** `Round(p, q)` is within one half of `p / q`, halves going up. */
  lemma RoundIsNearest(p: nat, q: nat)
    requires q > 0
    ensures 2 * q * Round(p, q) <= 2 * p + q < 2 * q * (Round(p, q) + 1)
  {
  }

  function InitSnap(n: nat): Progress
  {
    Progress("", 0, n, "Initializing extraction...", 0)
  }

  function FetchingSnap(url: string, i: nat, n: nat): Progress
    requires n > 0
  {
    Progress(url, i, n, "Fetching content from " + url + "...", if i == 0 then 5 else Round(100 * i, n))
  }

  function AnalyzingSnap(url: string, i: nat, n: nat): Progress
    requires n > 0
  {
    Progress(url, i, n, "Analyzing product content...", Round(100 * i + 30, n) + 10)
  }

  function ExtractingSnap(url: string, i: nat, n: nat): Progress
    requires n > 0
  {
    Progress(url, i, n, "Extracting product data with AI...", Round(100 * i + 50, n) + 15)
  }

  function ProcessingSnap(url: string, i: nat, n: nat): Progress
    requires n > 0
  {
    Progress(url, i, n, "Processing extracted data...", Round(100 * i + 80, n) + 20)
  }

  function CompletedSnap(url: string, i: nat, n: nat): Progress
    requires n > 0
  {
    var p := Round(100 * (i + 1), n) + 25;
    Progress(url, i, n, "Completed " + url, if p <= 95 then p else 95)
  }

  function WaitingSnap(i: nat, n: nat): Progress
    requires n > 0
  {
    Progress("", i, n, "Waiting before processing next URL...", Round(100 * (i + 1), n))
  }

  function ErrorSnap(url: string, i: nat, n: nat): Progress
    requires n > 0
  {
    Progress(url, i, n, "Error processing " + url, Round(100 * (i + 1), n))
  }

  function SpreadsheetSnap(n: nat): Progress
  {
    Progress("", n - 1, n, "Generating spreadsheet...", 95)
  }

  function CompleteSnap(n: nat): Progress
  {
    Progress("", n, n, "Extraction complete!", 100)
  }

  // ---------------------------------------------------------------------------
  // One URL

  const CancelledMessage := "Extraction cancelled"
  const PauseMs := 2000

  /** The per-URL catch rethrows exactly an `Error` whose message is
      "Extraction cancelled". */
  predicate IsCancellation(f: Failure)
  {
    f.isError && f.message == CancelledMessage
  }

  function FetchMessage(url: string, status: int, statusText: string): string
  {
    "Failed to fetch " + url + ": " + IntToString(status) + " " + statusText
  }

  function ErrorRecordFor(url: string, message: string): Record
  {
    [("error", VStr("Failed to process " + url + ": " + message)), ("url", VStr(url))]
  }

  /** The model for a host name: the larger one exactly for Coles. */
  function ModelFor(domain: string): (m: string)
    ensures m == "gpt-4o" <==> Contains(domain, "coles.com.au")
    ensures m == "gpt-3.5-turbo" <==> !Contains(domain, "coles.com.au")
  {
    if Contains(domain, "coles.com.au") then "gpt-4o" else "gpt-3.5-turbo"
  }

  /** The model for a URL, from its lower-cased host name. It is asked for
      only after the prompt exists, that is, for a URL that parses. */
  function ModelForUrl(rt: Runtime, url: string): string
  {
    match rt.parseUrl(url)
    case Some(u) => ModelFor(Lower(u.hostname))
    case None => "gpt-3.5-turbo"
  }

  /** The functions the loop body calls: `reduce(html, url)` reduces the
      page, `prompt(url, html)` builds the prompt for the batch's
      instruction, `model(url)` names the model and `parse(text, url)`
      parses the reply. */
  datatype Collaborators = Collaborators(
    reduce: (string, string) -> string,
    prompt: (string, string) -> Result<string>,
    model: string -> string,
    parse: (string, string) -> Record)

  /** The collaborators of this module: the reducer, the prompt builder and
      the parser of the first generation, and `ModelForUrl`. */
  function Modelled(rt: Runtime, instruction: string): Collaborators
  {
    Collaborators(
      (html, url) => RelevantHtml(rt, html, url),
      (url, html) => EcommercePrompt(rt, url, instruction, html),
      url => ModelForUrl(rt, url),
      (text, url) => ParsedRecord(rt, text, url))
  }

  /** With the modelled collaborators the prompt fails exactly on a URL that
      does not parse, with the runtime's invalid-URL message, and the larger
      model is asked exactly for a Coles host. */
  lemma ModelledCollaborators(rt: Runtime, instruction: string, url: string, html: string)
    ensures var c := Modelled(rt, instruction);
      (c.prompt(url, html).Err? <==> rt.parseUrl(url).None?) &&
      (c.prompt(url, html).Err? ==> c.prompt(url, html).message == rt.invalidUrl) &&
      (rt.parseUrl(url).Some? ==>
        (c.model(url) == "gpt-4o" <==> Contains(Lower(rt.parseUrl(url).value.hostname), "coles.com.au")))
  {
    var c := Modelled(rt, instruction);
    assert c.prompt(url, html) == EcommercePrompt(rt, url, instruction, html);
    assert c.model(url) == ModelForUrl(rt, url);
  }

  /** What one URL adds: a record unless the run is cancelled, the snapshots
      and calls made, the cancel flag afterwards, and whether the
      cancellation error was thrown. */
  datatype UrlStep = UrlStep(record: Option<Record>, snaps: seq<Progress>, calls: seq<Call>, flag: bool, cancelled: bool)

  /** Whether the calls include the 2-second pause between URLs, the only
      sleep this module makes. */
  predicate HasPause(calls: seq<Call>)
  {
    SleepCall(Finite(PauseMs)) in calls
  }

  predicate Succeeded(r: Record, url: string)
  {
    Get(r, SourceUrl) == Some(VStr(url))
  }

  /** The record for a URL: a success carries `sourceUrl` set to the URL;
      an error record carries the URL and an error beginning "Failed to
      process ". */
  predicate RecordFor(r: Record, url: string)
  {
    Succeeded(r, url) ||
    (Get(r, "url") == Some(VStr(url)) && Get(r, "error").Some? && Get(r, "error").value.VStr? &&
     "Failed to process " + url + ": " <= Get(r, "error").value.s)
  }

  /** What every step of a URL guarantees: a record exactly when the run is
      not cancelled, a record that names the URL, and the 2-second pause
      exactly after a success that is not the last URL. */
  predicate StepShape(s: UrlStep, url: string, i: nat, n: nat)
  {
    (s.record.Some? <==> !s.cancelled) &&
    (s.record.Some? ==> RecordFor(s.record.value, url)) &&
    (HasPause(s.calls) <==> s.record.Some? && Succeeded(s.record.value, url) && i + 1 < n)
  }

  /** A step preceded by snapshots and calls made before it. */
  function Then(snaps: seq<Progress>, calls: seq<Call>, s: UrlStep): (t: UrlStep)
    requires !HasPause(calls)
    ensures t.record == s.record && t.flag == s.flag && t.cancelled == s.cancelled
    ensures HasPause(t.calls) <==> HasPause(s.calls)
  {
    UrlStep(s.record, snaps + s.snaps, calls + s.calls, s.flag, s.cancelled)
  }

  function Stop(flag: bool): (s: UrlStep)
    ensures s.cancelled && s.record.None? && !HasPause(s.calls)
  {
    UrlStep(None, [], [], flag, true)
  }

  /** The per-URL catch: a cancellation leaves the run; any other error
      becomes an error record and an error snapshot. */
  function Caught(url: string, i: nat, n: nat, f: Failure, flag: bool): (s: UrlStep)
    requires n > 0
    ensures s.cancelled <==> IsCancellation(f)
    ensures s.flag == flag && StepShape(s, url, i, n)
  {
    if IsCancellation(f) then Stop(flag)
    else
      var r := ErrorRecordFor(url, f.message);
      var prefix := "Failed to process " + url + ": ";
      assert Get(r, "error") == Some(VStr(prefix + f.message));
      assert prefix <= prefix + f.message;
      UrlStep(Some(r), [ErrorSnap(url, i, n)], [], flag, false)
  }

  /** The loop body for the i-th URL, entered with the cancel flag `flag`.
      The flag is read before the URL, after the fetch, after the reduction
      and after the model call; the requests that complete while the fetch,
      the model call or the pause awaits update it. */
  function ForUrl(c: Collaborators, w: World, urls: seq<string>, i: nat, flag: bool): (s: UrlStep)
    requires i < |urls|
    ensures StepShape(s, urls[i], i, |urls|)
  {
    if flag then Stop(flag)
    else
      Then([FetchingSnap(urls[i], i, |urls|)], [FetchCall(urls[i])],
           Fetched(c, w, urls, i, ApplyOps(flag, w.during(i, AwaitFetch))))
  }

  /** After the fetch: a failed fetch or a non-OK status is caught; else the
      flag is read and the page reduced. */
  function Fetched(c: Collaborators, w: World, urls: seq<string>, i: nat, flag: bool): (s: UrlStep)
    requires i < |urls|
    ensures StepShape(s, urls[i], i, |urls|)
  {
    var url := urls[i];
    var reply := w.fetch(i);
    if reply.FetchFailed? then Caught(url, i, |urls|, reply.failure, flag)
    else if !reply.ok then Caught(url, i, |urls|, Plain(FetchMessage(url, reply.status, reply.statusText)), flag)
    else if flag then Stop(flag)
    else
      Then([AnalyzingSnap(url, i, |urls|), ExtractingSnap(url, i, |urls|)], [],
           Prompted(c, w, urls, i, c.reduce(reply.body, url), flag))
  }

  /** The prompt, which throws on an unparseable URL, then the model call. */
  function Prompted(c: Collaborators, w: World, urls: seq<string>, i: nat, relevant: string, flag: bool): (s: UrlStep)
    requires i < |urls|
    ensures StepShape(s, urls[i], i, |urls|)
  {
    var url := urls[i];
    match c.prompt(url, relevant)
    case Err(m) => Caught(url, i, |urls|, Plain(m), flag)
    case Ok(prompt) =>
      Then([], [GenerateCall(c.model(url), prompt)], Answered(c, w, urls, i, ApplyOps(flag, w.during(i, AwaitModel))))
  }

  /** The model's answer: a failure is caught; else the flag is read. */
  function Answered(c: Collaborators, w: World, urls: seq<string>, i: nat, flag: bool): (s: UrlStep)
    requires i < |urls|
    ensures StepShape(s, urls[i], i, |urls|)
  {
    match w.reply(i, 0)
    case ModelFailed(f) => Caught(urls[i], i, |urls|, f, flag)
    case Completion(text) => if flag then Stop(flag) else Parsed(c, w, urls, i, text, flag)
  }

  /** The parsed record with `sourceUrl` set to the URL, then the pause
      unless this is the last URL. */
  function Parsed(c: Collaborators, w: World, urls: seq<string>, i: nat, text: string, flag: bool): (s: UrlStep)
    requires i < |urls|
    ensures StepShape(s, urls[i], i, |urls|)
  {
    var url := urls[i];
    var n := |urls|;
    var record := Put(c.parse(text, url), SourceUrl, VStr(url));
    PutGet(c.parse(text, url), SourceUrl, VStr(url), SourceUrl);
    if i + 1 < n then
      UrlStep(Some(record), [ProcessingSnap(url, i, n), CompletedSnap(url, i, n), WaitingSnap(i, n)],
              [SleepCall(Finite(PauseMs))], ApplyOps(flag, w.during(i, AwaitDelay)), false)
    else UrlStep(Some(record), [ProcessingSnap(url, i, n), CompletedSnap(url, i, n)], [], flag, false)
  }

  // ---------------------------------------------------------------------------
  // The whole run

  datatype RunTrace = RunTrace(results: seq<Record>, snaps: seq<Progress>, calls: seq<Call>, flag: bool, cancelled: bool)

  /** The first k of n loop bodies, each entered with the flag the previous
      one left; the flag starts cleared, and a cancellation ends the loop. */
  function Fold(step: (nat, bool) -> UrlStep, n: nat, k: nat): RunTrace
    requires k <= n
  {
    if k == 0 then RunTrace([], [InitSnap(n)], [], false, false)
    else
      var before := Fold(step, n, k - 1);
      if before.cancelled then before
      else
        var s := step(k - 1, before.flag);
        RunTrace(before.results + (if s.record.Some? then [s.record.value] else []),
                 before.snaps + s.snaps, before.calls + s.calls, s.flag, s.cancelled)
  }

  /** One more loop body after k that did not cancel. */
  lemma FoldNext(step: (nat, bool) -> UrlStep, n: nat, k: nat)
    requires k < n && !Fold(step, n, k).cancelled
    ensures var before := Fold(step, n, k);
      var s := step(k, before.flag);
      Fold(step, n, k + 1) ==
        RunTrace(before.results + (if s.record.Some? then [s.record.value] else []),
                 before.snaps + s.snaps, before.calls + s.calls, s.flag, s.cancelled)
  {
  }

  /** The loop body of this module, as a function of the index and the flag. */
  function UrlSteps(c: Collaborators, w: World, urls: seq<string>): (nat, bool) -> UrlStep
  {
    (i: nat, flag: bool) => if i < |urls| then ForUrl(c, w, urls, i, flag) else Stop(flag)
  }

  /** `step` is the loop body of this module for the URLs. The trigger
      keeps the body folded until a call of `ForUrl` is in view. */
  ghost predicate Binds(step: (nat, bool) -> UrlStep, c: Collaborators, w: World, urls: seq<string>)
  {
    forall i: nat, flag: bool {:trigger ForUrl(c, w, urls, i, flag)} ::
      i < |urls| ==> step(i, flag) == ForUrl(c, w, urls, i, flag)
  }

  lemma UrlStepsBind(c: Collaborators, w: World, urls: seq<string>)
    ensures Binds(UrlSteps(c, w, urls), c, w, urls)
  {
  }

  function Loop(c: Collaborators, w: World, urls: seq<string>, k: nat): RunTrace
    requires k <= |urls|
  {
    Fold(UrlSteps(c, w, urls), |urls|, k)
  }

  /** What the caller gets: the records, or the cancellation error. */
  datatype RunOutcome = Finished(results: seq<Record>) | Cancelled

  function Outcome(c: Collaborators, w: World, urls: seq<string>): RunOutcome
  {
    var t := Loop(c, w, urls, |urls|);
    if t.cancelled then Cancelled else Finished(t.results)
  }

  /** The snapshots of a run of n URLs: after a normal return the
      spreadsheet and completion snapshots follow the loop's. */
  function Finalized(t: RunTrace, n: nat): seq<Progress>
  {
    if t.cancelled then t.snaps else t.snaps + [SpreadsheetSnap(n), CompleteSnap(n)]
  }

  /** Every snapshot the run publishes, in order. */
  function Snapshots(c: Collaborators, w: World, urls: seq<string>): seq<Progress>
  {
    Finalized(Loop(c, w, urls, |urls|), |urls|)
  }

  /** The snapshot a reader sees after `snaps` are published over `p`. */
  function LastOr(snaps: seq<Progress>, p: Progress): Progress
  {
    if snaps == [] then p else snaps[|snaps| - 1]
  }

  lemma LastOrAppend(a: seq<Progress>, b: seq<Progress>, p: Progress)
    ensures LastOr(a + b, p) == LastOr(b, LastOr(a, p))
  {
    if b == [] {
      assert a + b == a;
    }
  }

  // ---------------------------------------------------------------------------
  // The module state

  class Extractor {
    var progress: Progress      // extractionProgress
    var shouldCancel: bool      // shouldCancelExtraction

    constructor()
      ensures progress == Progress("", 0, 0, "", 0) && !shouldCancel
    {
      progress := Progress("", 0, 0, "", 0);
      shouldCancel := false;
    }

    method UpdateProgress(p: Progress)
      modifies this`progress
      ensures progress == p
    {
      progress := p;
    }

    method GetExtractionProgress() returns (p: Progress)
      ensures p == progress
    {
      p := progress;
    }

    /** Sets the flag; running it again changes nothing. */
    method CancelExtraction()
      modifies this`shouldCancel
      ensures shouldCancel
    {
      shouldCancel := true;
    }

    /** Clears the flag; running it again changes nothing. */
    method ResetCancellation()
      modifies this`shouldCancel
      ensures !shouldCancel
    {
      shouldCancel := false;
    }

    /** The requests that complete during an await, run in order. */
    method RunRequests(ops: seq<FlagOp>)
      modifies this`shouldCancel
      ensures shouldCancel == ApplyOps(old(shouldCancel), ops)
    {
      for j := 0 to |ops|
        invariant shouldCancel == ApplyOps(old(shouldCancel), ops[..j])
      {
        if ops[j] == Cancel {
          CancelExtraction();
        } else {
          ResetCancellation();
        }
        assert ops[..j + 1][|ops[..j + 1]| - 1] == ops[j];
      }
      assert ops[..|ops|] == ops;
    }

    /** The per-URL catch. */
    method Catch(url: string, i: nat, n: nat, f: Failure) returns (s: UrlStep)
      requires n > 0
      modifies this`progress
      ensures s == Caught(url, i, n, f, shouldCancel)
      ensures progress == LastOr(s.snaps, old(progress))
    {
      if IsCancellation(f) {
        return Stop(shouldCancel);
      }
      UpdateProgress(ErrorSnap(url, i, n));
      s := UrlStep(Some(ErrorRecordFor(url, f.message)), [ErrorSnap(url, i, n)], [], shouldCancel, false);
    }

    /** The loop body for the i-th URL. */
    method ProcessUrl(c: Collaborators, w: World, urls: seq<string>, i: nat) returns (s: UrlStep)
      requires i < |urls|
      modifies this
      ensures s == ForUrl(c, w, urls, i, old(shouldCancel))
      ensures shouldCancel == s.flag && progress == LastOr(s.snaps, old(progress))
    {
      if shouldCancel {
        return Stop(shouldCancel);
      }
      var url := urls[i];
      UpdateProgress(FetchingSnap(url, i, |urls|));
      var reply := w.fetch(i);
      RunRequests(w.during(i, AwaitFetch));
      var rest := AfterFetch(c, w, urls, i, reply);
      s := Then([FetchingSnap(url, i, |urls|)], [FetchCall(url)], rest);
      LastOrAppend([FetchingSnap(url, i, |urls|)], rest.snaps, old(progress));
    }

    method AfterFetch(c: Collaborators, w: World, urls: seq<string>, i: nat, reply: FetchReply) returns (s: UrlStep)
      requires i < |urls| && reply == w.fetch(i)
      modifies this
      ensures s == Fetched(c, w, urls, i, old(shouldCancel))
      ensures shouldCancel == s.flag && progress == LastOr(s.snaps, old(progress))
    {
      var url := urls[i];
      if reply.FetchFailed? {
        s := Catch(url, i, |urls|, reply.failure);
        return;
      }
      if !reply.ok {
        s := Catch(url, i, |urls|, Plain(FetchMessage(url, reply.status, reply.statusText)));
        return;
      }
      var html := reply.body;
      if shouldCancel {
        return Stop(shouldCancel);
      }
      UpdateProgress(AnalyzingSnap(url, i, |urls|));
      var relevant := c.reduce(html, url);
      if shouldCancel {
        return Stop(shouldCancel);
      }
      UpdateProgress(ExtractingSnap(url, i, |urls|));
      var rest := PromptAndAsk(c, w, urls, i, relevant);
      s := Then([AnalyzingSnap(url, i, |urls|), ExtractingSnap(url, i, |urls|)], [], rest);
      LastOrAppend([AnalyzingSnap(url, i, |urls|), ExtractingSnap(url, i, |urls|)], rest.snaps, old(progress));
    }

    method PromptAndAsk(c: Collaborators, w: World, urls: seq<string>, i: nat, relevant: string) returns (s: UrlStep)
      requires i < |urls|
      modifies this
      ensures s == Prompted(c, w, urls, i, relevant, old(shouldCancel))
      ensures shouldCancel == s.flag && progress == LastOr(s.snaps, old(progress))
    {
      var url := urls[i];
      var prompt := c.prompt(url, relevant);
      if prompt.Err? {
        s := Catch(url, i, |urls|, Plain(prompt.message));
        return;
      }
      var model := c.model(url);
      var answer := w.reply(i, 0);
      RunRequests(w.during(i, AwaitModel));
      var rest;
      if answer.ModelFailed? {
        rest := Catch(url, i, |urls|, answer.failure);
      } else if shouldCancel {
        rest := Stop(shouldCancel);
      } else {
        rest := Finish(c, w, urls, i, answer.text);
      }
      s := Then([], [GenerateCall(model, prompt.value)], rest);
    }

    method Finish(c: Collaborators, w: World, urls: seq<string>, i: nat, text: string) returns (s: UrlStep)
      requires i < |urls|
      modifies this
      ensures s == Parsed(c, w, urls, i, text, old(shouldCancel))
      ensures shouldCancel == s.flag && progress == LastOr(s.snaps, old(progress))
    {
      var url := urls[i];
      var n := |urls|;
      UpdateProgress(ProcessingSnap(url, i, n));
      var extracted := c.parse(text, url);
      var record := Put(extracted, SourceUrl, VStr(url));
      UpdateProgress(CompletedSnap(url, i, n));
      if i + 1 < n {
        UpdateProgress(WaitingSnap(i, n));
        RunRequests(w.during(i, AwaitDelay));
        s := UrlStep(Some(record), [ProcessingSnap(url, i, n), CompletedSnap(url, i, n), WaitingSnap(i, n)],
                     [SleepCall(Finite(PauseMs))], shouldCancel, false);
      } else {
        s := UrlStep(Some(record), [ProcessingSnap(url, i, n), CompletedSnap(url, i, n)], [], shouldCancel, false);
      }
    }

    /** One iteration of the loop over the URLs: the trace of the first i
        URLs becomes the trace of the first i + 1. */
    method Advance(c: Collaborators, w: World, urls: seq<string>, ghost step: (nat, bool) -> UrlStep, i: nat, t: RunTrace)
      returns (t': RunTrace)
      requires Binds(step, c, w, urls)
      requires i < |urls| && t == Fold(step, |urls|, i) && !t.cancelled
      requires t.snaps != [] && progress == t.snaps[|t.snaps| - 1] && shouldCancel == t.flag
      modifies this
      ensures t' == Fold(step, |urls|, i + 1)
      ensures t'.snaps != [] && progress == t'.snaps[|t'.snaps| - 1] && shouldCancel == t'.flag
    {
      var s := ProcessUrl(c, w, urls, i);
      assert s == step(i, t.flag);
      FoldNext(step, |urls|, i);
      LastOrAppend(t.snaps, s.snaps, progress);
      var results := t.results + (if s.record.Some? then [s.record.value] else []);
      t' := RunTrace(results, t.snaps + s.snaps, t.calls + s.calls, s.flag, s.cancelled);
    }

    /** The loop over the URLs, entered after the initial snapshot. */
    method RunLoop(c: Collaborators, w: World, urls: seq<string>, ghost step: (nat, bool) -> UrlStep) returns (t: RunTrace)
      requires Binds(step, c, w, urls)
      requires !shouldCancel && progress == InitSnap(|urls|)
      modifies this
      ensures t == Fold(step, |urls|, |urls|)
      ensures t.snaps != [] && progress == t.snaps[|t.snaps| - 1] && shouldCancel == t.flag
    {
      t := RunTrace([], [InitSnap(|urls|)], [], false, false);
      for i := 0 to |urls|
        invariant t == Fold(step, |urls|, i) && !t.cancelled
        invariant t.snaps != [] && progress == t.snaps[|t.snaps| - 1] && shouldCancel == t.flag
      {
        t := Advance(c, w, urls, step, i, t);
        if t.cancelled {
          CancelledStays(step, |urls|, i + 1, |urls|);
          return;
        }
      }
    }

    /** `extractProductData(urls, instruction)`, with `c` the collaborators
        for the instruction: the outcome, every snapshot published, and the
        calls made. */
    method ExtractProductData(c: Collaborators, w: World, urls: seq<string>)
      returns (outcome: RunOutcome, snapshots: seq<Progress>, calls: seq<Call>)
      modifies this
      ensures outcome == Outcome(c, w, urls)
      ensures snapshots == Snapshots(c, w, urls)
      ensures calls == Loop(c, w, urls, |urls|).calls
      ensures snapshots != [] && progress == snapshots[|snapshots| - 1]
      ensures shouldCancel == Loop(c, w, urls, |urls|).flag
    {
      shouldCancel := false;
      UpdateProgress(InitSnap(|urls|));
      UrlStepsBind(c, w, urls);
      var t := RunLoop(c, w, urls, UrlSteps(c, w, urls));
      calls := t.calls;
      if t.cancelled {
        return Cancelled, t.snaps, calls;
      }
      UpdateProgress(SpreadsheetSnap(|urls|));
      UpdateProgress(CompleteSnap(|urls|));
      snapshots := t.snaps + [SpreadsheetSnap(|urls|), CompleteSnap(|urls|)];
      outcome := Finished(t.results);
    }
  }

  // ---------------------------------------------------------------------------
  // Properties

  /** Once the cancellation error is thrown nothing more happens. */
  lemma {:induction false} CancelledStays(step: (nat, bool) -> UrlStep, n: nat, k: nat, m: nat)
    requires k <= m <= n
    requires Fold(step, n, k).cancelled
    ensures Fold(step, n, m) == Fold(step, n, k)
    decreases m - k
  {
    if m > k {
      CancelledStays(step, n, k, m - 1);
    }
  }

  /** Every loop body keeps `StepShape`, whatever the flag. The trigger
      keeps the shape folded until it is asked for. */
  ghost predicate Shaped(step: (nat, bool) -> UrlStep, urls: seq<string>)
  {
    forall i: nat, flag: bool {:trigger StepShape(step(i, flag), urls[i], i, |urls|)} ::
      i < |urls| ==> StepShape(step(i, flag), urls[i], i, |urls|)
  }

  lemma UrlStepsShaped(c: Collaborators, w: World, urls: seq<string>)
    ensures Shaped(UrlSteps(c, w, urls), urls)
  {
    forall i: nat, flag: bool | i < |urls|
      ensures StepShape(UrlSteps(c, w, urls)(i, flag), urls[i], i, |urls|)
    {
      assert UrlSteps(c, w, urls)(i, flag) == ForUrl(c, w, urls, i, flag);
    }
  }

  /** Each of the first k records names the URL at its position. */
  ghost predicate RecordsFor(results: seq<Record>, urls: seq<string>, k: nat)
  {
    |results| == k && k <= |urls| && forall j :: 0 <= j < k ==> RecordFor(results[j], urls[j])
  }

  lemma RecordsForAppend(results: seq<Record>, urls: seq<string>, k: nat, r: Record)
    requires RecordsFor(results, urls, k) && k < |urls| && RecordFor(r, urls[k])
    ensures RecordsFor(results + [r], urls, k + 1)
  {
    forall j | 0 <= j < k + 1
      ensures RecordFor((results + [r])[j], urls[j])
    {
      if j < k {
        assert (results + [r])[j] == results[j];
      } else {
        assert (results + [r])[j] == r;
      }
    }
  }

  /** On a normal return each URL has contributed exactly one record, in the
      order of the URLs, naming that URL. */
  lemma {:induction false} OneRecordPerUrl(step: (nat, bool) -> UrlStep, urls: seq<string>, k: nat)
    requires k <= |urls| && Shaped(step, urls)
    requires !Fold(step, |urls|, k).cancelled
    ensures RecordsFor(Fold(step, |urls|, k).results, urls, k)
  {
    if k > 0 {
      var before := Fold(step, |urls|, k - 1);
      assert !before.cancelled;
      OneRecordPerUrl(step, urls, k - 1);
      var s := step(k - 1, before.flag);
      FoldNext(step, |urls|, k - 1);
      assert !s.cancelled;
      assert StepShape(s, urls[k - 1], k - 1, |urls|);
      assert s.record.Some? && RecordFor(s.record.value, urls[k - 1]);
      RecordsForAppend(before.results, urls, k - 1, s.record.value);
      assert Fold(step, |urls|, k).results == before.results + [s.record.value];
    }
  }

  /** No request cancels and no error carries the cancellation message. */
  ghost predicate NoCancellation(c: Collaborators, w: World)
  {
    (forall i, p :: Cancel !in w.during(i, p)) &&
    (forall i :: w.fetch(i).FetchFailed? ==> !IsCancellation(w.fetch(i).failure)) &&
    (forall i :: w.reply(i, 0).ModelFailed? ==> !IsCancellation(w.reply(i, 0).failure)) &&
    (forall url, html :: c.prompt(url, html).Err? ==> c.prompt(url, html).message != CancelledMessage)
  }

  lemma ApplyOpsNoCancel(ops: seq<FlagOp>)
    requires Cancel !in ops
    ensures !ApplyOps(false, ops)
  {
    if ops != [] {
      assert ops[|ops| - 1] in ops;
    }
  }

  /** Loop bodies that neither throw the cancellation nor set the flag when
      entered with it cleared let the loop run to the end. */
  lemma {:induction false} RunsToTheEnd(step: (nat, bool) -> UrlStep, n: nat, k: nat)
    requires k <= n
    requires forall i: nat :: i < n ==> !step(i, false).cancelled && !step(i, false).flag
    ensures !Fold(step, n, k).cancelled && !Fold(step, n, k).flag
  {
    if k > 0 {
      RunsToTheEnd(step, n, k - 1);
    }
  }

  lemma UrlRunsToTheEnd(c: Collaborators, w: World, urls: seq<string>, i: nat)
    requires i < |urls|
    requires NoCancellation(c, w)
    ensures !ForUrl(c, w, urls, i, false).cancelled && !ForUrl(c, w, urls, i, false).flag
  {
    ApplyOpsNoCancel(w.during(i, AwaitFetch));
    ApplyOpsNoCancel(w.during(i, AwaitModel));
    ApplyOpsNoCancel(w.during(i, AwaitDelay));
    var reply := w.fetch(i);
    if reply.Response? {
      var m := FetchMessage(urls[i], reply.status, reply.statusText);
      assert m[0] == 'F' && CancelledMessage[0] == 'E';
    }
  }

  /** A cancel that completes before the run starts has no effect: with no
      cancel during the run it returns one record per URL, each naming its
      URL. */
  lemma CancelBeforeRunIgnored(c: Collaborators, w: World, urls: seq<string>)
    requires NoCancellation(c, w)
    ensures Outcome(c, w, urls).Finished?
    ensures RecordsFor(Outcome(c, w, urls).results, urls, |urls|)
  {
    var step := UrlSteps(c, w, urls);
    forall i: nat | i < |urls|
      ensures !step(i, false).cancelled && !step(i, false).flag
    {
      UrlRunsToTheEnd(c, w, urls, i);
    }
    RunsToTheEnd(step, |urls|, |urls|);
    UrlStepsShaped(c, w, urls);
    OneRecordPerUrl(step, urls, |urls|);
  }

  /** The first snapshot starts at 0 with the batch size; a finished run
      ends with the 95% spreadsheet snapshot and then the 100% completion
      snapshot whose index is the batch size. */
  lemma SnapshotEnds(c: Collaborators, w: World, urls: seq<string>)
    ensures var s := Snapshots(c, w, urls);
      |s| >= 1 && s[0] == InitSnap(|urls|) && s[0].percent == 0 && s[0].totalUrls == |urls|
    ensures Outcome(c, w, urls).Finished? ==>
      var s := Snapshots(c, w, urls);
      |s| >= 3 && s[|s| - 2].percent == 95 && s[|s| - 2].status == "Generating spreadsheet..." &&
      s[|s| - 1].percent == 100 && s[|s| - 1].status == "Extraction complete!" &&
      s[|s| - 1].currentUrlIndex == |urls|
  {
    FirstSnapshot(UrlSteps(c, w, urls), |urls|, |urls|);
  }

  lemma {:induction false} FirstSnapshot(step: (nat, bool) -> UrlStep, n: nat, k: nat)
    requires k <= n
    ensures var s := Fold(step, n, k).snaps; |s| >= 1 && s[0] == InitSnap(n)
  {
    if k > 0 {
      FirstSnapshot(step, n, k - 1);
    }
  }

  /** The snapshots of a successful step, in order. */
  predicate SuccessShape(s: UrlStep, url: string, i: nat, n: nat)
    requires n > 0
  {
    !s.cancelled && |s.snaps| == (if i + 1 < n then 6 else 5) &&
    s.snaps[0] == FetchingSnap(url, i, n) && s.snaps[1] == AnalyzingSnap(url, i, n) &&
    s.snaps[2] == ExtractingSnap(url, i, n) && s.snaps[3] == ProcessingSnap(url, i, n) &&
    s.snaps[4] == CompletedSnap(url, i, n) &&
    (i + 1 < n ==> s.snaps[5] == WaitingSnap(i, n))
  }

  /** A URL that is fetched, prompted and answered with no cancel pending
      publishes, in order, the fetching, analyzing, extracting, processing
      and completed snapshots, then the waiting snapshot unless it is the
      last URL. */
  lemma SuccessSnapshots(c: Collaborators, w: World, urls: seq<string>, i: nat)
    requires i < |urls|
    requires w.fetch(i).Response? && w.fetch(i).ok
    requires w.during(i, AwaitFetch) == [] && w.during(i, AwaitModel) == []
    requires c.prompt(urls[i], c.reduce(w.fetch(i).body, urls[i])).Ok? && w.reply(i, 0).Completion?
    ensures SuccessShape(ForUrl(c, w, urls, i, false), urls[i], i, |urls|)
  {
    var parsed := Answered(c, w, urls, i, false);
    assert parsed == Parsed(c, w, urls, i, w.reply(i, 0).text, false);
  }

  /** The percentages a batch of one URL publishes when its URL succeeds. */
  lemma {:induction false} SingleUrlPercents(step: (nat, bool) -> UrlStep, url: string)
    requires SuccessShape(step(0, false), url, 0, 1)
    ensures var s := Finalized(Fold(step, 1, 1), 1);
      |s| == 8 &&
      s[0].percent == 0 && s[1].percent == 5 && s[2].percent == 40 && s[3].percent == 65 &&
      s[4].percent == 100 && s[5].percent == 95 && s[6].percent == 95 && s[7].percent == 100
  {
    assert Round(30, 1) == 30 && Round(50, 1) == 50 && Round(80, 1) == 80 && Round(100, 1) == 100;
    assert Fold(step, 1, 1).snaps == [InitSnap(1)] + step(0, false).snaps;
  }

  /** With one URL that succeeds the published percentages are 0, 5, 40,
      65, 100, 95, 95, 100: the "Processing" snapshot reaches 100 and the
      next falls to 95. */
  lemma OneUrlPercents(c: Collaborators, w: World, url: string)
    requires w.fetch(0).Response? && w.fetch(0).ok
    requires w.during(0, AwaitFetch) == [] && w.during(0, AwaitModel) == []
    requires c.prompt(url, c.reduce(w.fetch(0).body, url)).Ok? && w.reply(0, 0).Completion?
    ensures var s := Snapshots(c, w, [url]);
      |s| == 8 &&
      s[0].percent == 0 && s[1].percent == 5 && s[2].percent == 40 && s[3].percent == 65 &&
      s[4].percent == 100 && s[5].percent == 95 && s[6].percent == 95 && s[7].percent == 100
  {
    var step := UrlSteps(c, w, [url]);
    SuccessSnapshots(c, w, [url], 0);
    assert step(0, false) == ForUrl(c, w, [url], 0, false);
    SingleUrlPercents(step, url);
  }

  /** The percentages a batch of two URLs publishes when both succeed. */
  lemma {:induction false} TwoUrlPercents(step: (nat, bool) -> UrlStep, u1: string, u2: string)
    requires SuccessShape(step(0, false), u1, 0, 2) && !step(0, false).flag
    requires SuccessShape(step(1, false), u2, 1, 2)
    ensures var s := Finalized(Fold(step, 2, 2), 2);
      |s| == 14 &&
      s[0].percent == 0 && s[1].percent == 5 && s[2].percent == 25 && s[3].percent == 40 &&
      s[4].percent == 60 && s[5].percent == 75 && s[6].percent == 50 &&
      s[7].percent == 50 && s[8].percent == 75 && s[9].percent == 90 && s[10].percent == 110 &&
      s[11].percent == 95 && s[12].percent == 95 && s[13].percent == 100
  {
    assert Round(30, 2) == 15 && Round(50, 2) == 25 && Round(80, 2) == 40 && Round(100, 2) == 50;
    assert Round(130, 2) == 65 && Round(150, 2) == 75 && Round(180, 2) == 90 && Round(200, 2) == 100;
    var a, b := step(0, false).snaps, step(1, false).snaps;
    assert Fold(step, 2, 1).snaps == [InitSnap(2)] + a && !Fold(step, 2, 1).cancelled && !Fold(step, 2, 1).flag;
    assert Fold(step, 2, 2).snaps == [InitSnap(2)] + a + b && !Fold(step, 2, 2).cancelled;
  }

  /** With two URLs that succeed the published percentages are 0, 5, 25,
      40, 60, 75, 50, then 50, 75, 90, 110, 95, 95, 100: the second
      "Processing" snapshot exceeds 100, and the waiting snapshot falls
      back from 75 to 50. */
  lemma PercentExceedsHundred(c: Collaborators, w: World, u1: string, u2: string)
    requires NoCancellation(c, w)
    requires forall i :: 0 <= i < 2 ==> w.fetch(i).Response? && w.fetch(i).ok
    requires forall i :: 0 <= i < 2 ==> w.during(i, AwaitFetch) == [] && w.during(i, AwaitModel) == []
    requires c.prompt(u1, c.reduce(w.fetch(0).body, u1)).Ok? && w.reply(0, 0).Completion?
    requires c.prompt(u2, c.reduce(w.fetch(1).body, u2)).Ok? && w.reply(1, 0).Completion?
    ensures var s := Snapshots(c, w, [u1, u2]);
      |s| == 14 &&
      s[0].percent == 0 && s[1].percent == 5 && s[2].percent == 25 && s[3].percent == 40 &&
      s[4].percent == 60 && s[5].percent == 75 && s[6].percent == 50 &&
      s[7].percent == 50 && s[8].percent == 75 && s[9].percent == 90 && s[10].percent == 110 &&
      s[11].percent == 95 && s[12].percent == 95 && s[13].percent == 100
  {
    var urls := [u1, u2];
    var step := UrlSteps(c, w, urls);
    assert w.fetch(0).Response? && w.fetch(1).Response?;
    SuccessSnapshots(c, w, urls, 0);
    SuccessSnapshots(c, w, urls, 1);
    UrlRunsToTheEnd(c, w, urls, 0);
    assert step(0, false) == ForUrl(c, w, urls, 0, false);
    assert step(1, false) == ForUrl(c, w, urls, 1, false);
    TwoUrlPercents(step, u1, u2);
  }
}
