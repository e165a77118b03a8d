/** What the pipeline takes from its platform and never computes itself:
    `JSON.parse`, `JSON.stringify`, WHATWG URL parsing, regular-expression
    matching, `parseInt`, and the replies of `fetch` and of the language
    model. Each enters the model as a value passed in, so every operation
    is stated for all of its possible behaviours. */
module Runtime {
  import opened Wrappers
  import opened Strings
  import opened Records

  /** A parsed URL: the host name, the path and the query parameters in
      order of appearance. */
  datatype Url = Url(hostname: string, pathname: string, searchParams: Entries<string>)

  /** A regular expression, written as its literal (flags included). */
  type Regex = string

  /** The result of `s.match(re)` for a non-global `re`: the whole match and
      the first capture group ("" when the group took no part). */
  datatype Match = Match(whole: string, group: string)

  /** `s.match(re)` and `s.replace(re, "")` for a global `re`. */
  datatype Engine = Engine(find: (Regex, string) -> Option<Match>, removeAll: (Regex, string) -> string)

  /** What any regular-expression engine guarantees: a match and its capture
      are pieces of the input, and deleting every match only deletes. */
  ghost predicate Sound(e: Engine)
  {
    (forall re, s :: e.find(re, s).Some? ==>
       Contains(s, e.find(re, s).value.whole) && Contains(s, e.find(re, s).value.group)) &&
    (forall re, s :: IsSubsequence(e.removeAll(re, s), s))
  }

  /** The number `parseInt` returns. */
  datatype Num = Finite(n: int) | NaN

  datatype Runtime = Runtime(
    parseJson: string -> Option<Json>,   // JSON.parse; None where it throws
    stringify: Json -> string,           // JSON.stringify
    parseUrl: string -> Option<Url>,     // new URL(s); None where it throws
    invalidUrl: string,                  // the message of the TypeError `new URL` throws
    regex: Engine,
    parseInt: string -> Num)

  /** A thrown value: `isError` tells whether it is an `Error`; `message` is
      its message, or `String(value)` otherwise. The remaining fields are
      the properties the retry loop inspects on a language-model error. */
  datatype Failure = Failure(
    isError: bool,
    message: string,
    reason: Option<string>,
    responseBody: Option<string>,
    retryAfterMs: Option<string>,    // the "retry-after-ms" response header
    retryAfter: Option<string>)      // the "retry-after" response header

  /** An `Error` with a message and nothing else. */
  function Plain(message: string): (f: Failure)
    ensures f.isError && f.message == message
    ensures f.reason.None? && f.responseBody.None? && f.retryAfterMs.None? && f.retryAfter.None?
  {
    Failure(true, message, None, None, None, None)
  }

  /** What `await fetch(url)` followed by `await response.text()` yields. */
  datatype FetchReply =
    | Response(ok: bool, status: int, statusText: string, body: string)
    | FetchFailed(failure: Failure)

  /** What `await generateText(...)` yields. */
  datatype ModelReply = Completion(text: string) | ModelFailed(failure: Failure)

  /** A call to the outside world, recorded in the order it is made. */
  datatype Call =
    | FetchCall(url: string)
    | GenerateCall(model: string, prompt: string)
    | SleepCall(ms: Num)   // `sleep(ms)`; `NaN` where the duration is not a number

  /** A concurrent request that runs while an extraction awaits. */
  datatype FlagOp = Cancel | Reset

  /** The points at which a first-generation extraction awaits. */
  datatype Await = AwaitFetch | AwaitModel | AwaitDelay

  /** The replies the outside world gives: `fetch(i)` answers the fetch of
      the i-th URL, `reply(i, a)` the model call of its a-th attempt, and
      `during(i, w)` lists the cancel and reset requests that complete while
      the i-th URL is suspended at `w`. */
  datatype World = World(
    fetch: nat -> FetchReply,
    reply: (nat, nat) -> ModelReply,
    during: (nat, Await) -> seq<FlagOp>)

  /** The cancel flag after the given requests run in order. */
  function ApplyOps(flag: bool, ops: seq<FlagOp>): (r: bool)
    ensures ops == [] ==> r == flag
    ensures ops != [] ==> r == (ops[|ops| - 1] == Cancel)
    decreases ops
  {
    if ops == [] then flag
    else ApplyOps(ops[0] == Cancel, ops[1..])
  }
}
