/** The server-sent progress stream: `sendProgress` polls the orchestrator's
    snapshot, sends it as a `data:` frame when its JSON differs from the
    last one sent, and reschedules itself every 200 ms until the snapshot
    reaches 100%, when it sends one final "Complete" frame and closes the
    stream a second later. Timers are recorded as the delay of the next
    call; what each call meets (the snapshot read, or a read that throws,
    and whether each `enqueue` goes through) is a `Reading` supplied by the
    environment. `json` is `JSON.stringify` on snapshots. */
module ExtractionProgress {
  import opened Actions

  const PollMs := 200
  const RetryMs := 1000
  const CloseMs := 1000
  const CompleteStatus := "Complete"

  /** What one call of `sendProgress` meets: the snapshot read, whether the
      progress frame and the final frame can be enqueued; or a read that
      throws, and whether the error frame can be enqueued. */
  datatype Reading =
    | Read(progress: Progress, sent: bool, finalSent: bool)
    | ReadFailed(errorSent: bool)

  /** A frame written to the stream: `data: <json>\n\n` for a progress
      snapshot, for the final snapshot with status "Complete", or for
      `{"error":"Error fetching progress"}`. */
  datatype Event = Data(json: string) | Final(json: string) | ErrorEvent

  /** What a call leaves scheduled: another poll after `ms`, the closing
      timer after `ms`, or nothing. */
  datatype Next = Poll(ms: nat) | CloseAfter(ms: nat) | Halt

  /** The closure's two variables `lastProgressJson` and `isActive`. */
  datatype State = State(last: string, active: bool)

  /** The state after some calls, the frames written so far and what is
      scheduled next. */
  datatype Step = Step(state: State, events: seq<Event>, next: Next)

  /** The JSON of the progress frames among `ev`, in order. */
  function Jsons(ev: seq<Event>): (js: seq<string>)
    ensures |js| <= |ev|
  {
    if ev == [] then []
    else (if ev[0].Data? then [ev[0].json] else []) + Jsons(ev[1..])
  }

  lemma {:induction false} JsonsAppend(a: seq<Event>, b: seq<Event>)
    ensures Jsons(a + b) == Jsons(a) + Jsons(b)
  {
    if a != [] {
      assert (a + b)[1..] == a[1..] + b;
      JsonsAppend(a[1..], b);
    } else {
      assert a + b == b;
    }
  }

  /** One call of `sendProgress` from state `s` meeting `r`. */
  function SendStep(json: Progress -> string, s: State, r: Reading): (u: Step)
    // an inactive stream does nothing
    ensures !s.active ==> u == Step(s, [], Halt)
    // every read snapshot becomes the last JSON seen
    ensures u.state.last == (if s.active && r.Read? then json(r.progress) else s.last)
    // a progress frame goes out exactly when the JSON changed and the stream stays up
    ensures Jsons(u.events) == (if u.state.last != s.last && u.state.active then [u.state.last] else [])
    ensures s.active && r.Read? && json(r.progress) != s.last && r.sent ==>
      u.events != [] && u.events[0] == Data(json(r.progress))
    // nothing further is scheduled exactly when the stream has gone inactive
    ensures u.next == Halt <==> !u.state.active
    ensures u.next == Poll(PollMs) <==>
      s.active && r.Read? && r.progress.percent != 100 && (json(r.progress) == s.last || r.sent)
    ensures u.next == Poll(RetryMs) <==> s.active && r.ReadFailed? && r.errorSent
    ensures s.active && r.ReadFailed? ==> u.events == (if r.errorSent then [ErrorEvent] else [])
    // a snapshot at 100% ends polling and schedules the close
    ensures u.next.CloseAfter? <==>
      s.active && r.Read? && r.progress.percent == 100 && (json(r.progress) == s.last || r.sent)
    ensures u.next.CloseAfter? ==>
      (u.next.ms == CloseMs && (Final(json(r.progress.(status := CompleteStatus))) in u.events <==> r.finalSent))
  {
    if !s.active then Step(s, [], Halt)
    else match r
      case ReadFailed(errorSent) =>
        if errorSent then Step(s, [ErrorEvent], Poll(RetryMs))
        else Step(s.(active := false), [], Halt)
      case Read(p, sent, finalSent) =>
        var j := json(p);
        if j != s.last && !sent then Step(State(j, false), [], Halt)
        else
          var out := if j != s.last then [Data(j)] else [];
          if p.percent == 100 then
            Step(State(j, true), out + (if finalSent then [Final(json(p.(status := CompleteStatus)))] else []), CloseAfter(CloseMs))
          else Step(State(j, true), out, Poll(PollMs))
  }

  /** The calls that run while a poll is scheduled, one per reading. */
  function Go(json: Progress -> string, t: Step, rs: seq<Reading>): Step
    decreases |rs|
  {
    if rs == [] || !t.next.Poll? then t
    else
      var u := SendStep(json, t.state, rs[0]);
      Go(json, Step(u.state, t.events + u.events, u.next), rs[1..])
  }

  /** One call of a polling stream, at reading `i`. */
  lemma GoUnfold(json: Progress -> string, t: Step, rs: seq<Reading>, i: nat)
    requires i < |rs| && t.next.Poll?
    ensures var u := SendStep(json, t.state, rs[i]);
      Go(json, t, rs[i..]) == Go(json, Step(u.state, t.events + u.events, u.next), rs[i + 1..])
  {
    assert rs[i..][0] == rs[i] && rs[i..][1..] == rs[i + 1..];
  }

  /** `start`: fresh variables and an immediate first call. */
  function Initial(): Step
  {
    Step(State("", true), [], Poll(0))
  }

  /** The stream over the readings; when the closing timer is scheduled it
      fires and clears `isActive`. */
  function Stream(json: Progress -> string, rs: seq<Reading>): Step
  {
    var t := Go(json, Initial(), rs);
    if t.next.CloseAfter? then t.(state := t.state.(active := false)) else t
  }

  /** The stream's closure state and the frames it has written. */
  class Emitter {
    var lastProgressJson: string
    var isActive: bool
    var events: seq<Event>

    constructor()
      ensures lastProgressJson == "" && isActive && events == []
    {
      lastProgressJson := "";
      isActive := true;
      events := [];
    }

    /** `sendProgress`. */
    method SendProgress(json: Progress -> string, r: Reading) returns (next: Next)
      modifies this
      ensures var u := SendStep(json, old(State(lastProgressJson, isActive)), r);
        State(lastProgressJson, isActive) == u.state && events == old(events) + u.events && next == u.next
    {
      if !isActive {
        return Halt;
      }
      match r {
        case ReadFailed(errorSent) =>
          if errorSent {
            events := events + [ErrorEvent];
            next := Poll(RetryMs);
          } else {
            isActive := false;
            next := Halt;
          }
        case Read(p, sent, finalSent) =>
          var progressJson := json(p);
          if progressJson != lastProgressJson {
            lastProgressJson := progressJson;
            if !sent {
              isActive := false;
              return Halt;
            }
            events := events + [Data(progressJson)];
          }
          if p.percent == 100 {
            if finalSent {
              events := events + [Final(json(p.(status := CompleteStatus)))];
            }
            return CloseAfter(CloseMs);
          }
          next := Poll(PollMs);
      }
    }

    /** `start`: the first call, then one call per scheduled poll. */
    method Start(json: Progress -> string, rs: seq<Reading>) returns (next: Next)
      modifies this
      ensures Step(State(lastProgressJson, isActive), events, next) == Stream(json, rs)
    {
      lastProgressJson := "";
      isActive := true;
      events := [];
      next := Poll(0);
      var i := 0;
      while i < |rs| && next.Poll?
        invariant 0 <= i <= |rs|
        invariant Go(json, Step(State(lastProgressJson, isActive), events, next), rs[i..]) == Go(json, Initial(), rs)
      {
        ghost var t := Step(State(lastProgressJson, isActive), events, next);
        next := SendProgress(json, rs[i]);
        assert Go(json, Step(State(lastProgressJson, isActive), events, next), rs[i + 1..]) == Go(json, Initial(), rs) by {
          GoUnfold(json, t, rs, i);
        }
        i := i + 1;
      }
      if next.CloseAfter? {
        isActive := false;
      }
    }
  }

  // ---------------------------------------------------------------------------
  // Properties

  predicate NoAdjacentRepeat(js: seq<string>)
  {
    forall i :: 0 < i < |js| ==> js[i - 1] != js[i]
  }

  ghost predicate Deduped(t: Step)
  {
    var js := Jsons(t.events);
    NoAdjacentRepeat(js) && (t.state.active && js != [] ==> js[|js| - 1] == t.state.last)
  }

  lemma {:induction false} GoDeduped(json: Progress -> string, t: Step, rs: seq<Reading>)
    requires Deduped(t)
    ensures Deduped(Go(json, t, rs))
    decreases |rs|
  {
    if rs != [] && t.next.Poll? {
      var u := SendStep(json, t.state, rs[0]);
      var t' := Step(u.state, t.events + u.events, u.next);
      SendDeduped(json, t, rs[0]);
      GoDeduped(json, t', rs[1..]);
      assert Go(json, t, rs) == Go(json, t', rs[1..]);
    }
  }

  /** One call keeps the frames deduplicated. */
  lemma SendDeduped(json: Progress -> string, t: Step, r: Reading)
    requires Deduped(t)
    ensures var u := SendStep(json, t.state, r);
      Deduped(Step(u.state, t.events + u.events, u.next))
  {
    var u := SendStep(json, t.state, r);
    JsonsAppend(t.events, u.events);
  }

  /** No two consecutive progress frames carry the same JSON. */
  lemma NoRepeatedProgress(json: Progress -> string, rs: seq<Reading>)
    ensures NoAdjacentRepeat(Jsons(Stream(json, rs).events))
  {
    GoDeduped(json, Initial(), rs);
  }

  lemma {:induction false} GoExtends(json: Progress -> string, t: Step, rs: seq<Reading>)
    ensures |t.events| <= |Go(json, t, rs).events| && Go(json, t, rs).events[..|t.events|] == t.events
    decreases |rs|
  {
    if rs != [] && t.next.Poll? {
      var u := SendStep(json, t.state, rs[0]);
      var t' := Step(u.state, t.events + u.events, u.next);
      GoExtends(json, t', rs[1..]);
      assert Go(json, t, rs).events[..|t'.events|] == t'.events;
      assert t'.events[..|t.events|] == t.events;
    }
  }

  /** The first snapshot read is always sent, since the last JSON starts
      empty and a JSON text never is; if it cannot be enqueued the stream
      goes quiet at once. */
  lemma FirstReadingSent(json: Progress -> string, p: Progress, sent: bool, finalSent: bool, rs: seq<Reading>)
    requires json(p) != ""
    ensures var t := Stream(json, [Read(p, sent, finalSent)] + rs);
      (sent ==> t.events != [] && t.events[0] == Data(json(p))) &&
      (!sent ==> t.events == [] && !t.state.active)
  {
    var r := Read(p, sent, finalSent);
    var u := SendStep(json, Initial().state, r);
    var t1 := Step(u.state, [] + u.events, u.next);
    assert Go(json, Initial(), [r] + rs) == Go(json, t1, rs) by {
      assert ([r] + rs)[1..] == rs;
    }
    assert sent ==> t1.events != [] && t1.events[0] == Data(json(p));
    assert !sent ==> t1.events == [] && t1.next == Halt && !t1.state.active;
    GoExtends(json, t1, rs);
  }

  lemma {:induction false} GoStops(json: Progress -> string, t: Step, rs: seq<Reading>, more: seq<Reading>)
    requires !Go(json, t, rs).next.Poll?
    ensures Go(json, t, rs + more) == Go(json, t, rs)
    decreases |rs|
  {
    if rs != [] && t.next.Poll? {
      var u := SendStep(json, t.state, rs[0]);
      assert (rs + more)[1..] == rs[1..] + more;
      GoStops(json, Step(u.state, t.events + u.events, u.next), rs[1..], more);
    }
  }

  /** Once the stream is closing or inactive, later readings change
      nothing: a failed enqueue or a snapshot at 100% ends the stream. */
  lemma StreamEnds(json: Progress -> string, rs: seq<Reading>, more: seq<Reading>)
    requires !Stream(json, rs).next.Poll?
    ensures Stream(json, rs + more) == Stream(json, rs)
  {
    GoStops(json, Initial(), rs, more);
  }

  lemma {:induction false} GoSnoc(json: Progress -> string, t: Step, rs: seq<Reading>, r: Reading)
    requires Go(json, t, rs).next.Poll?
    ensures var g := Go(json, t, rs);
      var u := SendStep(json, g.state, r);
      Go(json, t, rs + [r]) == Step(u.state, g.events + u.events, u.next)
    decreases |rs|
  {
    if rs == [] {
      assert ([] + [r])[1..] == [];
    } else {
      var u := SendStep(json, t.state, rs[0]);
      assert (rs + [r])[1..] == rs[1..] + [r];
      GoSnoc(json, Step(u.state, t.events + u.events, u.next), rs[1..], r);
    }
  }

  lemma {:induction false} GoPollActive(json: Progress -> string, t: Step, rs: seq<Reading>)
    requires t.next.Poll? ==> t.state.active
    ensures Go(json, t, rs).next.Poll? ==> Go(json, t, rs).state.active
    decreases |rs|
  {
    if rs != [] && t.next.Poll? {
      var u := SendStep(json, t.state, rs[0]);
      GoPollActive(json, Step(u.state, t.events + u.events, u.next), rs[1..]);
    }
  }

  /** A snapshot at 100% read while polling, and enqueued, is the stream's
      last read: the final "Complete" frame (when it goes through) is the
      last frame, and the stream closes. */
  lemma CompleteClosesStream(json: Progress -> string, rs: seq<Reading>, p: Progress, finalSent: bool, more: seq<Reading>)
    requires Stream(json, rs).next.Poll?
    requires p.percent == 100
    ensures var before := Stream(json, rs);
      var t := Stream(json, rs + [Read(p, true, finalSent)] + more);
      t.next == CloseAfter(CloseMs) && !t.state.active &&
      t.events == before.events + (if json(p) != before.state.last then [Data(json(p))] else []) +
        (if finalSent then [Final(json(p.(status := CompleteStatus)))] else [])
  {
    var r := Read(p, true, finalSent);
    var g := Go(json, Initial(), rs);
    assert Stream(json, rs) == g && g.next.Poll? && g.state.active by {
      GoPollActive(json, Initial(), rs);
    }
    var u := SendStep(json, g.state, r);
    assert u.next == CloseAfter(CloseMs) && u.state.active &&
      u.events == (if json(p) != g.state.last then [Data(json(p))] else []) +
        (if finalSent then [Final(json(p.(status := CompleteStatus)))] else []) by {
      CompleteStep(json, g.state, p, finalSent);
    }
    var h := Step(u.state, g.events + u.events, u.next);
    assert Go(json, Initial(), rs + [r] + more) == h by {
      GoSnoc(json, Initial(), rs, r);
      GoStops(json, Initial(), rs + [r], more);
    }
  }

  /** One enqueued read at 100% from an active stream schedules the close. */
  lemma CompleteStep(json: Progress -> string, s: State, p: Progress, finalSent: bool)
    requires s.active && p.percent == 100
    ensures var u := SendStep(json, s, Read(p, true, finalSent));
      u.next == CloseAfter(CloseMs) && u.state.active &&
      u.events == (if json(p) != s.last then [Data(json(p))] else []) +
        (if finalSent then [Final(json(p.(status := CompleteStatus)))] else [])
  {
  }

  /** A read that throws sends the error frame and retries after a second,
      for as many failures in a row as there are. */
  lemma {:induction false} GoRetries(json: Progress -> string, t: Step, n: nat)
    requires t.state.active && t.next.Poll?
    ensures Go(json, t, seq(n, _ => ReadFailed(true))) ==
      Step(t.state, t.events + seq(n, _ => ErrorEvent), if n == 0 then t.next else Poll(RetryMs))
    decreases n
  {
    if n > 0 {
      var rs := seq(n, _ => ReadFailed(true));
      assert rs[0] == ReadFailed(true) && rs[1..] == seq(n - 1, _ => ReadFailed(true));
      var t' := Step(t.state, t.events + [ErrorEvent], Poll(RetryMs));
      GoRetries(json, t', n - 1);
      assert t'.events + seq(n - 1, _ => ErrorEvent) == t.events + seq(n, _ => ErrorEvent);
    }
  }

  lemma ReadErrorsRetryForever(json: Progress -> string, n: nat)
    requires n > 0
    ensures Stream(json, seq(n, _ => ReadFailed(true))) ==
      Step(State("", true), seq(n, _ => ErrorEvent), Poll(RetryMs))
  {
    GoRetries(json, Initial(), n);
  }
}
