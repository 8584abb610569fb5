/** The streaming generators of src/ai_api/proxy/responses.py and router.py: whatever
    the upstream sends and wherever the consumer leaves, a call is recorded once. */
module Streams {
  /** What the consumer does with the generator when it yields: asks for more, closes
      it or is cancelled, or throws an exception into it. */
  datatype Consumer = Resumes | Leaves | Throws(message: string)

  /** How the upstream iteration ends: exhausted, an exception, or a cancellation of
      the wait for the next event. */
  datatype End = Exhausted | Raised(message: string) | CancelledWaiting

  /** What an observer has seen the generator do, the last thing outermost: attempts to
      file a record, and lines handed to the consumer. */
  datatype Trace<R, L> = Nothing | Attempt(before: Trace<R, L>, record: R) | Deliver(before: Trace<R, L>, line: L)

  function Attempts<R, L>(trace: Trace<R, L>): seq<R> {
    match trace
    case Nothing => []
    case Attempt(before, record) => Attempts(before) + [record]
    case Deliver(before, _) => Attempts(before)
  }

  function Delivered<R, L>(trace: Trace<R, L>): seq<L> {
    match trace
    case Nothing => []
    case Attempt(before, _) => Delivered(before)
    case Deliver(before, line) => Delivered(before) + [line]
  }

  /** A generator in the middle of its run: it owes the consumer the lines `due`, of which
      `left` are still to come, and owes one attempt with `goal`. As long as the attempt
      is not made, `now` is what the rest of the run calls for. */
  ghost predicate OnTrack<R, L>(
      goal: R, due: seq<L>, now: R, left: seq<L>, persisted: bool, trace: Trace<R, L>)
  {
    && Delivered(trace) + left == due
    && Attempts(trace) == (if persisted then [goal] else [])
    && (!persisted ==> now == goal)
  }

  lemma AttemptKeepsTrack<R, L>(goal: R, due: seq<L>, now: R, left: seq<L>, trace: Trace<R, L>)
    requires OnTrack(goal, due, now, left, false, trace)
    ensures OnTrack(goal, due, now, left, true, Attempt(trace, now))
  {
  }

  lemma DeliveryKeepsTrack<R, L>(
      goal: R, due: seq<L>, now: R, line: L, left: seq<L>, persisted: bool, trace: Trace<R, L>)
    requires OnTrack(goal, due, now, [line] + left, persisted, trace)
    ensures OnTrack(goal, due, now, left, persisted, Deliver(trace, line))
  {
    assert Delivered(trace) + ([line] + left) == (Delivered(trace) + [line]) + left;
  }

  lemma StartsOnTrack<R, L>(goal: R, due: seq<L>)
    ensures OnTrack<R, L>(goal, due, goal, due, false, Nothing)
  {
    assert [] + due == due;
  }

  lemma TrackEnds<R, L>(goal: R, due: seq<L>, now: R, trace: Trace<R, L>)
    requires OnTrack(goal, due, now, [], true, trace)
    ensures Attempts(trace) == [goal] && Delivered(trace) == due
  {
    assert Delivered(trace) + [] == Delivered(trace);
  }

  function Cut500(s: string): string {
    if |s| > 500 then s[..500] else s
  }
}
