/** The streaming generator of src/ai_api/proxy/responses.py. */
module ResponsesStream {
  import opened Common
  import opened Streams

  datatype Usage = Usage(inputTokens: int, outputTokens: int, totalTokens: int)

  /** Where a response.failed event may say why; None stands for missing or empty. */
  datatype Failure = Failure(
    errorCode: Option<string>, statusErrorCode: Option<string>, incompleteReason: Option<string>,
    status: Option<string>,
    errorMessage: Option<string>, statusErrorMessage: Option<string>, incompleteDescription: Option<string>)

  /** An upstream event as its payload reads. Broken: handling it raises. */
  datatype Upstream =
    | Completed(usage: Option<Usage>, responseId: Option<string>)
    | Failed(failure: Failure)
    | Progress(text: string)
    | Broken(message: string)

  /** An attempt to file the call: as a success, or as an upstream error. */
  datatype Record = Succeeded(usage: Option<Usage>, responseId: Option<string>) | UpstreamError(message: string)

  function Either(o: Option<string>, otherwise: string): string {
    if o.Some? then o.value else otherwise
  }

  function FailureText(f: Failure): string {
    Cut500(
      Either(f.errorCode, Either(f.statusErrorCode, Either(f.incompleteReason, Either(f.status, "unknown"))))
      + ": "
      + Either(f.errorMessage, Either(f.statusErrorMessage, Either(f.incompleteDescription, "(no error message)"))))
  }

  function ExceptionText(message: string): string {
    Cut500(Cut500("stream_exception: " + message))
  }

  /** The first of these to be there, the last if none is. */
  predicate FirstThere(o: seq<Option<string>>, i: nat) {
    i <= |o| && (forall j | 0 <= j < i :: o[j].None?) && (i < |o| ==> o[i].Some?)
  }

  /** A failure is recorded as a code and a message, each the first that the event gives
      in this order, cut to 500 characters. */
  lemma FailureTextSays(f: Failure, i: nat, j: nat)
    requires FirstThere([f.errorCode, f.statusErrorCode, f.incompleteReason, f.status], i)
    requires FirstThere([f.errorMessage, f.statusErrorMessage, f.incompleteDescription], j)
    ensures var code := if i == 4 then "unknown" else
        [f.errorCode, f.statusErrorCode, f.incompleteReason, f.status][i].value;
      var message := if j == 3 then "(no error message)" else
        [f.errorMessage, f.statusErrorMessage, f.incompleteDescription][j].value;
      FailureText(f) <= code + ": " + message
      && (|FailureText(f)| == 500 || FailureText(f) == code + ": " + message) && |FailureText(f)| <= 500
  {
    var codes := [f.errorCode, f.statusErrorCode, f.incompleteReason, f.status];
    assert codes[0] == f.errorCode && codes[1] == f.statusErrorCode && codes[2] == f.incompleteReason;
    assert codes[3] == f.status;
    var messages := [f.errorMessage, f.statusErrorMessage, f.incompleteDescription];
    assert messages[0] == f.errorMessage && messages[1] == f.statusErrorMessage;
    assert messages[2] == f.incompleteDescription;
  }

  lemma ExceptionTextSays(message: string)
    ensures ExceptionText(message) <= "stream_exception: " + message && |ExceptionText(message)| <= 500
    ensures |ExceptionText(message)| == 500 || ExceptionText(message) == "stream_exception: " + message
  {
  }

  /** An event that ends the matter. */
  predicate Terminal(e: Upstream) {
    e.Completed? || e.Failed?
  }

  /** A run of the upstream: events, each with what the consumer does when it is handed
      over, and the end of the iteration. */
  datatype Stream = Over(end: End) | Turn(event: Upstream, consumer: Consumer, rest: Stream)

  /** The record a stream deserves, read off the first thing that decides: a terminal
      event, an exception, the consumer's leave, or the end. */
  function Verdict(s: Stream): Record {
    match s
    case Over(end) => if end.Raised? then UpstreamError(ExceptionText(end.message)) else Succeeded(None, None)
    case Turn(Completed(usage, id), _, _) => Succeeded(usage, id)
    case Turn(Failed(f), _, _) => UpstreamError(FailureText(f))
    case Turn(Broken(message), _, _) => UpstreamError(ExceptionText(message))
    case Turn(Progress(_), Resumes, rest) => Verdict(rest)
    case Turn(Progress(_), Leaves, _) => Succeeded(None, None)
    case Turn(Progress(_), Throws(message), _) => UpstreamError(ExceptionText(message))
  }

  /** The events that reach the consumer. */
  function Reaching(s: Stream): seq<Upstream> {
    match s
    case Over(_) => []
    case Turn(event, consumer, rest) =>
      if event.Broken? then [] else [event] + if consumer.Resumes? then Reaching(rest) else []
  }

  function AllEvents(s: Stream): seq<Upstream> {
    match s
    case Over(_) => []
    case Turn(event, _, rest) => [event] + AllEvents(rest)
  }

  function AllConsumers(s: Stream): (consumers: seq<Consumer>)
    ensures |consumers| == |AllEvents(s)|
  {
    match s
    case Over(_) => []
    case Turn(_, consumer, rest) => [consumer] + AllConsumers(rest)
  }

  /** What is delivered is a front part of all events: none that cannot be handled, and
      the consumer resumes after each but the last of them; what was held back comes after
      the consumer did not resume, or starts with an event that cannot be handled. */
  ghost predicate ComesOut(events: seq<Upstream>, s: Stream) {
    var n, all, consumers := |events|, AllEvents(s), AllConsumers(s);
    && events <= all
    && (forall i | 0 <= i < n :: !all[i].Broken?)
    && (forall i | 0 <= i < n - 1 :: consumers[i].Resumes?)
    && (n < |all| ==> all[n].Broken? || (n > 0 && !consumers[n - 1].Resumes?))
  }

  lemma {:induction false} ReachingComesOut(s: Stream)
    ensures ComesOut(Reaching(s), s)
  {
    if s.Over? || s.event.Broken? {
    } else if s.consumer.Resumes? {
      ReachingComesOut(s.rest);
      var all, consumers := AllEvents(s.rest), AllConsumers(s.rest);
      assert AllEvents(s)[1..] == all && AllConsumers(s)[1..] == consumers;
    } else {
      assert Reaching(s) == [s.event];
    }
  }

  /** So a stream of whole events and a consumer that stays to the end is delivered in
      full, the terminal events included. */
  lemma UndisturbedComesOut(events: seq<Upstream>, s: Stream)
    requires ComesOut(events, s)
    requires forall i | 0 <= i < |AllEvents(s)| :: !AllEvents(s)[i].Broken? && AllConsumers(s)[i].Resumes?
    ensures events == AllEvents(s)
  {
  }

  /** Whenever a terminal event is delivered, the attempt has been made before. */
  predicate AttemptFirst(trace: Trace<Record, Upstream>) {
    match trace
    case Nothing => true
    case Attempt(before, _) => AttemptFirst(before)
    case Deliver(before, line) => AttemptFirst(before) && (Terminal(line) ==> Attempts(before) != [])
  }

  /** The record made when the loop is over and no event was terminal. */
  function LateRecord(raised: Option<string>): Record {
    if raised.Some? then UpstreamError(ExceptionText(raised.value)) else Succeeded(None, None)
  }

  /** event_gen, with _record_fresh and _record_failed_stream: one record, the verdict
      on the stream; the events delivered are those that reach the consumer, a front part
      of all, and the attempt precedes the delivery of a terminal event. Both helpers
      swallow every exception, cancellation included. */
  method EventGen(stream: Stream) returns (trace: Trace<Record, Upstream>)
    ensures Attempts(trace) == [Verdict(stream)]
    ensures Delivered(trace) == Reaching(stream) && ComesOut(Delivered(trace), stream)
    ensures AttemptFirst(trace)
  {
    ReachingComesOut(stream);
    trace := Nothing;
    var capturedUsage: Option<Usage>, capturedId: Option<string> := None, None;
    var persisted := false;
    var raised: Option<string> := None;
    var open := true;
    var s := stream;
    ghost var goal, due := Verdict(stream), Reaching(stream);
    StartsOnTrack<Record, Upstream>(goal, due);
    while open && s.Turn?
      invariant AttemptFirst(trace)
      invariant !persisted ==> capturedUsage == None && capturedId == None
      invariant open ==> raised == None && OnTrack(goal, due, Verdict(s), Reaching(s), persisted, trace)
      invariant !open ==> OnTrack(goal, due, LateRecord(raised), [], persisted, trace)
      decreases s, open
    {
      var event, consumer := s.event, s.consumer;
      if event.Broken? {
        raised, open := Some(event.message), false;
      } else {
        if event.Completed? && !persisted {
          capturedUsage, capturedId := event.usage, event.responseId;
          AttemptKeepsTrack(goal, due, Verdict(s), Reaching(s), trace);
          trace := Attempt(trace, Succeeded(capturedUsage, capturedId));
          persisted := true;
        } else if event.Failed? && !persisted {
          AttemptKeepsTrack(goal, due, Verdict(s), Reaching(s), trace);
          trace := Attempt(trace, UpstreamError(FailureText(event.failure)));
          persisted := true;
        }
        DeliveryKeepsTrack(
          goal, due, Verdict(s), event, if consumer.Resumes? then Reaching(s.rest) else [], persisted, trace);
        trace := Deliver(trace, event);
        match consumer {
          case Resumes =>
          case Leaves => open := false;
          case Throws(message) => raised, open := Some(message), false;
        }
      }
      s := s.rest;
    }
    if open && s.end.Raised? {
      raised := Some(s.end.message);
    }
    if raised.Some? && !persisted {
      AttemptKeepsTrack(goal, due, LateRecord(raised), [], trace);
      trace := Attempt(trace, UpstreamError(ExceptionText(raised.value)));
      persisted := true;
    }
    if !persisted {
      AttemptKeepsTrack(goal, due, LateRecord(raised), [], trace);
      trace := Attempt(trace, Succeeded(capturedUsage, capturedId));
    }
    TrackEnds(goal, due, LateRecord(raised), trace);
  }

  /** The generator gets from s to t by progress events that the consumer resumes from. */
  predicate Reaches(s: Stream, t: Stream) {
    s == t || (s.Turn? && s.event.Progress? && s.consumer.Resumes? && Reaches(s.rest, t))
  }

  /** The generator gets to a terminal event. */
  ghost predicate ReachesTerminal(s: Stream) {
    exists t :: Reaches(s, t) && t.Turn? && Terminal(t.event)
  }

  /** The next thing that happens at t is an exception. */
  predicate Raises(t: Stream) {
    match t
    case Over(end) => end.Raised?
    case Turn(event, consumer, _) => event.Broken? || (event.Progress? && consumer.Throws?)
  }

  /** The first terminal event that is reached decides, whatever comes after it and
      however the stream ends. */
  lemma {:induction false} FirstTerminalDecides(s: Stream, t: Stream)
    requires Reaches(s, t) && t.Turn? && Terminal(t.event)
    ensures t.event.Completed? ==> Verdict(s) == Succeeded(t.event.usage, t.event.responseId)
    ensures t.event.Failed? ==> Verdict(s) == UpstreamError(FailureText(t.event.failure))
  {
    if s == t {
    } else {
      FirstTerminalDecides(s.rest, t);
    }
  }

  /** A stream whose terminal events, if it has any, lie behind what ends it, is an
      upstream error exactly if an exception ends it: raised by the upstream, by an
      event that cannot be handled, or by the consumer. Otherwise it is a success that
      carries no usage. */
  lemma {:induction false} NoTerminalVerdict(s: Stream)
    requires !ReachesTerminal(s)
    ensures Verdict(s).UpstreamError? <==> exists t :: Reaches(s, t) && Raises(t)
    ensures Verdict(s).Succeeded? ==> Verdict(s) == Succeeded(None, None)
  {
    assert Reaches(s, s);
    if s.Turn? && s.event.Progress? && s.consumer.Resumes? {
      forall t | Reaches(s.rest, t) ensures Reaches(s, t) {
      }
      NoTerminalVerdict(s.rest);
      if t :| Reaches(s, t) && Raises(t) {
        assert Reaches(s.rest, t);
      }
    } else {
      assert forall t :: Reaches(s, t) <==> s == t;
      assert Raises(s) <==> Verdict(s).UpstreamError?;
    }
  }

  /** The text of the exception that ends such a stream is the text recorded. */
  lemma {:induction false} ExceptionIsRecorded(s: Stream, t: Stream)
    requires Reaches(s, t) && Raises(t)
    ensures Verdict(s) == UpstreamError(ExceptionText(
      match t
      case Over(end) => end.message
      case Turn(event, consumer, _) => if event.Broken? then event.message else consumer.message))
  {
    if s == t {
    } else {
      ExceptionIsRecorded(s.rest, t);
    }
  }
}
