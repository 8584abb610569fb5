/** The streaming generator of src/ai_api/proxy/router.py. */
module ChatStream {
  import opened Common
  import opened Streams

  datatype Usage = Usage(promptTokens: int, completionTokens: int, totalTokens: int)

  datatype Choice = Choice(text: string)

  /** usage None stands for a missing, null or empty usage. */
  datatype Chunk = Chunk(id: string, choices: seq<Choice>, usage: Option<Usage>)

  datatype Upstream = Whole(chunk: Chunk) | Broken

  datatype Line = Data(chunk: Chunk) | Done

  /** A run of the upstream: events, each with what the consumer does when it is handed
      over, and the end of the iteration. */
  datatype Stream = Over(end: End) | Turn(event: Upstream, consumer: Consumer, rest: Stream)

  /** What the client sees of a chunk: nothing at all, or the chunk with its usage
      taken out unless the client asked for it. */
  function Shown(c: Chunk, wantsUsage: bool): seq<Line> {
    if c.usage.None? || wantsUsage then [Data(c)]
    else if c.choices == [] then []
    else [Data(c.(usage := None))]
  }

  /** The consumer can only leave at a chunk that it is shown. */
  predicate Resuming(c: Chunk, consumer: Consumer, wantsUsage: bool) {
    Shown(c, wantsUsage) == [] || consumer.Resumes?
  }

  /** The chunks the generator takes in: up to one it cannot handle, or one at whose
      delivery the consumer does not resume. */
  function Consumed(s: Stream, wantsUsage: bool): seq<Chunk> {
    match s
    case Over(_) => []
    case Turn(Broken, _, _) => []
    case Turn(Whole(c), consumer, rest) =>
      [c] + if Resuming(c, consumer, wantsUsage) then Consumed(rest, wantsUsage) else []
  }

  function AllShown(chunks: seq<Chunk>, wantsUsage: bool): seq<Line> {
    if chunks == [] then [] else Shown(chunks[0], wantsUsage) + AllShown(chunks[1..], wantsUsage)
  }

  /** [DONE] follows only when the upstream was exhausted and every chunk went out. */
  function Ending(s: Stream, wantsUsage: bool): seq<Line> {
    match s
    case Over(end) => if end.Exhausted? then [Done] else []
    case Turn(Broken, _, _) => []
    case Turn(Whole(c), consumer, rest) => if Resuming(c, consumer, wantsUsage) then Ending(rest, wantsUsage) else []
  }

  /** The usage to bill: the first that a chunk carries, or none. */
  function FirstUsage(chunks: seq<Chunk>): Option<Usage> {
    if chunks == [] then None
    else if chunks[0].usage.Some? then chunks[0].usage
    else FirstUsage(chunks[1..])
  }

  /** What the generator has yet to show, and to bill, in the middle of a run. */
  function Left(s: Stream, wantsUsage: bool): seq<Line> {
    match s
    case Over(_) => Ending(s, wantsUsage)
    case Turn(Broken, _, _) => []
    case Turn(Whole(c), consumer, rest) =>
      Shown(c, wantsUsage) + if Resuming(c, consumer, wantsUsage) then Left(rest, wantsUsage) else []
  }

  function Unbilled(s: Stream, wantsUsage: bool): Option<Usage> {
    match s
    case Over(_) => None
    case Turn(Broken, _, _) => None
    case Turn(Whole(c), consumer, rest) =>
      if c.usage.Some? then c.usage
      else if Resuming(c, consumer, wantsUsage) then Unbilled(rest, wantsUsage) else None
  }

  lemma {:induction false} LeftIsAllShown(s: Stream, wantsUsage: bool)
    ensures Left(s, wantsUsage) == AllShown(Consumed(s, wantsUsage), wantsUsage) + Ending(s, wantsUsage)
    ensures Unbilled(s, wantsUsage) == FirstUsage(Consumed(s, wantsUsage))
  {
    if s.Over? || s.event.Broken? {
    } else {
      var c := s.event.chunk;
      var resuming := Resuming(c, s.consumer, wantsUsage);
      if resuming {
        LeftIsAllShown(s.rest, wantsUsage);
      }
      var later := if resuming then Consumed(s.rest, wantsUsage) else [];
      assert ([c] + later)[1..] == later;
      var shown, ending := AllShown(later, wantsUsage), Ending(s, wantsUsage);
      assert (Shown(c, wantsUsage) + shown) + ending == Shown(c, wantsUsage) + (shown + ending);
    }
  }

  /** Whenever a chunk is shown with its usage, the bill has been attempted before. */
  predicate AttemptFirst(trace: Trace<Option<Usage>, Line>) {
    match trace
    case Nothing => true
    case Attempt(before, _) => AttemptFirst(before)
    case Deliver(before, line) =>
      AttemptFirst(before) && (line.Data? && line.chunk.usage.Some? ==> Attempts(before) != [])
  }

  /** event_gen: one billing attempt, with the first usage taken in; the consumed
      chunks are shown in order, and [DONE] ends them only when the stream ran out.
      An exception leaves through the finally clause, which bills. */
  method EventGen(stream: Stream, wantsUsage: bool) returns (trace: Trace<Option<Usage>, Line>)
    ensures Attempts(trace) == [FirstUsage(Consumed(stream, wantsUsage))]
    ensures Delivered(trace) == AllShown(Consumed(stream, wantsUsage), wantsUsage) + Ending(stream, wantsUsage)
    ensures AttemptFirst(trace)
  {
    trace := Nothing;
    var captured: Option<Usage> := None;
    var persisted := false;
    var open := true;
    var s := stream;
    ghost var goal, due := Unbilled(stream, wantsUsage), Left(stream, wantsUsage);
    LeftIsAllShown(stream, wantsUsage);
    StartsOnTrack<Option<Usage>, Line>(goal, due);
    while open && s.Turn?
      invariant AttemptFirst(trace)
      invariant !persisted ==> captured == None
      invariant open ==> OnTrack(goal, due, Unbilled(s, wantsUsage), Left(s, wantsUsage), persisted, trace)
      invariant !open ==> OnTrack(goal, due, None, [], persisted, trace)
      decreases s, open
    {
      ghost var now := Unbilled(s, wantsUsage);
      if s.event.Broken? {
        open := false;
      } else {
        var chunk := s.event.chunk;
        var data := chunk;
        var drop := false;
        if chunk.usage.Some? {
          captured := chunk.usage;
          if !persisted {
            AttemptKeepsTrack(goal, due, now, Left(s, wantsUsage), trace);
            trace := Attempt(trace, chunk.usage);
            persisted := true;
          }
          if !wantsUsage {
            if chunk.choices == [] {
              drop := true;
            } else {
              data := chunk.(usage := None);
            }
          }
        }
        if drop {
          assert [] + Left(s.rest, wantsUsage) == Left(s.rest, wantsUsage);
        } else {
          DeliveryKeepsTrack(
            goal, due, now, Data(data), if s.consumer.Resumes? then Left(s.rest, wantsUsage) else [], persisted, trace);
          trace := Deliver(trace, Data(data));
          if !s.consumer.Resumes? {
            open := false;
          }
        }
      }
      s := s.rest;
    }
    if open && s.end.Exhausted? {
      DeliveryKeepsTrack(goal, due, None, Done, [], persisted, trace);
      trace := Deliver(trace, Done);
    }
    if !persisted {
      AttemptKeepsTrack(goal, due, None, [], trace);
      trace := Attempt(trace, captured);
    }
    TrackEnds(goal, due, None, trace);
  }

  /* ---------- What the client sees ---------- */

  function ChoicesOf(lines: seq<Line>): seq<Choice> {
    if lines == [] then [] else (if lines[0].Data? then lines[0].chunk.choices else []) + ChoicesOf(lines[1..])
  }

  function AllChoices(chunks: seq<Chunk>): seq<Choice> {
    if chunks == [] then [] else chunks[0].choices + AllChoices(chunks[1..])
  }

  /** No choice is lost, added or reordered, whether or not usage is hidden. */
  lemma {:induction false} ChoicesPreserved(chunks: seq<Chunk>, wantsUsage: bool)
    ensures ChoicesOf(AllShown(chunks, wantsUsage)) == AllChoices(chunks)
  {
    if chunks == [] {
    } else {
      ChoicesPreserved(chunks[1..], wantsUsage);
      var head, tail := Shown(chunks[0], wantsUsage), AllShown(chunks[1..], wantsUsage);
      if head == [] {
        assert head + tail == tail;
      } else {
        assert head == [head[0]];
        assert (head + tail)[1..] == tail;
      }
    }
  }

  /** A client that did not ask for usage sees none. */
  lemma {:induction false} UsageHidden(chunks: seq<Chunk>)
    ensures forall l | l in AllShown(chunks, false) :: l.Data? && l.chunk.usage == None
  {
    if chunks == [] {
    } else {
      UsageHidden(chunks[1..]);
    }
  }

  function Verbatim(chunks: seq<Chunk>): seq<Line> {
    seq(|chunks|, i requires 0 <= i < |chunks| => Data(chunks[i]))
  }

  /** A client that asked for usage gets every chunk as it came. */
  lemma {:induction false} VerbatimWhenWanted(chunks: seq<Chunk>)
    ensures AllShown(chunks, true) == Verbatim(chunks)
  {
    if chunks == [] {
    } else {
      VerbatimWhenWanted(chunks[1..]);
      assert Verbatim(chunks) == [Data(chunks[0])] + Verbatim(chunks[1..]);
    }
  }

  function Kept(chunks: seq<Chunk>): seq<Chunk> {
    if chunks == [] then []
    else
      var c := chunks[0];
      (if c.usage.Some? && c.choices == [] then [] else [c]) + Kept(chunks[1..])
  }

  /** Only chunks that carry usage and no choices are dropped; the others come in
      order, alike but for the usage. */
  lemma {:induction false} OnlyUsageChunksDropped(chunks: seq<Chunk>)
    ensures var lines, kept := AllShown(chunks, false), Kept(chunks);
      && |lines| == |kept|
      && forall i | 0 <= i < |kept| :: lines[i] == Data(kept[i].(usage := None))
  {
    if chunks == [] {
    } else {
      OnlyUsageChunksDropped(chunks[1..]);
    }
  }

  /** The bill carries the first usage of the consumed chunks, if any does. */
  lemma {:induction false} FirstUsageIsFirst(chunks: seq<Chunk>)
    ensures FirstUsage(chunks) == None ==> forall c | c in chunks :: c.usage == None
    ensures FirstUsage(chunks).Some? ==>
      exists k | 0 <= k < |chunks| ::
        chunks[k].usage == FirstUsage(chunks) && forall i | 0 <= i < k :: chunks[i].usage == None
  {
    if chunks == [] {
    } else {
      FirstUsageIsFirst(chunks[1..]);
      if chunks[0].usage.Some? {
        assert chunks[0].usage == FirstUsage(chunks);
      } else if FirstUsage(chunks).Some? {
        var k :| 0 <= k < |chunks[1..]| && chunks[1..][k].usage == FirstUsage(chunks)
          && forall i | 0 <= i < k :: chunks[1..][i].usage == None;
        assert chunks[k + 1].usage == FirstUsage(chunks);
        assert forall i | 0 < i < k + 1 :: chunks[i] == chunks[1..][i - 1];
      }
    }
  }

  /* ---------- How far the stream gets ---------- */

  function AllEvents(s: Stream): seq<Upstream> {
    match s
    case Over(_) => []
    case Turn(event, _, rest) => [event] + AllEvents(rest)
  }

  function AllConsumers(s: Stream): (consumers: seq<Consumer>)
    ensures |consumers| == |AllEvents(s)|
  {
    match s
    case Over(_) => []
    case Turn(_, consumer, rest) => [consumer] + AllConsumers(rest)
  }

  function EndOf(s: Stream): End {
    match s
    case Over(end) => end
    case Turn(_, _, rest) => EndOf(rest)
  }

  /** The generator gets past its k-th event: it is a chunk that the consumer resumes
      from, or is not shown because it carries nothing but the usage. */
  predicate Passes(s: Stream, k: nat, wantsUsage: bool)
    requires k < |AllEvents(s)|
  {
    var event := AllEvents(s)[k];
    && event.Whole?
    && (AllConsumers(s)[k].Resumes? || (!wantsUsage && event.chunk.usage.Some? && event.chunk.choices == []))
  }

  lemma PassesLater(s: Stream, wantsUsage: bool)
    requires s.Turn?
    ensures forall k | 0 <= k < |AllEvents(s.rest)| :: Passes(s, k + 1, wantsUsage) == Passes(s.rest, k, wantsUsage)
  {
    forall k | 0 <= k < |AllEvents(s.rest)| ensures Passes(s, k + 1, wantsUsage) == Passes(s.rest, k, wantsUsage) {
      assert AllEvents(s)[k + 1] == AllEvents(s.rest)[k] && AllConsumers(s)[k + 1] == AllConsumers(s.rest)[k];
    }
  }

  /** The chunks consumed are the first ones of the stream, in order: up to one that
      cannot be handled, or the first that the generator does not get past. */
  lemma {:induction false} ConsumedExactly(s: Stream, wantsUsage: bool)
    ensures var chunks, all := Consumed(s, wantsUsage), AllEvents(s);
      && |chunks| <= |all| && (forall k | 0 <= k < |chunks| :: all[k] == Whole(chunks[k]))
      && (forall k | 0 <= k < |chunks| - 1 :: Passes(s, k, wantsUsage))
      && (|chunks| < |all| ==>
            all[|chunks|].Broken? || (chunks != [] && !Passes(s, |chunks| - 1, wantsUsage)))
  {
    if s.Over? || s.event.Broken? {
    } else {
      PassesLater(s, wantsUsage);
      if Resuming(s.event.chunk, s.consumer, wantsUsage) {
        ConsumedExactly(s.rest, wantsUsage);
        var chunks, later := Consumed(s, wantsUsage), Consumed(s.rest, wantsUsage);
        assert chunks == [s.event.chunk] + later;
        forall k | 0 < k < |chunks| - 1 ensures Passes(s, k, wantsUsage) {
          assert Passes(s.rest, k - 1, wantsUsage);
        }
      } else {
        assert Consumed(s, wantsUsage) == [s.event.chunk];
      }
    }
  }

  /** [DONE] is delivered exactly if the generator gets past every event and the upstream
      then is exhausted; it then is the last line, and the only one of its kind. */
  lemma DoneMeansAll(s: Stream, wantsUsage: bool)
    ensures var lines := AllShown(Consumed(s, wantsUsage), wantsUsage) + Ending(s, wantsUsage);
      && (Done in lines <==>
            EndOf(s).Exhausted? && forall k | 0 <= k < |AllEvents(s)| :: Passes(s, k, wantsUsage))
      && (Done in lines ==> lines[|lines| - 1] == Done && Done !in lines[..|lines| - 1])
  {
    ShownIsData(Consumed(s, wantsUsage), wantsUsage);
    EndsExactly(s, wantsUsage);
  }

  lemma {:induction false} ShownIsData(chunks: seq<Chunk>, wantsUsage: bool)
    ensures Done !in AllShown(chunks, wantsUsage)
  {
    if chunks == [] {
    } else {
      ShownIsData(chunks[1..], wantsUsage);
    }
  }

  lemma {:induction false} EndsExactly(s: Stream, wantsUsage: bool)
    ensures Ending(s, wantsUsage) ==
      if EndOf(s).Exhausted? && forall k | 0 <= k < |AllEvents(s)| :: Passes(s, k, wantsUsage) then [Done] else []
  {
    if s.Over? {
    } else {
      EndsExactly(s.rest, wantsUsage);
      PassesLater(s, wantsUsage);
      if s.event.Broken? || !Resuming(s.event.chunk, s.consumer, wantsUsage) {
        assert !Passes(s, 0, wantsUsage);
      } else {
        assert Passes(s, 0, wantsUsage);
        forall k | 0 <= k < |AllEvents(s)| && forall j | 0 <= j < |AllEvents(s.rest)| :: Passes(s.rest, j, wantsUsage)
          ensures Passes(s, k, wantsUsage)
        {
          if k > 0 {
            assert Passes(s.rest, k - 1, wantsUsage);
          }
        }
        forall k | 0 <= k < |AllEvents(s.rest)| && forall j | 0 <= j < |AllEvents(s)| :: Passes(s, j, wantsUsage)
          ensures Passes(s.rest, k, wantsUsage)
        {
          assert Passes(s, k + 1, wantsUsage);
        }
      }
    }
  }
}
