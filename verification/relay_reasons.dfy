/** Why realtime sessions end, read off the events alone: the close reason, the close
    code, the bill's outcome and message, and what the watcher looks at when. */
module RelayReasons {
  import opened Common
  import opened Metering
  import opened Relay

  /* ---------- The close reason ---------- */

  /** Whom an event blames, if the session has no reason yet. */
  function Blame(e: Event): Option<Reason> {
    match e
    case Up(ClientGone) => Some(ClientAbort)
    case Up(UpSendRaised(_)) => Some(UpstreamError)
    case Down(UpstreamGone) => Some(UpstreamError)
    case Down(DownSendRaised(_)) => Some(ClientAbort)
    case Main(ConnectRaised) => Some(UpstreamError)
    case Main(FirstSendRaised(_)) => Some(UpstreamError)
    case _ => None
  }

  /** The first event that blames anybody. */
  function FirstBlame(run: seq<Event>): Option<Reason> {
    if run == [] then None
    else
      var earlier := FirstBlame(run[..|run| - 1]);
      if earlier.Some? then earlier else Blame(run[|run| - 1])
  }

  const REVOCATION := Watch(ActiveRead(Inactive))

  /** Some read of the committed cost found it, with the running cost, at or over the cap. */
  predicate MeetsCap(cfg: Config, run: seq<Event>)
    requires Feasible(cfg, run)
  {
    run != [] &&
    var front := run[..|run| - 1];
    MeetsCap(cfg, front) || OverAt(cfg, After(cfg, front).io.meter, run[|run| - 1])
  }

  predicate OverAt(cfg: Config, m: Meter, e: Event) {
    && cfg.cap.Some? && e.Watch? && e.w.CostRead? && e.w.committed.Some?
    && e.w.committed.value + RunningCost(m, cfg.price) >= cfg.cap.value
  }

  lemma StepReason(cfg: Config, s: State, e: Event)
    requires Control(s) && Enabled(cfg, s, e)
    ensures Step(cfg, s, e).reason ==
      if e == REVOCATION then Revoked
      else if OverAt(cfg, s.io.meter, e) then CostExceeded
      else if s.reason == Normal && Blame(e).Some? then Blame(e).value
      else s.reason
    ensures e.Watch? ==> Rank(s.reason) < 2
  {
    match e
    case Main(ConnectRaised) =>
    case Main(FirstSendRaised(_)) =>
    case Main(_) =>
    case _ =>
  }

  /** The reason a run deserves. */
  function ReasonOf(cfg: Config, run: seq<Event>): Reason
    requires Feasible(cfg, run)
  {
    if REVOCATION in run then Revoked
    else if MeetsCap(cfg, run) then CostExceeded
    else if FirstBlame(run).Some? then FirstBlame(run).value
    else Normal
  }

  /** In every run the reason is the watcher's verdict if there is one, else that of the
      first event that blames anybody, else normal; and the watcher never gives both
      verdicts. */
  lemma {:induction false} ReasonIsFirstCause(cfg: Config, run: seq<Event>)
    requires Feasible(cfg, run)
    ensures After(cfg, run).reason == ReasonOf(cfg, run)
    ensures !(REVOCATION in run && MeetsCap(cfg, run))
  {
    if run == [] {
    } else {
      var front, last := run[..|run| - 1], run[|run| - 1];
      ReasonIsFirstCause(cfg, front);
      RunIsSafe(cfg, front);
      StepReason(cfg, After(cfg, front), last);
      BlameIsMinor(front);
      assert run == front + [last];
    }
  }

  lemma {:induction false} BlameIsMinor(run: seq<Event>)
    ensures FirstBlame(run).Some? ==> FirstBlame(run).value in {ClientAbort, UpstreamError}
  {
    if run == [] {
    } else {
      BlameIsMinor(run[..|run| - 1]);
    }
  }

  /** A session is revoked if and only if the watcher has been told that its allocation
      is not active; and from then on it is stopped, and the watcher has done. */
  lemma RevokedExactly(cfg: Config, run: seq<Event>)
    requires Feasible(cfg, run)
    ensures After(cfg, run).reason == Revoked <==> Watch(ActiveRead(Inactive)) in run
    ensures Watch(ActiveRead(Inactive)) in run ==> After(cfg, run).stop && After(cfg, run).watch.WatchDone?
  {
    ReasonIsFirstCause(cfg, run);
    BlameIsMinor(run);
    RunIsSafe(cfg, run);
  }

  /** Event k reads a committed cost that, with the running cost of that moment, is at or
      over the cap. */
  ghost predicate MetAt(cfg: Config, run: seq<Event>, k: nat) {
    && k < |run| && Feasible(cfg, run[..k])
    && OverAt(cfg, After(cfg, run[..k]).io.meter, run[k])
  }

  lemma {:induction false} MetSomewhere(cfg: Config, run: seq<Event>) returns (k: nat)
    requires Feasible(cfg, run) && MeetsCap(cfg, run)
    ensures MetAt(cfg, run, k)
  {
    var front := run[..|run| - 1];
    if OverAt(cfg, After(cfg, front).io.meter, run[|run| - 1]) {
      k := |run| - 1;
    } else {
      k := MetSomewhere(cfg, front);
      assert front[..k] == run[..k];
    }
  }

  lemma {:induction false} MetIsMet(cfg: Config, run: seq<Event>, k: nat)
    requires Feasible(cfg, run) && MetAt(cfg, run, k)
    ensures MeetsCap(cfg, run)
  {
    var front := run[..|run| - 1];
    if k < |front| {
      assert front[..k] == run[..k];
      MetIsMet(cfg, front, k);
    }
  }

  /** A session is ended by the cap if and only if some event of the run reads a committed
      cost that, with the running cost of that moment, is at or over it; then likewise. */
  lemma CostExceededExactly(cfg: Config, run: seq<Event>)
    requires Feasible(cfg, run)
    ensures After(cfg, run).reason == CostExceeded <==> exists k :: MetAt(cfg, run, k)
    ensures After(cfg, run).reason == CostExceeded ==> After(cfg, run).stop && After(cfg, run).watch.WatchDone?
  {
    ReasonIsFirstCause(cfg, run);
    BlameIsMinor(run);
    RunIsSafe(cfg, run);
    if MeetsCap(cfg, run) {
      var k := MetSomewhere(cfg, run);
    }
    if k :| MetAt(cfg, run, k) {
      MetIsMet(cfg, run, k);
    }
  }

  /* ---------- What the watcher looks at ---------- */

  function LastLook(run: seq<Event>): Option<WatchEvent> {
    if run == [] then None
    else if run[|run| - 1].Watch? then Some(run[|run| - 1].w)
    else LastLook(run[..|run| - 1])
  }

  predicate Final(w: WatchEvent) {
    w.StopWoke? || w == ActiveRead(Inactive) || w.WatchCancelled?
  }

  /** Where the watcher is, after its last event. */
  predicate WatchesAfter(cfg: Config, last: Option<WatchEvent>, watch: WatchTask) {
    match last
    case None => watch.WatchUnstarted? || watch.Sleeping?
    case Some(w) =>
      && (w.TimedOut? ==> watch.CheckingActive?)
      && (w == ActiveRead(Active) && cfg.cap.Some? ==> watch.CheckingCost?)
      && (w == ActiveRead(Raised) || (w == ActiveRead(Active) && cfg.cap.None?) || w.CostRead? ==>
            watch.Sleeping? || watch.WatchDone?)
      && (Final(w) ==> watch.WatchDone?)
  }

  lemma StepWatches(cfg: Config, s: State, e: Event, last: Option<WatchEvent>)
    requires Control(s) && Enabled(cfg, s, e) && WatchesAfter(cfg, last, s.watch)
    ensures WatchesAfter(cfg, if e.Watch? then Some(e.w) else last, Step(cfg, s, e).watch)
  {
    match e
    case Main(FirstSent) =>
    case Main(_) =>
    case _ =>
  }

  lemma {:induction false} WatcherIsWhere(cfg: Config, run: seq<Event>)
    requires Feasible(cfg, run)
    ensures WatchesAfter(cfg, LastLook(run), After(cfg, run).watch)
  {
    if run == [] {
    } else {
      var front := run[..|run| - 1];
      WatcherIsWhere(cfg, front);
      RunIsSafe(cfg, front);
      StepWatches(cfg, After(cfg, front), run[|run| - 1], LastLook(front));
    }
  }

  /** The watcher skips no look: after every interval comes the question whether the
      allocation is active, after the answer yes under a cap the question what is
      committed, and only after these another interval; nothing follows the answer no. */
  lemma NoLookSkipped(cfg: Config, run: seq<Event>, e: WatchEvent)
    requires Feasible(cfg, run + [Watch(e)]) && !e.WatchCancelled?
    ensures match LastLook(run)
      case None => e.TimedOut? || e.StopWoke?
      case Some(w) =>
        && !Final(w)
        && (w.TimedOut? ==> e.ActiveRead?)
        && (w == ActiveRead(Active) && cfg.cap.Some? ==> e.CostRead?)
        && (w == ActiveRead(Raised) || (w == ActiveRead(Active) && cfg.cap.None?) || w.CostRead? ==>
              e.TimedOut? || e.StopWoke?)
  {
    assert (run + [Watch(e)])[..|run|] == run;
    WatcherIsWhere(cfg, run);
  }

  /** The world is free to do anything at any wait: no client, upstream, database or
      timer is ruled out by the model. */
  lemma WorldIsFree(
      cfg: Config, s: State, frame: Frame, text: string, answer: Answer, committed: Option<real>, got: bool)
    requires !s.cancelled
    ensures s.up.UpReceiving? ==> Enabled(cfg, s, Up(UpReceived(frame))) && Enabled(cfg, s, Up(ClientGone))
    ensures s.up.UpSending? ==> Enabled(cfg, s, Up(UpSent)) && Enabled(cfg, s, Up(UpSendRaised(got)))
    ensures s.down.DownReceiving? ==> Enabled(cfg, s, Down(DownReceived(text))) && Enabled(cfg, s, Down(UpstreamGone))
    ensures s.down.DownSending? ==> Enabled(cfg, s, Down(DownSent)) && Enabled(cfg, s, Down(DownSendRaised(got)))
    ensures s.watch.Sleeping? ==> Enabled(cfg, s, Watch(TimedOut)) && (s.stop ==> Enabled(cfg, s, Watch(StopWoke)))
    ensures s.watch.CheckingActive? ==> Enabled(cfg, s, Watch(ActiveRead(answer)))
    ensures s.watch.CheckingCost? && cfg.cap.Some? ==> Enabled(cfg, s, Watch(CostRead(committed)))
    ensures s.main.Waiting? && s.stop ==> Enabled(cfg, s, Main(StopSeen))
  {
  }

  /** Nor is the handler bound at any of its waits, ... */
  lemma HandlerIsFree(cfg: Config, s: State, frame: Frame, flag: bool, price: Option<Price>)
    ensures s.main.Accepting? ==> Enabled(cfg, s, Main(Accepted(flag))) && Enabled(cfg, s, Main(AcceptRaised))
    ensures s.main.AwaitingFirst? ==>
      Enabled(cfg, s, Main(FirstReceived(frame, flag))) && Enabled(cfg, s, Main(FirstReceiveRaised))
    ensures s.main.Connecting? ==> Enabled(cfg, s, Main(Connected)) && Enabled(cfg, s, Main(ConnectRaised))
    ensures s.main.SendingFirst? ==> Enabled(cfg, s, Main(FirstSent)) && Enabled(cfg, s, Main(FirstSendRaised(flag)))
    ensures s.main.Billing? ==> Enabled(cfg, s, Main(Priced(price))) && Enabled(cfg, s, Main(BillRaised))
  {
  }

  /** ... but for the preflight under a cap, which passes exactly the sessions below it. */
  lemma PreflightIsFree(cfg: Config, s: State, committed: Option<real>)
    requires s.main.InPreflight?
    ensures Enabled(cfg, s, Main(PreflightRaised)) && Enabled(cfg, s, Main(PreflightRejected))
    ensures Enabled(cfg, s, Main(NotRealtime)) && Enabled(cfg, s, Main(Interrupted))
    ensures Enabled(cfg, s, Main(PreflightPassed(committed))) <==>
      if cfg.cap.None? then committed.None? else committed.Some? && committed.value < cfg.cap.value
  {
  }

  /* ---------- Codes, outcomes and messages ---------- */

  /** The code of section 7.4.1 of RFC 6455 that each event closes the client with. */
  lemma ClosesWith(cfg: Config, run: seq<Event>, e: Event)
    requires Feasible(cfg, run + [e])
    ensures Feasible(cfg, run)
    ensures var s := After(cfg, run);
      After(cfg, run + [e]).ledger.closeCodes == s.ledger.closeCodes +
        match e
        case Main(Accepted(hasToken)) => if hasToken then [] else [1008]
        case Main(FirstReceived(_, hasModel)) => if hasModel then [] else [1008]
        case Main(FirstReceiveRaised) => [1000]
        case Main(PreflightRejected) => [1008]
        case Main(NotRealtime) => [1003]
        case Main(ConnectRaised) => [1011]
        case Main(UpstreamClosed) =>
          if s.reason in {Revoked, CostExceeded} then [1008] else if s.reason == UpstreamError then [1011] else [1000]
        case _ => []
  {
    assert (run + [e])[..|run|] == run;
    var codes := After(cfg, run).ledger.closeCodes;
    assert codes + [] == codes;
    match e
    case Main(UpstreamClosed) =>
    case Main(_) =>
    case _ =>
  }

  /** What the record of an uninterrupted session says of its end. */
  lemma BillSaysWhy(cfg: Config, run: seq<Event>)
    requires Feasible(cfg, run) && After(cfg, run).ledger.record.Some? && !After(cfg, run).life.interrupted
    ensures var reason, record := ReasonOf(cfg, run), After(cfg, run).ledger.record.value;
      && (record.outcome == OutcomeUpstreamError <==> reason == UpstreamError)
      && record.message ==
           (if reason == Revoked then Some("allocation revoked mid-connection")
            else if reason == CostExceeded then Some("monthly cost cap reached mid-connection")
            else None)
  {
    ReasonIsFirstCause(cfg, run);
    BillCountsEveryAppend(cfg, run);
  }

  /** A client whose session ran to its end was closed once, with the code of the reason
      that the session had by then. */
  lemma ReturnsWithCode(cfg: Config, run: seq<Event>) returns (k: nat)
    requires Feasible(cfg, run) && After(cfg, run).life.returned
    ensures k < |run| && run[k] == Main(UpstreamClosed) && Feasible(cfg, run[..k])
    ensures After(cfg, run).ledger.closeCodes ==
      match ReasonOf(cfg, run[..k])
      case Revoked => [1008]
      case CostExceeded => [1008]
      case UpstreamError => [1011]
      case ClientAbort => [1000]
      case Normal => []
  {
    k := RelayReturnsWithReason(cfg, run);
    ReasonIsFirstCause(cfg, run[..k]);
  }
}
