/** The relay of src/ai_api/proxy/realtime.py: two forwarders, a revocation and cost
    watcher and the task that drives the connection share a close reason, a meter and
    a stop flag. Every await is a point where any task may run next. */
module Relay {
  import opened Common
  import opened Metering

  /* ---------- Close reasons ---------- */

  datatype Reason = Normal | ClientAbort | UpstreamError | Revoked | CostExceeded

  /** normal < client_abort, upstream_error < revoked, cost_exceeded */
  function Rank(r: Reason): nat {
    match r
    case Normal => 0
    case ClientAbort => 1
    case UpstreamError => 1
    case Revoked => 2
    case CostExceeded => 2
  }

  const WS_NORMAL := 1000
  const WS_UNSUPPORTED := 1003
  const WS_POLICY_VIOLATION := 1008
  const WS_INTERNAL := 1011

  function CloseCodeFor(r: Reason): int {
    match r
    case Revoked => WS_POLICY_VIOLATION
    case CostExceeded => WS_POLICY_VIOLATION
    case UpstreamError => WS_INTERNAL
    case _ => WS_NORMAL
  }

  datatype Outcome = OutcomeSuccess | OutcomeUpstreamError

  function OutcomeForClose(r: Reason): Outcome {
    if r == UpstreamError then OutcomeUpstreamError else OutcomeSuccess
  }

  function MessageForClose(r: Reason): Option<string> {
    match r
    case Revoked => Some("allocation revoked mid-connection")
    case CostExceeded => Some("monthly cost cap reached mid-connection")
    case _ => None
  }

  /** if sess.close_reason == "normal": sess.close_reason = why */
  function Blamed(r: Reason, why: Reason): Reason {
    if r == Normal then why else r
  }

  /* ---------- The session object and the two loops, each run by itself ---------- */

  /** One frame that arrives, and whether passing it on succeeds. */
  datatype Turn = Turn(frame: Frame, sendOk: bool)

  /** The first turn whose send fails, or |turns|. */
  function FirstFailure(turns: seq<Turn>): (k: nat)
    ensures k <= |turns|
    ensures forall i | 0 <= i < k :: turns[i].sendOk
    ensures k < |turns| ==> !turns[k].sendOk
  {
    if turns == [] || !turns[0].sendOk then 0 else 1 + FirstFailure(turns[1..])
  }

  function Frames(turns: seq<Turn>): seq<Frame> {
    if turns == [] then [] else Frames(turns[..|turns| - 1]) + [turns[|turns| - 1].frame]
  }

  lemma FramesOneMore(turns: seq<Turn>, k: nat)
    requires k < |turns|
    ensures Frames(turns[..k + 1]) == Frames(turns[..k]) + [turns[k].frame]
  {
    assert turns[..k + 1][..k] == turns[..k];
  }

  class RealtimeSession {
    var audioBytes: nat
    var sampleRate: int
    var bytesPerSample: int
    var channels: int
    var closeReason: Reason

    constructor ()
      ensures Current() == EMPTY && closeReason == Normal
    {
      audioBytes := 0;
      sampleRate, bytesPerSample, channels := 24000, 2, 1;
      closeReason := Normal;
    }

    function Current(): Meter
      reads this
    {
      Meter(audioBytes, Geometry(sampleRate, bytesPerSample, channels))
    }

    method ApplyFormat(s: Session)
      modifies this
      ensures Current() == old(Current()).(geometry := Formatted(old(Current()).geometry, FormatIn(s)))
      ensures closeReason == old(closeReason)
    {
      if s.NoSession? {
        return;
      }
      var slot := NoObject;
      if s.audio.Audio? {
        if s.audio.input.Input? && !s.audio.input.format.NoObject? {
          slot := s.audio.input.format;
        } else if !s.audio.format.NoObject? {
          slot := s.audio.format;
        }
      }
      if !slot.Object? && !s.inputAudioFormat.NoObject? {
        slot := s.inputAudioFormat;
      }
      var f := if slot.Object? then slot.format else NO_FORMAT;
      var rate := if f.rate == Falsy || f.rate == Number(0) then f.sampleRate else f.rate;
      if rate.Number? && rate.n > 0 {
        sampleRate := rate.n;
      }
      if f.channels.Number? && f.channels.n > 0 {
        channels := f.channels.n;
      }
      if f.bytesPerSample.Number? && f.bytesPerSample.n > 0 {
        bytesPerSample := f.bytesPerSample.n;
      }
    }

    method MeterClientEvent(f: Frame)
      modifies this
      ensures Current() == Metered(old(Current()), f) && closeReason == old(closeReason)
    {
      match f.event {
        case Append(n) => audioBytes := audioBytes + n;
        case Update(session) => ApplyFormat(session);
        case Unmetered =>
      }
    }

    /** The client side of the relay, until a send fails or the client is gone: what
        is metered is what arrived, what was sent lacks only a frame that failed. */
    method ClientToUpstream(turns: seq<Turn>) returns (sent: seq<Frame>)
      modifies this
      ensures var k := FirstFailure(turns);
        && sent == Frames(turns[..k])
        && Current() == MeteredFrom(old(Current()), Frames(turns[..if k < |turns| then k + 1 else k]))
        && closeReason == Blamed(old(closeReason), if k < |turns| then UpstreamError else ClientAbort)
    {
      sent := [];
      var k := 0;
      while k < |turns|
        invariant k <= FirstFailure(turns)
        invariant sent == Frames(turns[..k])
        invariant Current() == MeteredFrom(old(Current()), sent)
        invariant closeReason == old(closeReason)
      {
        MeterClientEvent(turns[k].frame);
        MeteredOneMore(old(Current()), sent, turns[k].frame);
        FramesOneMore(turns, k);
        if !turns[k].sendOk {
          if closeReason == Normal {
            closeReason := UpstreamError;
          }
          return;
        }
        sent := sent + [turns[k].frame];
        k := k + 1;
      }
      if closeReason == Normal {
        closeReason := ClientAbort;
      }
    }
  }

  /* ---------- The state all tasks share ---------- */

  datatype UpTask = UpUnstarted | UpReceiving | UpSending(frame: Frame) | UpDone

  datatype DownTask = DownUnstarted | DownReceiving | DownSending(text: string) | DownDone

  datatype WatchTask = WatchUnstarted | Sleeping | CheckingActive | CheckingCost | WatchDone

  /** Where handle_realtime, and run_relay inside it, waits. */
  datatype MainTask =
    | Accepting | AwaitingFirst | InPreflight(first: Frame) | Rejecting
    | Connecting | ConnectFailed | SendingFirst
    | Waiting | ClosingUpstream | ClosingClient | Gathering
    | FinalClosing | Billing(outcome: Outcome) | Ended

  /** The row _bill_session hands over: what the meter and the price row said then. */
  datatype CallRecord = CallRecord(meter: Meter, price: Option<Price>, outcome: Outcome, message: Option<string>) {
    /** The cost column. */
    function Cost(): Option<real> {
      BilledCost(meter, price)
    }

    /** What the record adds to the month's committed cost, which sums successes only. */
    function Committed(): real {
      if outcome.OutcomeSuccess? then Amount(Cost()) else 0.0
    }
  }

  /** A look at the committed cost that left the connection up: by preflight, before any
      audio, or by a tick of the watcher. */
  datatype Tick = Tick(meter: Meter, committed: real)

  /** Cap and price captured at connect. */
  datatype Config = Config(cap: Option<real>, price: Option<Price>)

  /** What went through the connection. */
  datatype Traffic = Traffic(
    meter: Meter,
    metered: seq<Frame>,        // client frames that reached the meter, in order
    sent: seq<Frame>,           // frames the upstream got
    heard: seq<string>,         // texts from the upstream
    told: seq<string>)          // texts the client got

  /** What the connection left behind. */
  datatype Ledger = Ledger(
    closeCodes: seq<int>,       // arguments of client.close
    closedFor: Option<Reason>,  // the reason run_relay closed the client with
    attempts: nat,              // billing attempts
    record: Option<CallRecord>)

  /** How far the handler came. */
  datatype Life = Life(
    reached: bool,              // upstream connect was reached
    returned: bool,             // run_relay returned
    interrupted: bool,          // the handler's own task was cancelled
    lost: bool)                 // ... at an await that no billing follows

  datatype State = State(
    main: MainTask, up: UpTask, down: DownTask, watch: WatchTask,
    reason: Reason, stop: bool,
    cancelled: bool,            // run_relay has cancelled its tasks
    io: Traffic, ledger: Ledger, life: Life, lastTick: Option<Tick>)

  const INIT := State(
    Accepting, UpUnstarted, DownUnstarted, WatchUnstarted, Normal, false, false,
    Traffic(EMPTY, [], [], [], []), Ledger([], None, 0, None), Life(false, false, false, false), None)

  /* ---------- The forwarders ---------- */

  /** `delivered`: whether a send that fails or is cancelled got through after all. */
  datatype UpEvent =
    | UpReceived(frame: Frame) | ClientGone | UpSent | UpSendRaised(delivered: bool) | UpCancelled(delivered: bool)

  predicate UpEnabled(s: State, e: UpEvent) {
    match e
    case UpReceived(_) => s.up.UpReceiving? && !s.cancelled
    case ClientGone => s.up.UpReceiving? && !s.cancelled
    case UpSent => s.up.UpSending? && !s.cancelled
    case UpSendRaised(_) => s.up.UpSending? && !s.cancelled
    case UpCancelled(_) => (s.up.UpReceiving? || s.up.UpSending?) && s.cancelled
  }

  /** _meter_client_event */
  function Heard(io: Traffic, f: Frame): Traffic {
    io.(meter := Metered(io.meter, f), metered := io.metered + [f])
  }

  function Sent(io: Traffic, frames: seq<Frame>): Traffic {
    io.(sent := io.sent + frames)
  }

  function Told(io: Traffic, texts: seq<string>): Traffic {
    io.(told := io.told + texts)
  }

  function StepUp(s: State, e: UpEvent): State
    requires UpEnabled(s, e)
  {
    match e
    case UpReceived(f) =>
      s.(io := Heard(s.io, f), up := UpSending(f))
    case ClientGone =>
      s.(reason := Blamed(s.reason, ClientAbort), stop := true, up := UpDone)
    case UpSent =>
      s.(io := Sent(s.io, [s.up.frame]), up := UpReceiving)
    case UpSendRaised(delivered) =>
      s.(io := Sent(s.io, if delivered then [s.up.frame] else []),
         reason := Blamed(s.reason, UpstreamError), stop := true, up := UpDone)
    case UpCancelled(delivered) =>
      s.(io := Sent(s.io, if delivered && s.up.UpSending? then [s.up.frame] else []),
         stop := true, up := UpDone)
  }

  datatype DownEvent =
    | DownReceived(text: string) | UpstreamGone | DownSent
    | DownSendRaised(delivered: bool) | DownCancelled(delivered: bool)

  predicate DownEnabled(s: State, e: DownEvent) {
    match e
    case DownReceived(_) => s.down.DownReceiving? && !s.cancelled
    case UpstreamGone => s.down.DownReceiving? && !s.cancelled
    case DownSent => s.down.DownSending? && !s.cancelled
    case DownSendRaised(_) => s.down.DownSending? && !s.cancelled
    case DownCancelled(_) => (s.down.DownReceiving? || s.down.DownSending?) && s.cancelled
  }

  function StepDown(s: State, e: DownEvent): State
    requires DownEnabled(s, e)
  {
    match e
    case DownReceived(text) =>
      s.(io := s.io.(heard := s.io.heard + [text]), down := DownSending(text))
    case UpstreamGone =>
      s.(reason := Blamed(s.reason, UpstreamError), stop := true, down := DownDone)
    case DownSent =>
      s.(io := Told(s.io, [s.down.text]), down := DownReceiving)
    case DownSendRaised(delivered) =>
      s.(io := Told(s.io, if delivered then [s.down.text] else []),
         reason := Blamed(s.reason, ClientAbort), stop := true, down := DownDone)
    case DownCancelled(delivered) =>
      s.(io := Told(s.io, if delivered && s.down.DownSending? then [s.down.text] else []),
         stop := true, down := DownDone)
  }

  /* ---------- The watcher ---------- */

  datatype Answer = Active | Inactive | Raised

  /** CostRead(None): the query for the committed cost failed. */
  datatype WatchEvent =
    | TimedOut | StopWoke | ActiveRead(answer: Answer) | CostRead(committed: Option<real>) | WatchCancelled

  predicate WatchEnabled(s: State, e: WatchEvent, capped: bool) {
    match e
    case TimedOut => s.watch.Sleeping? && !s.cancelled
    case StopWoke => s.watch.Sleeping? && !s.cancelled && s.stop
    case ActiveRead(_) => s.watch.CheckingActive? && !s.cancelled
    case CostRead(_) => s.watch.CheckingCost? && !s.cancelled && capped
    case WatchCancelled => s.cancelled && !s.watch.WatchDone? && !s.watch.WatchUnstarted?
  }

  /** while not stop.is_set() */
  function WatchLoop(s: State): State {
    s.(watch := if s.stop then WatchDone else Sleeping)
  }

  /** committed + running cost >= cap */
  predicate OverCap(cfg: Config, m: Meter, committed: real) {
    cfg.cap.Some? && committed + RunningCost(m, cfg.price) >= cfg.cap.value
  }

  predicate FindsOverCap(cfg: Config, s: State, e: WatchEvent) {
    e.CostRead? && e.committed.Some? && OverCap(cfg, s.io.meter, e.committed.value)
  }

  /** `over`: the cost read puts the connection at or over its cap. */
  function StepWatch(s: State, e: WatchEvent, capped: bool, over: bool): State
    requires WatchEnabled(s, e, capped)
  {
    match e
    case TimedOut => s.(watch := CheckingActive)
    case StopWoke => s.(watch := WatchDone)
    case ActiveRead(Raised) => WatchLoop(s)
    case ActiveRead(Inactive) => s.(reason := Revoked, stop := true, watch := WatchDone)
    case ActiveRead(Active) => if !capped then WatchLoop(s) else s.(watch := CheckingCost)
    case CostRead(None) => WatchLoop(s)
    case CostRead(Some(committed)) =>
      if over
      then s.(reason := CostExceeded, stop := true, watch := WatchDone)
      else WatchLoop(s).(lastTick := Some(Tick(s.io.meter, committed)))
    case WatchCancelled => s.(watch := WatchDone)
  }

  /* ---------- The handler ---------- */

  datatype MainEvent =
    | Accepted(hasToken: bool) | AcceptRaised
    | FirstReceived(frame: Frame, hasModel: bool) | FirstReceiveRaised
    | PreflightRaised | PreflightRejected | NotRealtime | PreflightPassed(committed: Option<real>)
    | RejectionClosed
    | Connected | ConnectRaised | FailureClosed
    | FirstSent | FirstSendRaised(delivered: bool)
    | StopSeen | UpstreamClosed | ClientClosed | Gathered
    | FinalClosed | Priced(price: Option<Price>) | BillRaised
    | Interrupted

  predicate MainEnabled(s: State, e: MainEvent) {
    match e
    case Accepted(_) => s.main.Accepting?
    case AcceptRaised => s.main.Accepting?
    case FirstReceived(_, _) => s.main.AwaitingFirst?
    case FirstReceiveRaised => s.main.AwaitingFirst?
    case PreflightRaised => s.main.InPreflight?
    case PreflightRejected => s.main.InPreflight?
    case NotRealtime => s.main.InPreflight?
    case PreflightPassed(_) => s.main.InPreflight?
    case RejectionClosed => s.main.Rejecting?
    case Connected => s.main.Connecting?
    case ConnectRaised => s.main.Connecting?
    case FailureClosed => s.main.ConnectFailed?
    case FirstSent => s.main.SendingFirst?
    case FirstSendRaised(_) => s.main.SendingFirst?
    case StopSeen => s.main.Waiting? && s.stop
    case UpstreamClosed => s.main.ClosingUpstream?
    case ClientClosed => s.main.ClosingClient?
    case Gathered => s.main.Gathering? && AllDone(s.up, s.down, s.watch)
    case FinalClosed => s.main.FinalClosing?
    case Priced(_) => s.main.Billing?
    case BillRaised => s.main.Billing?
    case Interrupted => !s.main.Ended?
  }

  /** _safe_close_client: the call, then the wait for it. */
  function Closing(s: State, code: int, next: MainTask): State {
    s.(ledger := s.ledger.(closeCodes := s.ledger.closeCodes + [code]), main := next)
  }

  /** _bill_session fixes the outcome as it starts. */
  function StartBilling(s: State): State {
    s.(main := Billing(OutcomeForClose(s.reason)), ledger := s.ledger.(attempts := s.ledger.attempts + 1))
  }

  function RecordOf(s: State, outcome: Outcome, price: Option<Price>): CallRecord {
    CallRecord(s.io.meter, price, outcome, MessageForClose(s.reason))
  }

  /** A cancellation of the handler's own task, at whatever it awaits: inside the try
      block the finally clause still runs, elsewhere that is the end. */
  function Interrupt(s: State): State {
    if InTry(s.main) then s.(main := FinalClosing, life := s.life.(interrupted := true))
    else s.(main := Ended, life := s.life.(interrupted := true, lost := Unbilled(s.main)))
  }

  predicate InTry(m: MainTask) {
    m.SendingFirst? || InRelay(m)
  }

  predicate InRelay(m: MainTask) {
    m.Waiting? || m.ClosingUpstream? || m.ClosingClient? || m.Gathering?
  }

  /** A billing is due and has not begun, and no finally clause is ahead. */
  predicate Unbilled(m: MainTask) {
    m.Connecting? || m.ConnectFailed? || m.FinalClosing?
  }

  function StepMain(s: State, e: MainEvent): State
    requires MainEnabled(s, e)
  {
    match e
    case Accepted(hasToken) =>
      if hasToken then s.(main := AwaitingFirst) else Closing(s, WS_POLICY_VIOLATION, Rejecting)
    case AcceptRaised => s.(main := Ended)
    case FirstReceived(f, hasModel) =>
      if hasModel then s.(main := InPreflight(f)) else Closing(s, WS_POLICY_VIOLATION, Rejecting)
    case FirstReceiveRaised => Closing(s, WS_NORMAL, Rejecting)
    case PreflightRaised => s.(main := Ended)
    case PreflightRejected => Closing(s, WS_POLICY_VIOLATION, Rejecting)
    case NotRealtime => Closing(s, WS_UNSUPPORTED, Rejecting)
    case PreflightPassed(committed) =>
      s.(io := Heard(s.io, s.main.first), main := Connecting, life := s.life.(reached := true),
         lastTick := if committed.Some? then Some(Tick(EMPTY, committed.value)) else None)
    case RejectionClosed => s.(main := Ended)
    case Connected => s.(main := SendingFirst)
    case ConnectRaised => Closing(s.(reason := UpstreamError), WS_INTERNAL, ConnectFailed)
    case FailureClosed => StartBilling(s)
    case FirstSent =>
      s.(io := Sent(s.io, s.io.metered), main := Waiting, up := UpReceiving, down := DownReceiving, watch := Sleeping)
    case FirstSendRaised(delivered) =>
      s.(io := Sent(s.io, if delivered then s.io.metered else []), reason := UpstreamError, main := FinalClosing)
    case StopSeen => s.(main := ClosingUpstream)
    case UpstreamClosed => ClosedByRelay(Closing(s, CloseCodeFor(s.reason), ClosingClient))
    case ClientClosed => s.(main := Gathering, cancelled := true)
    case Gathered => s.(main := FinalClosing, life := s.life.(returned := true))
    case FinalClosed => StartBilling(s)
    case Priced(price) => s.(main := Ended, ledger := s.ledger.(record := Some(RecordOf(s, s.main.outcome, price))))
    case BillRaised => s.(main := Ended)
    case Interrupted => Interrupt(s)
  }

  function ClosedByRelay(s: State): State {
    s.(ledger := s.ledger.(closedFor := Some(s.reason)))
  }

  /* ---------- Runs ---------- */

  datatype Event = Up(u: UpEvent) | Down(d: DownEvent) | Watch(w: WatchEvent) | Main(m: MainEvent)

  /** Preflight reads the committed cost if there is a cap, and lets only those pass that
      are below it. */
  predicate Admits(cfg: Config, m: MainEvent) {
    m.PreflightPassed? ==>
      && (m.committed.Some? <==> cfg.cap.Some?)
      && (cfg.cap.Some? ==> m.committed.value < cfg.cap.value)
  }

  predicate Enabled(cfg: Config, s: State, e: Event) {
    match e
    case Up(u) => UpEnabled(s, u)
    case Down(d) => DownEnabled(s, d)
    case Watch(w) => WatchEnabled(s, w, cfg.cap.Some?)
    case Main(m) => MainEnabled(s, m) && Admits(cfg, m)
  }

  function Step(cfg: Config, s: State, e: Event): State
    requires Enabled(cfg, s, e)
  {
    match e
    case Up(u) => StepUp(s, u)
    case Down(d) => StepDown(s, d)
    case Watch(w) => StepWatch(s, w, cfg.cap.Some?, FindsOverCap(cfg, s, w))
    case Main(m) => StepMain(s, m)
  }

  /** A schedule the event loop can follow, with whatever the client, the upstream,
      the database and the timers do. */
  predicate Feasible(cfg: Config, run: seq<Event>)
    decreases |run|, 0
  {
    run == [] ||
    var front := run[..|run| - 1];
    Feasible(cfg, front) && Enabled(cfg, After(cfg, front), run[|run| - 1])
  }

  function After(cfg: Config, run: seq<Event>): State
    requires Feasible(cfg, run)
    decreases |run|, 1
  {
    if run == [] then INIT else Step(cfg, After(cfg, run[..|run| - 1]), run[|run| - 1])
  }

  /* ---------- What every step keeps ---------- */

  predicate Early(m: MainTask) {
    m.Accepting? || m.AwaitingFirst? || m.InPreflight? || m.Rejecting?
  }

  predicate Unstarted(up: UpTask, down: DownTask, watch: WatchTask) {
    up.UpUnstarted? && down.DownUnstarted? && watch.WatchUnstarted?
  }

  predicate Started(up: UpTask, down: DownTask, watch: WatchTask) {
    !up.UpUnstarted? && !down.DownUnstarted? && !watch.WatchUnstarted?
  }

  predicate AllDone(up: UpTask, down: DownTask, watch: WatchTask) {
    up.UpDone? && down.DownDone? && watch.WatchDone?
  }

  /** Which parts of the program can be live together. */
  predicate Phases(main: MainTask, up: UpTask, down: DownTask, watch: WatchTask, cancelled: bool, life: Life) {
    && (Unstarted(up, down, watch) || Started(up, down, watch))
    && (Early(main) ==> !life.reached)
    && (!Early(main) && !main.Ended? ==> life.reached)
    && (!life.reached || main.Connecting? || main.ConnectFailed? || main.SendingFirst? ==> Unstarted(up, down, watch))
    && (InRelay(main) ==> Started(up, down, watch))
    && (life.lost ==> life.interrupted && main.Ended?)
    && (life.interrupted ==> main.FinalClosing? || main.Billing? || main.Ended?)
    && (cancelled ==>
          Started(up, down, watch) && (main.Gathering? || main.FinalClosing? || main.Billing? || main.Ended?))
    && (main.Gathering? ==> cancelled)
  }

  /** A stop always has a reason, a task never ends without a stop, and the watcher's
      reasons are its last word. */
  predicate Stops(
      main: MainTask, up: UpTask, down: DownTask, watch: WatchTask, reason: Reason, stop: bool, cancelled: bool,
      life: Life)
  {
    && (stop ==> reason != Normal)
    && (Rank(reason) == 2 ==> watch.WatchDone?)
    && (up.UpDone? || down.DownDone? || watch.WatchDone? || cancelled ==> stop)
    && (InRelay(main) && !main.Waiting? ==> stop)
    && (life.returned ==> AllDone(up, down, watch))
    && (main.Connecting? || main.SendingFirst? || Early(main) ==> reason == Normal)
  }

  /** Forwarded is received, less at most the frame in flight. */
  predicate Forwards(up: UpTask, down: DownTask, io: Traffic) {
    && (match up
        case UpUnstarted => |io.metered| <= 1 && (io.sent == [] || io.sent == io.metered)
        case UpReceiving => io.sent == io.metered
        case UpSending(f) => io.metered == io.sent + [f]
        case UpDone => LacksAtMostOne(io.sent, io.metered))
    && (match down
        case DownUnstarted => io.told == io.heard == []
        case DownReceiving => io.told == io.heard
        case DownSending(t) => io.heard == io.told + [t]
        case DownDone => LacksAtMostOne(io.told, io.heard))
  }

  predicate LacksAtMostOne<T(==)>(a: seq<T>, b: seq<T>) {
    a == b || (b != [] && a == b[..|b| - 1])
  }

  /** Before the forwarders start only the first frame can have moved. */
  predicate Begins(main: MainTask, io: Traffic, life: Life) {
    && (!life.reached ==> io.metered == [])
    && (!life.reached || main.Connecting? || main.ConnectFailed? || main.SendingFirst? ==> io.sent == [])
    && (life.reached ==> io.metered != [])
  }

  /** Nothing runs beside the billing of a session whose handler was not interrupted. */
  predicate Quiet(main: MainTask, up: UpTask, down: DownTask, watch: WatchTask, life: Life) {
    !life.interrupted && (main.FinalClosing? || main.Billing? || main.Ended?) ==>
      Unstarted(up, down, watch) || AllDone(up, down, watch)
  }

  predicate Bills(main: MainTask, ledger: Ledger, life: Life) {
    && ledger.attempts == (if main.Billing? || (main.Ended? && life.reached && !life.lost) then 1 else 0)
    && (ledger.record.Some? ==> main.Ended? && ledger.attempts == 1)
  }

  /** The record shows the meter and the reason; those of the end, unless the handler
      was interrupted. */
  predicate Records(main: MainTask, reason: Reason, meter: Meter, ledger: Ledger, life: Life) {
    && (main.Billing? && !life.interrupted ==> main.outcome == OutcomeForClose(reason))
    && (ledger.record.Some? ==> ledger.record.value.meter.bytes <= meter.bytes)
    && (ledger.record.Some? && !life.interrupted ==>
          && ledger.record.value.meter == meter
          && ledger.record.value.outcome == OutcomeForClose(reason)
          && ledger.record.value.message == MessageForClose(reason))
  }

  predicate Meters(io: Traffic) {
    io.meter == MeteredFrom(EMPTY, io.metered)
  }

  predicate StillOpen(m: MainTask) {
    || m.Accepting? || m.AwaitingFirst? || m.InPreflight? || m.Connecting? || m.SendingFirst?
    || m.Waiting? || m.ClosingUpstream?
  }

  /** At most one close, and run_relay's with a reason the session had by then. */
  predicate Closes(main: MainTask, reason: Reason, ledger: Ledger, life: Life) {
    && |ledger.closeCodes| <= 1
    && (StillOpen(main) ==> ledger.closeCodes == [])
    && (forall c | c in ledger.closeCodes :: c in {WS_NORMAL, WS_UNSUPPORTED, WS_POLICY_VIOLATION, WS_INTERNAL})
    && (main.ClosingClient? || main.Gathering? || life.returned ==> ledger.closedFor.Some?)
    && (ledger.closedFor.Some? ==>
          && ledger.closedFor.value != Normal
          && ledger.closeCodes == [CloseCodeFor(ledger.closedFor.value)]
          && (ledger.closedFor.value == reason || Rank(ledger.closedFor.value) < Rank(reason)))
  }

  predicate Ticks(cfg: Config, lastTick: Option<Tick>, meter: Meter) {
    lastTick.Some? ==>
      && cfg.cap.Some?
      && lastTick.value.meter.bytes <= meter.bytes
      && !OverCap(cfg, lastTick.value.meter, lastTick.value.committed)
  }

  /** Below a cap no session is without such a look. */
  predicate Watched(cfg: Config, lastTick: Option<Tick>, life: Life) {
    life.reached && cfg.cap.Some? ==> lastTick.Some?
  }

  predicate Control(s: State) {
    && Phases(s.main, s.up, s.down, s.watch, s.cancelled, s.life)
    && Stops(s.main, s.up, s.down, s.watch, s.reason, s.stop, s.cancelled, s.life)
    && Quiet(s.main, s.up, s.down, s.watch, s.life)
  }

  predicate Flow(s: State) {
    && Forwards(s.up, s.down, s.io)
    && Begins(s.main, s.io, s.life)
    && Meters(s.io)
  }

  predicate Accounts(s: State) {
    && Bills(s.main, s.ledger, s.life)
    && Records(s.main, s.reason, s.io.meter, s.ledger, s.life)
    && Closes(s.main, s.reason, s.ledger, s.life)
  }

  predicate Safe(s: State) {
    Control(s) && Flow(s) && Accounts(s)
  }

  lemma UpKeeps(s: State, e: UpEvent)
    requires Safe(s) && UpEnabled(s, e)
    ensures Safe(StepUp(s, e))
  {
    if e.UpReceived? {
      MeteredOneMore(EMPTY, s.io.metered, e.frame);
    }
  }

  lemma DownKeeps(s: State, e: DownEvent)
    requires Safe(s) && DownEnabled(s, e)
    ensures Safe(StepDown(s, e))
  {
  }

  lemma WatchKeepsControl(s: State, e: WatchEvent, capped: bool, over: bool)
    requires Control(s) && WatchEnabled(s, e, capped)
    ensures Control(StepWatch(s, e, capped, over))
  {
  }

  lemma WatchKeepsFlow(s: State, e: WatchEvent, capped: bool, over: bool)
    requires Flow(s) && WatchEnabled(s, e, capped)
    ensures Flow(StepWatch(s, e, capped, over))
  {
  }

  lemma WatchKeepsAccounts(s: State, e: WatchEvent, capped: bool, over: bool)
    requires Control(s) && Accounts(s) && WatchEnabled(s, e, capped)
    ensures Accounts(StepWatch(s, e, capped, over))
  {
  }

  lemma MainKeepsPhases(s: State, e: MainEvent)
    requires Phases(s.main, s.up, s.down, s.watch, s.cancelled, s.life) && MainEnabled(s, e)
    ensures var s' := StepMain(s, e);
      Phases(s'.main, s'.up, s'.down, s'.watch, s'.cancelled, s'.life)
  {
    match e
    case PreflightPassed(_) =>
    case ConnectRaised =>
    case FirstSent =>
    case FirstSendRaised(_) =>
    case Gathered =>
    case FinalClosed =>
    case FailureClosed =>
    case Priced(_) =>
    case Interrupted =>
    case _ =>
  }

  lemma MainKeepsStops(s: State, e: MainEvent)
    requires Control(s) && MainEnabled(s, e)
    ensures var s' := StepMain(s, e);
      Stops(s'.main, s'.up, s'.down, s'.watch, s'.reason, s'.stop, s'.cancelled, s'.life)
  {
    match e
    case PreflightPassed(_) =>
    case ConnectRaised =>
    case FirstSent =>
    case FirstSendRaised(_) =>
    case Gathered =>
    case FinalClosed =>
    case FailureClosed =>
    case Priced(_) =>
    case Interrupted =>
    case _ =>
  }

  lemma MainKeepsQuiet(s: State, e: MainEvent)
    requires Control(s) && MainEnabled(s, e)
    ensures var s' := StepMain(s, e);
      Quiet(s'.main, s'.up, s'.down, s'.watch, s'.life)
  {
  }

  lemma MainKeepsForwards(s: State, e: MainEvent)
    requires Phases(s.main, s.up, s.down, s.watch, s.cancelled, s.life) && MainEnabled(s, e)
    requires Forwards(s.up, s.down, s.io) && Begins(s.main, s.io, s.life)
    ensures var s' := StepMain(s, e);
      Forwards(s'.up, s'.down, s'.io)
  {
    match e
    case PreflightPassed(_) =>
    case ConnectRaised =>
    case FirstSent =>
    case FirstSendRaised(_) =>
    case Gathered =>
    case FinalClosed =>
    case FailureClosed =>
    case Priced(_) =>
    case Interrupted =>
    case _ =>
  }

  lemma MainKeepsBegins(s: State, e: MainEvent)
    requires Phases(s.main, s.up, s.down, s.watch, s.cancelled, s.life) && MainEnabled(s, e)
    requires Begins(s.main, s.io, s.life)
    ensures var s' := StepMain(s, e);
      Begins(s'.main, s'.io, s'.life)
  {
    match e
    case PreflightPassed(_) =>
    case ConnectRaised =>
    case FirstSent =>
    case FirstSendRaised(_) =>
    case Gathered =>
    case FinalClosed =>
    case FailureClosed =>
    case Priced(_) =>
    case Interrupted =>
    case _ =>
  }

  lemma MainKeepsMeter(s: State, e: MainEvent)
    requires Meters(s.io) && MainEnabled(s, e)
    ensures Meters(StepMain(s, e).io)
  {
    if e.PreflightPassed? {
      MeteredOneMore(EMPTY, s.io.metered, s.main.first);
    }
  }

  lemma MainKeepsBills(s: State, e: MainEvent)
    requires Control(s) && Bills(s.main, s.ledger, s.life) && MainEnabled(s, e)
    ensures var s' := StepMain(s, e);
      Bills(s'.main, s'.ledger, s'.life)
  {
  }

  lemma MainKeepsRecords(s: State, e: MainEvent)
    requires Control(s) && Bills(s.main, s.ledger, s.life) && MainEnabled(s, e)
    requires Records(s.main, s.reason, s.io.meter, s.ledger, s.life)
    ensures var s' := StepMain(s, e);
      Records(s'.main, s'.reason, s'.io.meter, s'.ledger, s'.life)
  {
    match e
    case PreflightPassed(_) =>
    case ConnectRaised =>
    case FirstSent =>
    case FirstSendRaised(_) =>
    case Gathered =>
    case FinalClosed =>
    case FailureClosed =>
    case Priced(_) =>
    case Interrupted =>
    case _ =>
  }

  lemma MainKeepsCloses(s: State, e: MainEvent)
    requires Stops(s.main, s.up, s.down, s.watch, s.reason, s.stop, s.cancelled, s.life)
    requires Closes(s.main, s.reason, s.ledger, s.life) && MainEnabled(s, e)
    ensures var s' := StepMain(s, e);
      Closes(s'.main, s'.reason, s'.ledger, s'.life)
  {
    match e
    case PreflightPassed(_) =>
    case ConnectRaised =>
    case FirstSent =>
    case FirstSendRaised(_) =>
    case Gathered =>
    case FinalClosed =>
    case FailureClosed =>
    case Priced(_) =>
    case Interrupted =>
    case _ =>
  }

  lemma StepKeepsSafe(cfg: Config, s: State, e: Event)
    requires Safe(s) && Enabled(cfg, s, e)
    ensures Safe(Step(cfg, s, e))
  {
    match e
    case Up(u) => UpKeeps(s, u);
    case Down(d) => DownKeeps(s, d);
    case Watch(w) =>
      var over := FindsOverCap(cfg, s, w);
      WatchKeepsControl(s, w, cfg.cap.Some?, over);
      WatchKeepsFlow(s, w, cfg.cap.Some?, over);
      WatchKeepsAccounts(s, w, cfg.cap.Some?, over);
    case Main(m) =>
      MainKeepsPhases(s, m);
      MainKeepsStops(s, m);
      MainKeepsQuiet(s, m);
      MainKeepsForwards(s, m);
      MainKeepsBegins(s, m);
      MainKeepsMeter(s, m);
      MainKeepsBills(s, m);
      MainKeepsRecords(s, m);
      MainKeepsCloses(s, m);
  }

  /** A look is recorded only where it found room, and the meter only grows. */
  lemma StepKeepsTicks(cfg: Config, s: State, e: Event)
    requires Ticks(cfg, s.lastTick, s.io.meter) && Watched(cfg, s.lastTick, s.life) && Enabled(cfg, s, e)
    ensures var s' := Step(cfg, s, e);
      Ticks(cfg, s'.lastTick, s'.io.meter) && Watched(cfg, s'.lastTick, s'.life)
  {
    match e
    case Watch(w) => WatchTicks(cfg, s, w);
    case Main(m) =>
      MainTicks(cfg, s, m);
      if m.PreflightPassed? {
        SilenceIsFree(DEFAULT_GEOMETRY, cfg.price);
      }
    case _ =>
  }

  /** The look of preflight aside, the handler leaves the last one alone, and it meters
      nothing but its first frame. */
  lemma MainTicks(cfg: Config, s: State, m: MainEvent)
    requires MainEnabled(s, m) && Admits(cfg, m)
    ensures var s' := StepMain(s, m);
      && s.io.meter.bytes <= s'.io.meter.bytes
      && (if m.PreflightPassed?
          then s'.lastTick == if m.committed.Some? then Some(Tick(EMPTY, m.committed.value)) else None
          else s'.lastTick == s.lastTick && s'.life.reached == s.life.reached)
  {
  }

  lemma WatchTicks(cfg: Config, s: State, e: WatchEvent)
    requires Ticks(cfg, s.lastTick, s.io.meter) && WatchEnabled(s, e, cfg.cap.Some?)
    ensures var s' := StepWatch(s, e, cfg.cap.Some?, FindsOverCap(cfg, s, e));
      Ticks(cfg, s'.lastTick, s.io.meter) && (s.lastTick.Some? ==> s'.lastTick.Some?)
  {
  }

  lemma {:induction false} RunIsSafe(cfg: Config, run: seq<Event>)
    requires Feasible(cfg, run)
    ensures var s := After(cfg, run);
      Safe(s) && Ticks(cfg, s.lastTick, s.io.meter) && Watched(cfg, s.lastTick, s.life)
  {
    if run == [] {
    } else {
      var front := run[..|run| - 1];
      RunIsSafe(cfg, front);
      StepKeepsSafe(cfg, After(cfg, front), run[|run| - 1]);
      StepKeepsTicks(cfg, After(cfg, front), run[|run| - 1]);
    }
  }

  /* ---------- Main results ---------- */

  /** The frames a client sent that the handler read, in order. */
  function ClientFrames(run: seq<Event>): seq<Frame> {
    if run == [] then []
    else ClientFrames(run[..|run| - 1]) + FrameOf(run[|run| - 1])
  }

  function FrameOf(e: Event): seq<Frame> {
    match e
    case Main(FirstReceived(f, _)) => [f]
    case Up(UpReceived(f)) => [f]
    case _ => []
  }

  /** The texts the upstream sent that the handler read, in order. */
  function UpstreamTexts(run: seq<Event>): seq<string> {
    if run == [] then []
    else UpstreamTexts(run[..|run| - 1]) + TextOf(run[|run| - 1])
  }

  function TextOf(e: Event): seq<string> {
    match e
    case Down(DownReceived(t)) => [t]
    case _ => []
  }

  /** What the state remembers of the frames read so far. */
  predicate Remembers(s: State, frames: seq<Frame>) {
    if s.life.reached then s.io.metered == frames
    else match s.main
      case Accepting => frames == []
      case AwaitingFirst => frames == []
      case InPreflight(f) => frames == [f]
      case _ => true
  }

  lemma StepRemembers(cfg: Config, s: State, e: Event, frames: seq<Frame>)
    requires Safe(s) && Enabled(cfg, s, e) && Remembers(s, frames)
    ensures Remembers(Step(cfg, s, e), frames + FrameOf(e))
  {
    assert frames + [] == frames;
    match e
    case Main(m) => MainRemembers(s, m, frames);
    case _ =>
  }

  lemma MainRemembers(s: State, m: MainEvent, frames: seq<Frame>)
    requires Control(s) && Flow(s) && MainEnabled(s, m) && Remembers(s, frames)
    ensures Remembers(StepMain(s, m), frames + FrameOf(Main(m)))
  {
    assert frames + [] == frames;
    match m
    case FirstReceived(_, _) =>
    case PreflightPassed(_) =>
    case Interrupted =>
    case _ =>
  }

  lemma {:induction false} RunRemembers(cfg: Config, run: seq<Event>)
    requires Feasible(cfg, run)
    ensures Remembers(After(cfg, run), ClientFrames(run)) && After(cfg, run).io.heard == UpstreamTexts(run)
  {
    if run == [] {
    } else {
      var front, last := run[..|run| - 1], run[|run| - 1];
      RunRemembers(cfg, front);
      RunIsSafe(cfg, front);
      StepRemembers(cfg, After(cfg, front), last, ClientFrames(front));
      HearsText(cfg, After(cfg, front), last);
    }
  }

  lemma HearsText(cfg: Config, s: State, e: Event)
    requires Enabled(cfg, s, e)
    ensures Step(cfg, s, e).io.heard == s.io.heard + TextOf(e)
  {
    assert s.io.heard + [] == s.io.heard;
  }

  /** a is a front part of b that lacks at most its last element. */
  ghost predicate FrontOf<T>(a: seq<T>, b: seq<T>) {
    a <= b && |b| <= |a| + 1
  }

  /** Under every schedule the upstream gets the client's frames, first frame first,
      in order and unaltered, and the client the upstream's texts: at any moment a
      front part of what was read, lacking at most the last. */
  lemma RelayIsFaithful(cfg: Config, run: seq<Event>)
    requires Feasible(cfg, run)
    ensures var s := After(cfg, run);
      && (s.life.reached ==> FrontOf(s.io.sent, ClientFrames(run)))
      && (!s.life.reached ==> s.io.sent == [])
      && FrontOf(s.io.told, UpstreamTexts(run))
  {
    RunIsSafe(cfg, run);
    RunRemembers(cfg, run);
    ForwardsFront(After(cfg, run));
  }

  lemma ForwardsFront(s: State)
    requires Flow(s)
    ensures FrontOf(s.io.sent, s.io.metered) && FrontOf(s.io.told, s.io.heard)
  {
  }

  lemma {:induction false} FeasiblePrefix(cfg: Config, run: seq<Event>, k: nat)
    requires Feasible(cfg, run) && k <= |run|
    ensures Feasible(cfg, run[..k])
  {
    if k == |run| {
      assert run[..k] == run;
    } else {
      FeasiblePrefix(cfg, run[..|run| - 1], k);
      assert run[..|run| - 1][..k] == run[..k];
    }
  }

  /** The bill was taken by event k: it shows its price row, and the meter of that moment. */
  ghost predicate TakenBy(cfg: Config, run: seq<Event>, k: nat, bill: CallRecord) {
    && k < |run| && Feasible(cfg, run[..k])
    && run[k] == Main(Priced(bill.price))
    && bill.meter == MeteredFrom(EMPTY, ClientFrames(run[..k]))
  }

  lemma TakenNow(cfg: Config, run: seq<Event>)
    requires Feasible(cfg, run) && run != []
    requires run[|run| - 1].Main? && run[|run| - 1].m.Priced?
    ensures var record := After(cfg, run).ledger.record;
      record.Some? && TakenBy(cfg, run, |run| - 1, record.value)
  {
    var front := run[..|run| - 1];
    RunIsSafe(cfg, front);
    RecordStep(cfg, After(cfg, front), run[|run| - 1]);
    RunRemembers(cfg, front);
  }

  lemma TakenEarlier(cfg: Config, run: seq<Event>, k: nat, bill: CallRecord)
    requires run != [] && TakenBy(cfg, run[..|run| - 1], k, bill)
    ensures TakenBy(cfg, run, k, bill)
  {
    assert run[..|run| - 1][..k] == run[..k];
  }

  /** The bill is taken when the price row is read, and covers exactly the append
      frames read by then, in the format of that moment. */
  lemma {:induction false} BillTakenWhenPriced(cfg: Config, run: seq<Event>) returns (k: nat)
    requires Feasible(cfg, run) && After(cfg, run).ledger.record.Some?
    ensures TakenBy(cfg, run, k, After(cfg, run).ledger.record.value)
    ensures After(cfg, run).ledger.record.value.meter.bytes == AppendedBytes(ClientFrames(run[..k]))
  {
    var front, last := run[..|run| - 1], run[|run| - 1];
    if last.Main? && last.m.Priced? {
      k := |run| - 1;
      TakenNow(cfg, run);
    } else {
      RunIsSafe(cfg, front);
      RecordStep(cfg, After(cfg, front), last);
      k := BillTakenWhenPriced(cfg, front);
      TakenEarlier(cfg, run, k, After(cfg, run).ledger.record.value);
    }
    MeterCountsAppends(ClientFrames(run[..k]));
  }

  lemma RecordStep(cfg: Config, s: State, e: Event)
    requires Control(s) && Flow(s) && Enabled(cfg, s, e)
    ensures var s' := Step(cfg, s, e);
      if e.Main? && e.m.Priced?
      then s'.ledger.record.Some? && s'.ledger.record.value.meter == s.io.meter
        && s'.ledger.record.value.price == e.m.price && s.life.reached
      else s'.ledger.record == s.ledger.record
  {
  }

  /** The bill of a session whose handler was not interrupted covers every append
      frame that was read, those read after the stop included, and shows the final
      reason; no bill ever covers more. */
  lemma BillCountsEveryAppend(cfg: Config, run: seq<Event>)
    requires Feasible(cfg, run) && After(cfg, run).ledger.record.Some?
    ensures var s := After(cfg, run);
      && s.ledger.record.value.meter.bytes <= AppendedBytes(ClientFrames(run))
      && (!s.life.interrupted ==>
            && s.ledger.record.value.meter == MeteredFrom(EMPTY, ClientFrames(run))
            && s.ledger.record.value.meter.bytes == AppendedBytes(ClientFrames(run))
            && s.ledger.record.value.outcome == OutcomeForClose(s.reason)
            && s.ledger.record.value.message == MessageForClose(s.reason))
  {
    RunIsSafe(cfg, run);
    RunRemembers(cfg, run);
    MeterCountsAppends(ClientFrames(run));
  }

  predicate Climbs(r: Reason, r': Reason) {
    r == r' || Rank(r) < Rank(r')
  }

  lemma StepClimbs(cfg: Config, s: State, e: Event)
    requires Control(s) && Enabled(cfg, s, e)
    ensures Climbs(s.reason, Step(cfg, s, e).reason)
  {
  }

  /** Between any two moments of any run the close reason is the same or has climbed
      strictly: normal, then client_abort or upstream_error, then revoked or
      cost_exceeded, which are final. */
  lemma {:induction false} ReasonClimbs(cfg: Config, run: seq<Event>, k: nat)
    requires Feasible(cfg, run) && k <= |run|
    ensures Feasible(cfg, run[..k]) && Climbs(After(cfg, run[..k]).reason, After(cfg, run).reason)
  {
    FeasiblePrefix(cfg, run, k);
    if k == |run| {
      assert run[..k] == run;
    } else {
      var front := run[..|run| - 1];
      assert front[..k] == run[..k];
      ReasonClimbs(cfg, front, k);
      RunIsSafe(cfg, front);
      StepClimbs(cfg, After(cfg, front), run[|run| - 1]);
    }
  }

  /** run_relay closes the client for the reason that the session has at that moment. */
  lemma {:induction false} ClosedForItsReason(cfg: Config, run: seq<Event>) returns (k: nat)
    requires Feasible(cfg, run) && After(cfg, run).ledger.closedFor.Some?
    ensures k < |run| && run[k] == Main(UpstreamClosed) && Feasible(cfg, run[..k])
    ensures After(cfg, run).ledger.closedFor == Some(After(cfg, run[..k]).reason)
  {
    var front, last := run[..|run| - 1], run[|run| - 1];
    ClosedForStep(cfg, After(cfg, front), last);
    if last == Main(UpstreamClosed) {
      k := |run| - 1;
    } else {
      k := ClosedForItsReason(cfg, front);
      assert front[..k] == run[..k];
    }
  }

  lemma ClosedForStep(cfg: Config, s: State, e: Event)
    requires Enabled(cfg, s, e)
    ensures Step(cfg, s, e).ledger.closedFor ==
      if e == Main(UpstreamClosed) then Some(s.reason) else s.ledger.closedFor
  {
    match e
    case Main(UpstreamClosed) =>
    case Main(_) =>
    case _ =>
  }

  /** run_relay never returns with the reason still normal, and it has closed the
      client once, with the code of the reason that the session had at that moment. */
  lemma RelayReturnsWithReason(cfg: Config, run: seq<Event>) returns (k: nat)
    requires Feasible(cfg, run) && After(cfg, run).life.returned
    ensures k < |run| && run[k] == Main(UpstreamClosed) && Feasible(cfg, run[..k])
    ensures var s, reason := After(cfg, run), After(cfg, run[..k]).reason;
      && s.reason != Normal && reason != Normal
      && s.ledger.closedFor == Some(reason)
      && s.ledger.closeCodes == [CloseCodeFor(reason)]
      && Climbs(reason, s.reason)
  {
    RunIsSafe(cfg, run);
    k := ClosedForItsReason(cfg, run);
  }

  /** The client is closed at most once, with a code section 7.4.1 of RFC 6455 lets an
      endpoint send. */
  lemma CloseCodesAreLegal(cfg: Config, run: seq<Event>)
    requires Feasible(cfg, run)
    ensures var codes := After(cfg, run).ledger.closeCodes;
      |codes| <= 1 && forall c | c in codes :: c in {1000, 1003, 1008, 1011}
  {
    RunIsSafe(cfg, run);
  }

  /** Some cancellation of the handler met a session that had a billing ahead but no
      finally clause: connecting, closing after a failed connect, or in the finally
      clause itself, before the billing. */
  predicate BillingLost(cfg: Config, run: seq<Event>)
    requires Feasible(cfg, run)
  {
    run != [] &&
    var front := run[..|run| - 1];
    BillingLost(cfg, front) || (run[|run| - 1] == Main(Interrupted) && Unbilled(After(cfg, front).main))
  }

  lemma {:induction false} LostExactly(cfg: Config, run: seq<Event>)
    requires Feasible(cfg, run)
    ensures After(cfg, run).life.lost <==> BillingLost(cfg, run)
  {
    if run == [] {
    } else {
      var front := run[..|run| - 1];
      LostExactly(cfg, front);
      RunIsSafe(cfg, front);
      LostStep(cfg, After(cfg, front), run[|run| - 1]);
    }
  }

  predicate IsPass(e: Event) {
    e.Main? && e.m.PreflightPassed?
  }

  predicate PassedPreflight(run: seq<Event>) {
    exists e | e in run :: IsPass(e)
  }

  lemma {:induction false} ReachedExactly(cfg: Config, run: seq<Event>)
    requires Feasible(cfg, run)
    ensures After(cfg, run).life.reached <==> PassedPreflight(run)
  {
    if run == [] {
    } else {
      var front := run[..|run| - 1];
      ReachedExactly(cfg, front);
      ReachedStep(cfg, After(cfg, front), run[|run| - 1]);
      assert run == front + [run[|run| - 1]];
    }
  }

  lemma LostStep(cfg: Config, s: State, e: Event)
    requires Control(s) && Enabled(cfg, s, e)
    ensures Step(cfg, s, e).life.lost <==> s.life.lost || (e == Main(Interrupted) && Unbilled(s.main))
  {
    match e
    case Main(Interrupted) =>
    case Main(_) =>
    case _ =>
  }

  lemma ReachedStep(cfg: Config, s: State, e: Event)
    requires Enabled(cfg, s, e)
    ensures Step(cfg, s, e).life.reached <==> s.life.reached || IsPass(e)
  {
    match e
    case Main(m) => MainReaches(s, m);
    case _ =>
  }

  lemma MainReaches(s: State, m: MainEvent)
    requires MainEnabled(s, m)
    ensures StepMain(s, m).life.reached <==> s.life.reached || m.PreflightPassed?
  {
  }

  /** A session is never billed twice; when its handler has ended it has been billed
      exactly once if and only if it passed preflight, that is reached the upstream
      connect, and no cancellation lost its billing. */
  lemma BilledExactlyOnce(cfg: Config, run: seq<Event>)
    requires Feasible(cfg, run)
    ensures var s := After(cfg, run);
      && s.ledger.attempts <= 1
      && (s.main.Ended? ==> (s.ledger.attempts == 1 <==> PassedPreflight(run) && !BillingLost(cfg, run)))
  {
    RunIsSafe(cfg, run);
    LostExactly(cfg, run);
    ReachedExactly(cfg, run);
  }

  /** A tick whose reads succeed leaves the connection up exactly when committed plus
      running cost is below the cap, and is then the last look. */
  lemma TickLeavesRoom(cfg: Config, run: seq<Event>, committed: real)
    requires Feasible(cfg, run + [Watch(CostRead(Some(committed)))])
    ensures Feasible(cfg, run) && cfg.cap.Some?
    ensures var s, s' := After(cfg, run), After(cfg, run + [Watch(CostRead(Some(committed)))]);
      && (s'.reason != CostExceeded <==> committed + RunningCost(s.io.meter, cfg.price) < cfg.cap.value)
      && (s'.reason != CostExceeded ==> s'.lastTick == Some(Tick(s.io.meter, committed)))
  {
    var e := Watch(CostRead(Some(committed)));
    assert (run + [e])[..|run|] == run;
    RunIsSafe(cfg, run);
  }

  /** The bill and the look are priced alike: in one format, or no audio had been read
      at the look. */
  predicate SameFormat(tick: Tick, bill: CallRecord) {
    bill.meter.geometry == tick.meter.geometry || tick.meter.bytes == 0
  }

  /** The audio of a bill that the look had not seen. */
  function Unseen(tick: Tick, bill: CallRecord): Meter {
    Meter(if bill.meter.bytes > tick.meter.bytes then bill.meter.bytes - tick.meter.bytes else 0, bill.meter.geometry)
  }

  /** The final bill exceeds the room left at the last look by less than the price of
      the audio read since, if neither the price row nor the format has changed. */
  lemma BillWithinRoom(cfg: Config, run: seq<Event>)
    requires Feasible(cfg, run) && NonNegative(cfg.price)
    requires var s := After(cfg, run);
      && s.ledger.record.Some? && s.lastTick.Some?
      && s.ledger.record.value.price == cfg.price
      && SameFormat(s.lastTick.value, s.ledger.record.value)
    ensures cfg.cap.Some?
    ensures var s := After(cfg, run);
      var tick, bill := s.lastTick.value, s.ledger.record.value;
      && tick.committed + Amount(bill.Cost()) < cfg.cap.value + RunningCost(Unseen(tick, bill), cfg.price)
      && (!s.life.interrupted ==>
            && tick.meter.bytes <= bill.meter.bytes
            && Amount(bill.Cost()) == RunningCost(s.io.meter, cfg.price))
  {
    RunIsSafe(cfg, run);
    var s := After(cfg, run);
    BillIsRunningCost(s.ledger.record.value.meter, cfg.price);
    RoomLemma(cfg, s.lastTick.value, s.ledger.record.value);
  }

  lemma RoomLemma(cfg: Config, tick: Tick, bill: CallRecord)
    requires NonNegative(cfg.price) && cfg.cap.Some? && bill.price == cfg.price
    requires SameFormat(tick, bill) && !OverCap(cfg, tick.meter, tick.committed)
    ensures tick.committed + RunningCost(bill.meter, cfg.price)
      < cfg.cap.value + RunningCost(Unseen(tick, bill), cfg.price)
  {
    var g := bill.meter.geometry;
    SilenceIsFree(tick.meter.geometry, cfg.price);
    SilenceIsFree(g, cfg.price);
    if tick.meter.bytes == 0 {
      assert tick.meter == Meter(0, tick.meter.geometry);
      assert bill.meter == Unseen(tick, bill);
    } else if bill.meter.bytes > tick.meter.bytes {
      CostSubadditive(g, tick.meter.bytes, bill.meter.bytes - tick.meter.bytes, cfg.price);
      assert tick.meter == Meter(tick.meter.bytes, g) && bill.meter == Meter(bill.meter.bytes, g);
    } else {
      CostMonotone(g, bill.meter.bytes, tick.meter.bytes, cfg.price);
      assert tick.meter == Meter(tick.meter.bytes, g) && bill.meter == Meter(bill.meter.bytes, g);
    }
  }

  /* ---------- The teardown ends ---------- */

  function Remaining(m: MainTask): nat {
    match m
    case Gathering => 3
    case FinalClosing => 2
    case Billing(_) => 1
    case _ => 0
  }

  /** Steps left once run_relay has cancelled its tasks. */
  function StepsLeft(s: State): nat {
    Remaining(s.main) + (if s.up.UpDone? then 0 else 1) + (if s.down.DownDone? then 0 else 1)
      + (if s.watch.WatchDone? then 0 else 1)
  }

  /** After the cancellation every step of any task brings the end nearer. */
  lemma TeardownEnds(cfg: Config, s: State, e: Event)
    requires Control(s) && s.cancelled && Enabled(cfg, s, e)
    ensures StepsLeft(Step(cfg, s, e)) < StepsLeft(s)
  {
  }

  /** ... and until the end some task can take a step without a further cancellation:
      the teardown cannot hang on the tasks. */
  lemma TeardownMoves(cfg: Config, s: State)
    requires Control(s) && s.cancelled && !s.main.Ended?
    ensures exists e :: e != Main(Interrupted) && Enabled(cfg, s, e)
  {
    var e :=
      if s.main.FinalClosing? then Main(FinalClosed)
      else if s.main.Billing? then Main(BillRaised)
      else if !s.up.UpDone? then Up(UpCancelled(false))
      else if !s.down.DownDone? then Down(DownCancelled(false))
      else if !s.watch.WatchDone? then Watch(WatchCancelled)
      else Main(Gathered);
    assert Enabled(cfg, s, e);
  }
}
