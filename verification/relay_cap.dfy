/** What the monthly cost cap means for realtime sessions: which records count towards
    it, how far several connections can exceed it together, and the runs that show
    where its guarantees end. */
module RelayCap {
  import opened Common
  import opened Metering
  import opened Relay

  /* ---------- Which records count ---------- */

  /** A record adds its cost to the month exactly if it is filed as a success, unless it
      costs nothing anyway. */
  lemma CommittedExactly(record: CallRecord)
    ensures record.Committed() == RunningCost(record.meter, record.price) <==>
      record.outcome.OutcomeSuccess? || RunningCost(record.meter, record.price) == 0.0
  {
    BillIsRunningCost(record.meter, record.price);
  }

  /** For a session that was not interrupted and whose price row is unchanged: the month
      is charged with the running cost at close exactly if the session did not end for
      an upstream error, or cost nothing. */
  lemma BillReachesMonth(cfg: Config, run: seq<Event>)
    requires Feasible(cfg, run) && After(cfg, run).ledger.record.Some? && !After(cfg, run).life.interrupted
    requires After(cfg, run).ledger.record.value.price == cfg.price
    ensures var s, cost := After(cfg, run), RunningCost(After(cfg, run).io.meter, cfg.price);
      && Amount(s.ledger.record.value.Cost()) == cost
      && (s.ledger.record.value.Committed() == cost <==> s.reason != UpstreamError || cost == 0.0)
  {
    RunIsSafe(cfg, run);
    BillIsRunningCost(After(cfg, run).io.meter, cfg.price);
    CommittedExactly(After(cfg, run).ledger.record.value);
  }

  /* ---------- Several connections under one cap ---------- */

  /** A session under a cap that passed preflight: long or short, billed or not,
      interrupted or not. Its bill, if it has one, is priced as its last look was. */
  ghost predicate Capped(cfg: Config, run: seq<Event>) {
    && Feasible(cfg, run) && PassedPreflight(run) && cfg.cap.Some?
    && var s := After(cfg, run);
       s.ledger.record.Some? && s.lastTick.Some? ==>
         s.ledger.record.value.price == cfg.price && SameFormat(s.lastTick.value, s.ledger.record.value)
  }

  /** A session in money: the committed cost that its last look read, what it adds to
      the month itself, and the price of the billed audio that the look had not seen. */
  datatype Account = Account(seen: real, spent: real, tail: real)

  function AccountOfBill(tick: Tick, record: Option<CallRecord>, price: Option<Price>): Account {
    if record.None? then Account(tick.committed, 0.0, 0.0)
    else Account(tick.committed, record.value.Committed(), RunningCost(Unseen(tick, record.value), price))
  }

  /** Every such session has looked, at the latest in preflight. */
  lemma HasLooked(cfg: Config, run: seq<Event>)
    requires Capped(cfg, run)
    ensures After(cfg, run).lastTick.Some?
  {
    RunIsSafe(cfg, run);
    ReachedExactly(cfg, run);
  }

  ghost function AccountOf(cfg: Config, run: seq<Event>): Account
    requires Capped(cfg, run)
  {
    HasLooked(cfg, run);
    AccountOfBill(After(cfg, run).lastTick.value, After(cfg, run).ledger.record, cfg.price)
  }

  predicate WithinRoom(cap: real, a: Account) {
    a.seen + a.spent < cap + a.tail
  }

  /** One session keeps below the room its last look saw, but for the tail. */
  lemma SpentWithinRoom(cfg: Config, run: seq<Event>)
    requires Capped(cfg, run) && NonNegative(cfg.price)
    ensures cfg.cap.Some? && WithinRoom(cfg.cap.value, AccountOf(cfg, run))
  {
    HasLooked(cfg, run);
    RunIsSafe(cfg, run);
    var s := After(cfg, run);
    if s.ledger.record.Some? {
      BillWithinRoom(cfg, run);
      CommittedAtMostCost(s.ledger.record.value);
    } else {
      CostNonNegative(s.lastTick.value.meter, cfg.price);
    }
  }

  lemma CommittedAtMostCost(record: CallRecord)
    requires NonNegative(record.price)
    ensures record.Committed() <= Amount(record.Cost())
  {
    CostNonNegative(record.meter, record.price);
    BillIsRunningCost(record.meter, record.price);
  }

  lemma CostNonNegative(m: Meter, price: Option<Price>)
    requires NonNegative(price)
    ensures RunningCost(m, price) >= 0.0
  {
    if BytesPerSecond(m.geometry) > 0 {
      QuantityIsFewest(m, UnitOf(price));
    } else {
      UnknownGeometryIsFree(m, UnitOf(price));
    }
    if price.Some? && price.value.perUnit.Some? {
      ScaleNonNegative(0.0, SessionQuantity(m, UnitOf(price)) as real, price.value.perUnit.value);
    }
  }

  function TotalSpent(accounts: seq<Account>): real {
    if accounts == [] then 0.0 else TotalSpent(accounts[..|accounts| - 1]) + accounts[|accounts| - 1].spent
  }

  function TotalTail(accounts: seq<Account>): real {
    if accounts == [] then 0.0 else TotalTail(accounts[..|accounts| - 1]) + accounts[|accounts| - 1].tail
  }

  /** Accounts of sessions that began when `base` was committed already. */
  predicate Since(cap: real, base: real, accounts: seq<Account>) {
    forall i | 0 <= i < |accounts| :: accounts[i].seen >= base && WithinRoom(cap, accounts[i])
  }

  /** k times x, as a sum. */
  function Times(k: nat, x: real): real {
    if k == 0 then 0.0 else Times(k - 1, x) + x
  }

  lemma {:induction false} TimesIsProduct(k: nat, x: real)
    ensures Times(k, x) == k as real * x
  {
    if k == 0 {
    } else {
      TimesIsProduct(k - 1, x);
      OneRoomMore(k - 1, x);
    }
  }

  lemma OneRoomMore(n: int, room: real)
    ensures (n + 1) as real * room == n as real * room + room
  {
  }

  /** Each session spends at most one room and its tail. */
  lemma {:induction false} RoomForEach(cap: real, base: real, accounts: seq<Account>)
    requires Since(cap, base, accounts)
    ensures TotalSpent(accounts) <= Times(|accounts|, cap - base) + TotalTail(accounts)
  {
    if accounts == [] {
    } else {
      RoomForEach(cap, base, accounts[..|accounts| - 1]);
    }
  }

  /** Some session of this cap and price has this account. */
  ghost predicate IsAccount(cfg: Config, a: Account) {
    exists run :: Capped(cfg, run) && AccountOf(cfg, run) == a
  }

  lemma AccountWithinRoom(cfg: Config, a: Account)
    requires IsAccount(cfg, a) && NonNegative(cfg.price)
    ensures cfg.cap.Some? && WithinRoom(cfg.cap.value, a)
  {
    var run :| Capped(cfg, run) && AccountOf(cfg, run) == a;
    SpentWithinRoom(cfg, run);
  }

  /** Accounts of sessions that began when `base` was committed already. */
  ghost predicate Begun(cfg: Config, base: real, accounts: seq<Account>) {
    forall i | 0 <= i < |accounts| :: IsAccount(cfg, accounts[i]) && accounts[i].seen >= base
  }

  lemma BegunWithinRoom(cfg: Config, base: real, accounts: seq<Account>)
    requires Begun(cfg, base, accounts) && NonNegative(cfg.price) && cfg.cap.Some?
    ensures Since(cfg.cap.value, base, accounts)
  {
    forall i | 0 <= i < |accounts| ensures accounts[i].seen >= base && WithinRoom(cfg.cap.value, accounts[i]) {
      AccountWithinRoom(cfg, accounts[i]);
    }
  }

  /** The month exceeds the cap by less than these tails and rooms. */
  predicate ExceedsByLess(cap: real, base: real, before: seq<Account>, beside: seq<Account>, last: Account) {
    base + TotalSpent(before) + TotalSpent(beside) + last.spent
      < cap + last.tail + Times(|beside|, cap - base) + TotalTail(beside)
  }

  lemma RoomsAddUp(cap: real, base: real, before: seq<Account>, beside: seq<Account>, last: Account)
    requires WithinRoom(cap, last) && Since(cap, base, beside) && last.seen >= base + TotalSpent(before)
    ensures ExceedsByLess(cap, base, before, beside, last)
  {
    RoomForEach(cap, base, beside);
  }

  /** Sessions of one allocation under one cap and price, all begun when `base` was
      committed already: `before` are those whose spending the last look of `last` has
      read, `beside` those it has not. The month exceeds the cap by less than the tail
      of `last`, and one room and one tail for each session beside it. Sessions that
      follow one another so exceed it by less than one tail. */
  lemma SharedCap(cfg: Config, base: real, before: seq<Account>, beside: seq<Account>, last: Account)
    requires NonNegative(cfg.price) && IsAccount(cfg, last) && Begun(cfg, base, beside)
    requires last.seen >= base + TotalSpent(before)
    ensures cfg.cap.Some? && ExceedsByLess(cfg.cap.value, base, before, beside, last)
  {
    AccountWithinRoom(cfg, last);
    BegunWithinRoom(cfg, base, beside);
    RoomsAddUp(cfg.cap.value, base, before, beside, last);
  }

  /* ---------- Runs that show where the guarantees end ---------- */

  ghost predicate At(cfg: Config, run: seq<Event>, s: State) {
    Feasible(cfg, run) && After(cfg, run) == s
  }

  lemma Then(cfg: Config, run: seq<Event>, s: State, e: Event) returns (longer: seq<Event>)
    requires At(cfg, run, s) && Enabled(cfg, s, e)
    ensures longer == run + [e] && At(cfg, longer, Step(cfg, s, e))
  {
    longer := run + [e];
    assert longer[..|run|] == run;
  }

  /** Some committed cost that preflight lets pass. */
  function Admitted(cfg: Config): Option<real> {
    if cfg.cap.Some? then Some(cfg.cap.value - 1.0) else None
  }

  /** A session whose first frame has been sent on. */
  function Opened(look: Option<real>, first: Frame): State {
    State(
      Waiting, UpReceiving, DownReceiving, Sleeping, Normal, false, false,
      Traffic(Metered(EMPTY, first), [first], [first], [], []), Ledger([], None, 0, None),
      Life(true, false, false, false), if look.Some? then Some(Tick(EMPTY, look.value)) else None)
  }

  lemma Opens(cfg: Config, look: Option<real>, first: Frame) returns (run: seq<Event>)
    requires Admits(cfg, PreflightPassed(look))
    ensures At(cfg, run, Opened(look, first)) && PassedPreflight(run)
  {
    run := [];
    var s := INIT;
    run := Then(cfg, run, s, Main(Accepted(true)));
    s := s.(main := AwaitingFirst);
    run := Then(cfg, run, s, Main(FirstReceived(first, true)));
    s := s.(main := InPreflight(first));
    var pass := Main(PreflightPassed(look));
    run := Then(cfg, run, s, pass);
    assert IsPass(pass) && pass in run;
    s := Step(cfg, s, pass);
    assert [] + [first] == [first];
    run := Then(cfg, run, s, Main(Connected));
    s := Step(cfg, s, Main(Connected));
    assert pass in run;
    run := Then(cfg, run, s, Main(FirstSent));
    assert pass in run;
    assert Step(cfg, s, Main(FirstSent)) == Opened(look, first);
  }

  /** What the teardown leaves as it is. */
  predicate SameBill(s: State, t: State) {
    && t.reason == s.reason && t.io.meter == s.io.meter && t.lastTick == s.lastTick
    && t.life.interrupted == s.life.interrupted && t.life.reached == s.life.reached
  }

  lemma CancelAll(cfg: Config, run: seq<Event>, s: State) returns (longer: seq<Event>, t: State)
    requires At(cfg, run, s) && s.main.Gathering? && s.cancelled && Started(s.up, s.down, s.watch)
    ensures At(cfg, longer, t) && t.main.Gathering? && AllDone(t.up, t.down, t.watch) && SameBill(s, t)
  {
    longer, t := run, s;
    if !t.up.UpDone? {
      longer := Then(cfg, longer, t, Up(UpCancelled(false)));
      t := Step(cfg, t, Up(UpCancelled(false)));
    }
    if !t.down.DownDone? {
      longer := Then(cfg, longer, t, Down(DownCancelled(false)));
      t := Step(cfg, t, Down(DownCancelled(false)));
    }
    if !t.watch.WatchDone? {
      longer := Then(cfg, longer, t, Watch(WatchCancelled));
      t := Step(cfg, t, Watch(WatchCancelled));
    }
  }

  /** From the stop to the record, with nothing more received and the price row as it was. */
  lemma Finish(cfg: Config, run: seq<Event>, s: State) returns (longer: seq<Event>, t: State)
    requires At(cfg, run, s) && s.main.Waiting? && s.stop && !s.cancelled && Started(s.up, s.down, s.watch)
    ensures At(cfg, longer, t) && SameBill(s, t)
    ensures t.ledger.record ==
      Some(CallRecord(s.io.meter, cfg.price, OutcomeForClose(s.reason), MessageForClose(s.reason)))
  {
    longer := Then(cfg, run, s, Main(StopSeen));
    t := Step(cfg, s, Main(StopSeen));
    longer := Then(cfg, longer, t, Main(UpstreamClosed));
    t := Step(cfg, t, Main(UpstreamClosed));
    longer := Then(cfg, longer, t, Main(ClientClosed));
    t := Step(cfg, t, Main(ClientClosed));
    longer, t := CancelAll(cfg, longer, t);
    longer, t := Settle(cfg, longer, t);
  }

  lemma Settle(cfg: Config, run: seq<Event>, s: State) returns (longer: seq<Event>, t: State)
    requires At(cfg, run, s) && s.main.Gathering? && AllDone(s.up, s.down, s.watch)
    ensures At(cfg, longer, t) && SameBill(s, t)
    ensures t.ledger.record ==
      Some(CallRecord(s.io.meter, cfg.price, OutcomeForClose(s.reason), MessageForClose(s.reason)))
  {
    longer := Then(cfg, run, s, Main(Gathered));
    t := Step(cfg, s, Main(Gathered));
    longer := Then(cfg, longer, t, Main(FinalClosed));
    t := Step(cfg, t, Main(FinalClosed));
    longer := Then(cfg, longer, t, Main(Priced(cfg.price)));
    t := Step(cfg, t, Main(Priced(cfg.price)));
  }

  function AudioOf(first: Frame, frame: Frame): Meter {
    Metered(Metered(EMPTY, first), frame)
  }

  /** A session that has read one more frame. */
  function Reading(look: Option<real>, first: Frame, frame: Frame): State {
    StepUp(Opened(look, first), UpReceived(frame))
  }

  lemma Reads(cfg: Config, look: Option<real>, first: Frame, frame: Frame) returns (run: seq<Event>)
    requires Admits(cfg, PreflightPassed(look))
    ensures At(cfg, run, Reading(look, first, frame)) && PassedPreflight(run)
  {
    var opening := Opens(cfg, look, first);
    run := Then(cfg, opening, Opened(look, first), Up(UpReceived(frame)));
    var e :| e in opening && IsPass(e);
    assert e in run;
  }

  /** A handler that is cancelled, and cancelled again while it closes the upstream in
      its finally clause, leaves a session unbilled whatever it has read. */
  lemma CancelledTwiceIsFree(cfg: Config, first: Frame, frame: Frame) returns (run: seq<Event>)
    ensures Feasible(cfg, run) && PassedPreflight(run) && BillingLost(cfg, run)
    ensures var s := After(cfg, run);
      s.main.Ended? && s.ledger.attempts == 0 && s.ledger.record == None && ClientFrames(run) == [first, frame]
  {
    run := Reads(cfg, Admitted(cfg), first, frame);
    var s := Reading(Admitted(cfg), first, frame);
    run := Then(cfg, run, s, Main(Interrupted));
    s := Step(cfg, s, Main(Interrupted));
    run := Then(cfg, run, s, Main(Interrupted));
    s := Step(cfg, s, Main(Interrupted));
    LostExactly(cfg, run);
    ReachedExactly(cfg, run);
    RunRemembers(cfg, run);
    assert [first] + [frame] == [first, frame];
  }

  /** A session whose upstream goes away is billed for its audio and yet adds nothing to
      the month: no later check of the cap sees it. */
  lemma UpstreamErrorSpendsNothing(cfg: Config, first: Frame, frame: Frame) returns (run: seq<Event>)
    requires frame.event.Append? && frame.event.bytes > 0
    requires cfg.price.Some? && cfg.price.value.perUnit.Some? && cfg.price.value.perUnit.value > 0.0
    ensures Feasible(cfg, run) && After(cfg, run).reason == UpstreamError && !After(cfg, run).life.interrupted
    ensures After(cfg, run).ledger.record.Some?
    ensures var record := After(cfg, run).ledger.record.value;
      record.price == cfg.price && Amount(record.Cost()) > 0.0 && record.Committed() == 0.0
  {
    run := Reads(cfg, Admitted(cfg), first, frame);
    var s := Reading(Admitted(cfg), first, frame);
    run := Then(cfg, run, s, Down(UpstreamGone));
    s := Step(cfg, s, Down(UpstreamGone));
    var t;
    run, t := Finish(cfg, run, s);
    TwoFrames(first, frame);
    AudioCosts(s.io.meter, cfg.price);
    BillIsRunningCost(s.io.meter, cfg.price);
  }

  lemma TwoFrames(first: Frame, frame: Frame)
    requires frame.event.Append? && frame.event.bytes > 0
    ensures AudioOf(first, frame).bytes > 0 && Positive(AudioOf(first, frame).geometry)
  {
  }

  lemma AudioCosts(m: Meter, price: Option<Price>)
    requires m.bytes > 0 && Positive(m.geometry)
    requires price.Some? && price.value.perUnit.Some? && price.value.perUnit.value > 0.0
    ensures RunningCost(m, price) > 0.0
  {
    SomeAudioIsBilled(m, UnitOf(price));
    ScaleNonNegative(1.0, SessionQuantity(m, UnitOf(price)) as real, price.value.perUnit.value);
  }

  /** A session that its last tick found below the cap, and whose client then left. */
  lemma LeavesBelowCap(cfg: Config, first: Frame, frame: Frame, committed: real) returns (run: seq<Event>, s: State)
    requires cfg.cap.Some? && committed < cfg.cap.value
    requires committed + RunningCost(AudioOf(first, frame), cfg.price) < cfg.cap.value
    ensures At(cfg, run, s) && s.main.Waiting? && s.stop && !s.cancelled && Started(s.up, s.down, s.watch)
    ensures s.reason == ClientAbort && s.life.reached
    ensures s.io.meter == AudioOf(first, frame) && s.lastTick == Some(Tick(s.io.meter, committed))
    ensures !s.life.interrupted
  {
    run := Reads(cfg, Some(committed), first, frame);
    s := Reading(Some(committed), first, frame);
    run := Then(cfg, run, s, Up(UpSent));
    s := Step(cfg, s, Up(UpSent));
    run := Then(cfg, run, s, Watch(TimedOut));
    s := Step(cfg, s, Watch(TimedOut));
    run := Then(cfg, run, s, Watch(ActiveRead(Active)));
    s := Step(cfg, s, Watch(ActiveRead(Active)));
    run := Then(cfg, run, s, Watch(CostRead(Some(committed))));
    s := Step(cfg, s, Watch(CostRead(Some(committed))));
    run := Then(cfg, run, s, Up(ClientGone));
    s := Step(cfg, s, Up(ClientGone));
  }

  /** Whenever some audio costs less than the room, some session can spend that much
      without a tail. */
  lemma EndsBelowCap(cfg: Config, first: Frame, frame: Frame, committed: real)
    requires cfg.cap.Some? && committed < cfg.cap.value
    requires committed + RunningCost(AudioOf(first, frame), cfg.price) < cfg.cap.value
    ensures IsAccount(cfg, Account(committed, RunningCost(AudioOf(first, frame), cfg.price), 0.0))
  {
    var run, s := LeavesBelowCap(cfg, first, frame, committed);
    var t;
    run, t := Finish(cfg, run, s);
    BillIsRunningCost(s.io.meter, cfg.price);
    SilenceIsFree(s.io.meter.geometry, cfg.price);
    ReachedExactly(cfg, run);
    assert Capped(cfg, run);
    assert AccountOf(cfg, run) == Account(committed, RunningCost(s.io.meter, cfg.price), 0.0);
  }

  function Copies(a: Account, k: nat): (copies: seq<Account>)
    ensures |copies| == k
  {
    if k == 0 then [] else Copies(a, k - 1) + [a]
  }

  lemma {:induction false} CopiesAddUp(a: Account, k: nat)
    ensures TotalSpent(Copies(a, k)) == Times(k, a.spent) && TotalTail(Copies(a, k)) == Times(k, a.tail)
  {
    if k == 0 {
    } else {
      CopiesAddUp(a, k - 1);
      assert Copies(a, k)[..k - 1] == Copies(a, k - 1);
    }
  }

  lemma {:induction false} NothingTimes(k: nat)
    ensures Times(k, 0.0) == 0.0
  {
    if k == 0 {
    } else {
      NothingTimes(k - 1);
    }
  }

  lemma {:induction false} CopiesAreAll(a: Account, k: nat, i: nat)
    requires i < k
    ensures Copies(a, k)[i] == a
  {
    if i < k - 1 {
      CopiesAreAll(a, k - 1, i);
    }
  }

  lemma CopiesBegun(cfg: Config, a: Account, k: nat)
    requires IsAccount(cfg, a)
    ensures Begun(cfg, a.seen, Copies(a, k))
  {
    forall i | 0 <= i < k ensures Copies(a, k)[i] == a {
      CopiesAreAll(a, k, i);
    }
  }

  /** The most whole units that cost less than the room. */
  lemma UnitsInRoom(room: real, p: real) returns (q: nat)
    requires room > 0.0 && p > 0.0
    ensures q as real * p < room <= q as real * p + p
  {
    var x := room / p;
    DivTimes(room, p);
    QuotientPositive(room, p);
    q := Ceil(x) - 1;
    assert q as real < x <= q as real + 1.0;
    ScaleUpStrict(q as real, x, p);
    ScaleUp(x, q as real + 1.0, p);
    DistributeReal(q as real, 1.0, p);
  }

  /** Audio of exactly so many units. */
  lemma WholeUnits(q: nat, unit: string) returns (bytes: nat)
    ensures SessionQuantity(Meter(bytes, DEFAULT_GEOMETRY), unit) == q
  {
    var m := UnitBytes(DEFAULT_GEOMETRY, unit);
    assert BytesPerSecond(DEFAULT_GEOMETRY) == 48000;
    MulMonotone(0, q, m);
    bytes := q * m;
    QuantityIsFewest(Meter(bytes, DEFAULT_GEOMETRY), unit);
    Distribute(q, -1, m);
    FewestUnique(SessionQuantity(Meter(bytes, DEFAULT_GEOMETRY), unit), q, m, bytes);
  }

  /** Audio that costs less than the room, but by no more than one unit. */
  lemma AudioInRoom(price: Option<Price>, room: real) returns (bytes: nat)
    requires room > 0.0 && price.Some? && price.value.perUnit.Some? && price.value.perUnit.value > 0.0
    ensures var cost := RunningCost(Meter(bytes, DEFAULT_GEOMETRY), price);
      cost < room <= cost + price.value.perUnit.value
  {
    var q := UnitsInRoom(room, price.value.perUnit.value);
    bytes := WholeUnits(q, UnitOf(price));
  }

  function AudioFrame(bytes: nat): Frame {
    Frame("", Append(bytes))
  }

  const SILENCE := Frame("", Unmetered)

  /** The account of a session that read so much audio and ended at its last look. */
  function Filled(cfg: Config, base: real, bytes: nat): Account {
    Account(base, RunningCost(AudioOf(SILENCE, AudioFrame(bytes)), cfg.price), 0.0)
  }

  lemma FilledBegun(cfg: Config, base: real, bytes: nat, k: nat)
    requires cfg.cap.Some? && base < cfg.cap.value
    requires base + RunningCost(AudioOf(SILENCE, AudioFrame(bytes)), cfg.price) < cfg.cap.value
    ensures Begun(cfg, base, Copies(Filled(cfg, base, bytes), k))
  {
    EndsBelowCap(cfg, SILENCE, AudioFrame(bytes), base);
    CopiesBegun(cfg, Filled(cfg, base, bytes), k);
  }

  lemma {:induction false} TimesMonotone(k: nat, x: real, y: real)
    requires x <= y
    ensures Times(k, x) <= Times(k, y)
  {
    if k == 0 {
    } else {
      TimesMonotone(k - 1, x, y);
    }
  }

  lemma CopiesSpend(a: Account, k: nat, least: real)
    requires a.tail == 0.0 && a.spent >= least
    ensures TotalSpent(Copies(a, k)) >= Times(k, least) && TotalTail(Copies(a, k)) == 0.0
  {
    CopiesAddUp(a, k);
    TimesMonotone(k, least, a.spent);
    NothingTimes(k);
  }

  /** The rooms in the bound of SharedCap are needed: under every cap and positive price,
      any number of sessions side by side, none with a tail, can each spend the whole
      room but for one unit. */
  lemma RoomsAreNeeded(cfg: Config, base: real, k: nat) returns (beside: seq<Account>)
    requires cfg.cap.Some? && base < cfg.cap.value
    requires cfg.price.Some? && cfg.price.value.perUnit.Some? && cfg.price.value.perUnit.value > 0.0
    ensures |beside| == k && Begun(cfg, base, beside) && TotalTail(beside) == 0.0
    ensures TotalSpent(beside) >= Times(k, cfg.cap.value - base - cfg.price.value.perUnit.value)
  {
    var bytes := AudioInRoom(cfg.price, cfg.cap.value - base);
    assert AudioOf(SILENCE, AudioFrame(bytes)) == Meter(bytes, DEFAULT_GEOMETRY);
    CopiesSpend(Filled(cfg, base, bytes), k, cfg.cap.value - base - cfg.price.value.perUnit.value);
    FilledBegun(cfg, base, bytes, k);
    beside := Copies(Filled(cfg, base, bytes), k);
  }
}
