/** src/ai_api/auth/ratelimit.py, driven by local_login of src/ai_api/api/auth.py:
    sliding windows over an append-only attempt log, with lock markers that the
    checks write into the log they read. */
module RateLimit {
  import opened Common

  /** Microseconds, the resolution of the log's timestamps. */
  type Time = int

  const SECOND: int := 1_000_000
  const WINDOW: int := 60 * SECOND
  const THRESHOLD: int := 5
  const LOCK_DURATION: int := 15 * 60 * SECOND

  /** The identifier a per-address lock marker is filed under. */
  const IP_LOCK := "(ip-lock)"

  datatype Outcome = Success | BadPassword | UnknownEmail | Disabled | Locked

  datatype Attempt = Attempt(email: string, at: Time, sourceIp: Option<string>, outcome: Outcome)

  /** What a check asks about: a login identifier or a source address. */
  datatype Subject = Id(email: string) | Ip(address: string)

  predicate About(sub: Subject, row: Attempt) {
    match sub
    case Id(email) => row.email == email
    case Ip(address) => row.sourceIp == Some(address)
  }

  predicate IsFailure(sub: Subject, row: Attempt) {
    About(sub, row) && row.outcome in {BadPassword, UnknownEmail}
  }

  predicate IsMarker(sub: Subject, row: Attempt) {
    About(sub, row) && row.outcome == Locked
  }

  /* ---------- The queries ---------- */

  predicate MarkedSince(rows: seq<Attempt>, sub: Subject, since: Time) {
    exists i | 0 <= i < |rows| :: IsMarker(sub, rows[i]) && rows[i].at >= since
  }

  function FailuresSince(rows: seq<Attempt>, sub: Subject, since: Time): nat {
    if rows == [] then 0
    else
      var last := rows[|rows| - 1];
      FailuresSince(rows[..|rows| - 1], sub, since) + if IsFailure(sub, last) && last.at >= since then 1 else 0
  }

  /** Failures of sub in the closed interval from lo to hi. */
  function FailuresWithin(rows: seq<Attempt>, sub: Subject, lo: Time, hi: Time): nat {
    if rows == [] then 0
    else
      var last := rows[|rows| - 1];
      FailuresWithin(rows[..|rows| - 1], sub, lo, hi) + if IsFailure(sub, last) && lo <= last.at <= hi then 1 else 0
  }

  predicate Refused(rows: seq<Attempt>, sub: Subject, threshold: int, now: Time) {
    MarkedSince(rows, sub, now - LOCK_DURATION) || FailuresSince(rows, sub, now - WINDOW) >= threshold
  }

  /** A refusal that no marker explains yet writes one. */
  function MarkerDue(rows: seq<Attempt>, sub: Subject, now: Time, marker: Attempt): seq<Attempt> {
    if MarkedSince(rows, sub, now - LOCK_DURATION) then [] else [marker]
  }

  predicate HasAddress(ip: Option<string>) {
    ip.Some? && ip.value != ""
  }

  /* ---------- The checks, as they run ---------- */

  class AttemptLog {
    var rows: seq<Attempt>

    constructor ()
      ensures rows == []
    {
      rows := [];
    }

    method RecordAttempt(email: string, outcome: Outcome, sourceIp: Option<string>, now: Time)
      modifies this
      ensures rows == old(rows) + [Attempt(email, now, sourceIp, outcome)]
    {
      rows := rows + [Attempt(email, now, sourceIp, outcome)];
    }

    method IsIpLocked(sourceIp: Option<string>, threshold: int, now: Time) returns (locked: bool)
      modifies this
      ensures locked <==> HasAddress(sourceIp) && Refused(old(rows), Ip(sourceIp.value), threshold, now)
      ensures rows == old(rows) + if locked
                then MarkerDue(old(rows), Ip(sourceIp.value), now, Attempt(IP_LOCK, now, sourceIp, Locked))
                else []
    {
      if !HasAddress(sourceIp) {
        return false;
      }
      var sub := Ip(sourceIp.value);
      if MarkedSince(rows, sub, now - LOCK_DURATION) {
        return true;
      }
      if FailuresSince(rows, sub, now - WINDOW) >= threshold {
        rows := rows + [Attempt(IP_LOCK, now, sourceIp, Locked)];
        return true;
      }
      return false;
    }

    /** The marker carries the clock of its own write, which may be later than now. */
    method IsLocked(email: string, now: Time, writeTime: Time) returns (locked: bool)
      modifies this
      ensures locked <==> Refused(old(rows), Id(email), THRESHOLD, now)
      ensures rows == old(rows) + if locked
                then MarkerDue(old(rows), Id(email), now, Attempt(email, writeTime, None, Locked))
                else []
    {
      if MarkedSince(rows, Id(email), now - LOCK_DURATION) {
        return true;
      }
      if FailuresSince(rows, Id(email), now - WINDOW) >= THRESHOLD {
        RecordAttempt(email, Locked, None, writeTime);
        return true;
      }
      return false;
    }

    method LocalLogin(rq: Request, ipThreshold: int) returns (response: Response)
      modifies this
      ensures (response, rows) == Login(old(rows), ipThreshold, rq)
    {
      assert rows == rows + [];
      if !rq.sourceAllowed {
        return SourceNotAllowed;
      }
      var ipLocked := IsIpLocked(rq.ip, ipThreshold, rq.ipCheckAt);
      if ipLocked {
        return RateLimited;
      }
      assert rows == old(rows);
      var idLocked := IsLocked(rq.email, rq.idCheckAt, rq.writeAt);
      if idLocked {
        return RateLimited;
      }
      match rq.credentials {
        case NoSuchMember =>
          RecordAttempt(rq.email, UnknownEmail, rq.ip, rq.writeAt);
          return InvalidCredentials;
        case NotLocal =>
          RecordAttempt(rq.email, BadPassword, rq.ip, rq.writeAt);
          return InvalidCredentials;
        case MemberDisabled =>
          RecordAttempt(rq.email, Disabled, rq.ip, rq.writeAt);
          return InvalidCredentials;
        case WrongPassword =>
          RecordAttempt(rq.email, BadPassword, rq.ip, rq.writeAt);
          return InvalidCredentials;
        case Correct =>
          RecordAttempt(rq.email, Success, rq.ip, rq.writeAt);
          return LoggedIn;
      }
    }
  }

  /* ---------- One login, and runs of logins ---------- */

  /** What the member table and the password hash say. */
  datatype Credentials = NoSuchMember | NotLocal | MemberDisabled | WrongPassword | Correct

  /** A login, with the three clock readings it makes. */
  datatype Request = Request(
    sourceAllowed: bool, email: string, ip: Option<string>, credentials: Credentials,
    ipCheckAt: Time, idCheckAt: Time, writeAt: Time)

  datatype Response = SourceNotAllowed | RateLimited | InvalidCredentials | LoggedIn

  function OutcomeOf(c: Credentials): Outcome {
    match c
    case NoSuchMember => UnknownEmail
    case NotLocal => BadPassword
    case MemberDisabled => Disabled
    case WrongPassword => BadPassword
    case Correct => Success
  }

  predicate IpRefuses(rows: seq<Attempt>, ipThreshold: int, rq: Request) {
    HasAddress(rq.ip) && Refused(rows, Ip(rq.ip.value), ipThreshold, rq.ipCheckAt)
  }

  predicate IdRefuses(rows: seq<Attempt>, rq: Request) {
    Refused(rows, Id(rq.email), THRESHOLD, rq.idCheckAt)
  }

  /** The rows a login appends: at most one. */
  function Appended(rows: seq<Attempt>, ipThreshold: int, rq: Request): (r: seq<Attempt>)
    ensures |r| <= 1
  {
    if !rq.sourceAllowed then []
    else if IpRefuses(rows, ipThreshold, rq) then
      MarkerDue(rows, Ip(rq.ip.value), rq.ipCheckAt, Attempt(IP_LOCK, rq.ipCheckAt, rq.ip, Locked))
    else if IdRefuses(rows, rq) then
      MarkerDue(rows, Id(rq.email), rq.idCheckAt, Attempt(rq.email, rq.writeAt, None, Locked))
    else [Attempt(rq.email, rq.writeAt, rq.ip, OutcomeOf(rq.credentials))]
  }

  function Login(rows: seq<Attempt>, ipThreshold: int, rq: Request): (Response, seq<Attempt>) {
    var response :=
      if !rq.sourceAllowed then SourceNotAllowed
      else if IpRefuses(rows, ipThreshold, rq) || IdRefuses(rows, rq) then RateLimited
      else if rq.credentials.Correct? then LoggedIn
      else InvalidCredentials;
    (response, rows + Appended(rows, ipThreshold, rq))
  }

  /** The log after a run of logins. */
  function Log(ipThreshold: int, run: seq<Request>): seq<Attempt> {
    if run == [] then []
    else Login(Log(ipThreshold, run[..|run| - 1]), ipThreshold, run[|run| - 1]).1
  }

  /** The clock never runs backwards, within a login or between logins. */
  predicate Clocked(run: seq<Request>) {
    && (forall i | 0 <= i < |run| :: run[i].ipCheckAt <= run[i].idCheckAt <= run[i].writeAt)
    && (forall i, j | 0 <= i < j < |run| :: run[i].writeAt <= run[j].ipCheckAt)
  }

  /** now is not before anything in the run. */
  predicate After(run: seq<Request>, now: Time) {
    forall i | 0 <= i < |run| :: run[i].writeAt <= now
  }

  lemma ClockedPrefix(run: seq<Request>)
    requires Clocked(run) && run != []
    ensures Clocked(run[..|run| - 1]) && After(run[..|run| - 1], run[|run| - 1].ipCheckAt)
  {
  }

  /** The identifier or address of sub, checked against its threshold. A real
      address, and any identifier but the one address markers are filed under. */
  predicate Regular(sub: Subject) {
    match sub
    case Id(email) => email != IP_LOCK
    case Ip(address) => address != ""
  }

  function ThresholdOf(sub: Subject, ipThreshold: int): int {
    if sub.Id? then THRESHOLD else ipThreshold
  }

  /** The row a login appends about sub was written with sub's own check passed, or
      it is the marker of that check. */
  lemma AppendedWasChecked(rows: seq<Attempt>, ipThreshold: int, rq: Request, sub: Subject) returns (checkedAt: Time)
    requires rq.ipCheckAt <= rq.idCheckAt <= rq.writeAt
    requires sub.Ip? ==> sub.address != ""
    ensures rq.ipCheckAt <= checkedAt <= rq.writeAt
    ensures var app := Appended(rows, ipThreshold, rq);
      app != [] ==>
        && checkedAt <= app[0].at <= rq.writeAt
        && (IsFailure(sub, app[0]) ==> !Refused(rows, sub, ThresholdOf(sub, ipThreshold), checkedAt))
        && (IsMarker(sub, app[0]) && Regular(sub) ==>
              && !MarkedSince(rows, sub, checkedAt - LOCK_DURATION)
              && FailuresSince(rows, sub, checkedAt - WINDOW) >= ThresholdOf(sub, ipThreshold))
  {
    if IpRefuses(rows, ipThreshold, rq) || sub.Ip? {
      checkedAt := rq.ipCheckAt;
    } else {
      checkedAt := rq.idCheckAt;
    }
  }

  /* ---------- Who gets in ---------- */

  /** A login succeeds if and only if its source is allowed, neither check refuses, and
      the credentials are correct; it then leaves exactly one row, a success. */
  lemma LoggedInExactly(rows: seq<Attempt>, ipThreshold: int, rq: Request)
    ensures var (response, rows') := Login(rows, ipThreshold, rq);
      && (response == LoggedIn <==>
            rq.sourceAllowed && !IpRefuses(rows, ipThreshold, rq) && !IdRefuses(rows, rq) && rq.credentials == Correct)
      && (response == LoggedIn ==> rows' == rows + [Attempt(rq.email, rq.writeAt, rq.ip, Success)])
  {
  }

  /** Every other answer, and what it leaves in the log: a disabled member's attempt is
      not a failure that counts, all other wrong ones are. */
  lemma OtherAnswers(rows: seq<Attempt>, ipThreshold: int, rq: Request)
    ensures var (response, rows') := Login(rows, ipThreshold, rq);
      && (response == SourceNotAllowed <==> !rq.sourceAllowed)
      && (response == SourceNotAllowed ==> rows' == rows)
      && (response == RateLimited <==> rq.sourceAllowed && (IpRefuses(rows, ipThreshold, rq) || IdRefuses(rows, rq)))
      && (response == RateLimited ==> rows <= rows' && forall r | r in rows'[|rows|..] :: r.outcome == Locked)
      && (response == InvalidCredentials ==>
            && rq.credentials != Correct
            && exists outcome ::
                 && rows' == rows + [Attempt(rq.email, rq.writeAt, rq.ip, outcome)]
                 && (outcome == UnknownEmail <==> rq.credentials == NoSuchMember)
                 && (outcome == Disabled <==> rq.credentials == MemberDisabled)
                 && (outcome == BadPassword <==> rq.credentials in {NotLocal, WrongPassword}))
  {
    if Login(rows, ipThreshold, rq).0 == InvalidCredentials {
      assert Login(rows, ipThreshold, rq).1 == rows + [Attempt(rq.email, rq.writeAt, rq.ip, OutcomeOf(rq.credentials))];
    }
  }

  /* ---------- Never more failures than the threshold ---------- */

  lemma {:induction false} WithinLeSince(rows: seq<Attempt>, sub: Subject, lo: Time, hi: Time, since: Time)
    requires since <= lo
    ensures FailuresWithin(rows, sub, lo, hi) <= FailuresSince(rows, sub, since)
  {
    if rows == [] {
    } else {
      WithinLeSince(rows[..|rows| - 1], sub, lo, hi, since);
    }
  }

  function Max0(n: int): nat {
    if n > 0 then n else 0
  }

  /** Over every run, any closed window of 60 seconds holds at most five counted
      failures for one identifier, and at most the per-address threshold for one
      source address (none when that threshold is not positive). */
  lemma {:induction false} WindowBound(ipThreshold: int, run: seq<Request>, sub: Subject, lo: Time)
    requires Clocked(run) && (sub.Ip? ==> sub.address != "")
    ensures FailuresWithin(Log(ipThreshold, run), sub, lo, lo + 60_000_000) <= Max0(if sub.Id? then 5 else ipThreshold)
  {
    if run == [] {
    } else {
      var rq := run[|run| - 1];
      var rows := Log(ipThreshold, run[..|run| - 1]);
      ClockedPrefix(run);
      WindowBound(ipThreshold, run[..|run| - 1], sub, lo);
      var app := Appended(rows, ipThreshold, rq);
      var checkedAt := AppendedWasChecked(rows, ipThreshold, rq, sub);
      if app == [] {
        assert rows + app == rows;
      } else {
        assert (rows + app)[..|rows|] == rows;
        WithinLeSinceWhenLate(rows, sub, lo, checkedAt, app[0].at);
      }
    }
  }

  lemma WithinLeSinceWhenLate(rows: seq<Attempt>, sub: Subject, lo: Time, checkedAt: Time, at: Time)
    requires checkedAt <= at
    ensures lo <= at <= lo + WINDOW ==>
      FailuresWithin(rows, sub, lo, lo + WINDOW) <= FailuresSince(rows, sub, checkedAt - WINDOW)
  {
    if at <= lo + WINDOW {
      WithinLeSince(rows, sub, lo, lo + WINDOW, checkedAt - WINDOW);
    }
  }

  /* ---------- Guesses ---------- */

  /** The request is about sub, and its credentials would not let it in. */
  predicate IsGuess(sub: Subject, rq: Request) {
    && (match sub
        case Id(email) => rq.email == email
        case Ip(address) => rq.ip == Some(address))
    && rq.credentials in {NoSuchMember, NotLocal, WrongPassword}
  }

  /** How many guesses between lo and hi were really tried: answered neither by the
      source policy nor by a lock. */
  function GuessesTried(ipThreshold: int, run: seq<Request>, sub: Subject, lo: Time, hi: Time): nat {
    if run == [] then 0
    else
      var front, rq := run[..|run| - 1], run[|run| - 1];
      var response := Login(Log(ipThreshold, front), ipThreshold, rq).0;
      GuessesTried(ipThreshold, front, sub, lo, hi)
        + if IsGuess(sub, rq) && lo <= rq.writeAt <= hi && response !in {SourceNotAllowed, RateLimited} then 1 else 0
  }

  lemma GuessIsRecorded(rows: seq<Attempt>, ipThreshold: int, rq: Request, sub: Subject)
    requires IsGuess(sub, rq) && Login(rows, ipThreshold, rq).0 !in {SourceNotAllowed, RateLimited}
    ensures var app := Appended(rows, ipThreshold, rq);
      |app| == 1 && IsFailure(sub, app[0]) && app[0].at == rq.writeAt
  {
  }

  lemma WithinOneMore(rows: seq<Attempt>, app: seq<Attempt>, sub: Subject, lo: Time, hi: Time)
    requires |app| <= 1
    ensures FailuresWithin(rows + app, sub, lo, hi) ==
      FailuresWithin(rows, sub, lo, hi) + if app != [] && IsFailure(sub, app[0]) && lo <= app[0].at <= hi then 1 else 0
  {
    if app == [] {
      assert rows + app == rows;
    } else {
      assert (rows + app)[..|rows|] == rows;
    }
  }

  lemma {:induction false} GuessesAreCounted(ipThreshold: int, run: seq<Request>, sub: Subject, lo: Time, hi: Time)
    ensures GuessesTried(ipThreshold, run, sub, lo, hi) <= FailuresWithin(Log(ipThreshold, run), sub, lo, hi)
  {
    if run == [] {
    } else {
      var front, rq := run[..|run| - 1], run[|run| - 1];
      var rows := Log(ipThreshold, front);
      GuessesAreCounted(ipThreshold, front, sub, lo, hi);
      WithinOneMore(rows, Appended(rows, ipThreshold, rq), sub, lo, hi);
      if IsGuess(sub, rq) && Login(rows, ipThreshold, rq).0 !in {SourceNotAllowed, RateLimited} {
        GuessIsRecorded(rows, ipThreshold, rq, sub);
      }
    }
  }

  /** In every run any closed window of 60 seconds holds at most five guesses at one
      identifier that are really tried, and from one address at most its threshold. */
  lemma GuessesBounded(ipThreshold: int, run: seq<Request>, sub: Subject, lo: Time)
    requires Clocked(run) && (sub.Ip? ==> sub.address != "")
    ensures GuessesTried(ipThreshold, run, sub, lo, lo + 60_000_000) <= Max0(if sub.Id? then 5 else ipThreshold)
  {
    GuessesAreCounted(ipThreshold, run, sub, lo, lo + 60_000_000);
    WindowBound(ipThreshold, run, sub, lo);
  }

  /* ---------- A lock lasts exactly its duration ---------- */

  ghost predicate Chronological(rows: seq<Attempt>, now: Time) {
    && (forall i | 0 <= i < |rows| :: rows[i].at <= now)
    && (forall i, j | 0 <= i <= j < |rows| :: rows[i].at <= rows[j].at)
  }

  lemma {:induction false} LogIsChronological(ipThreshold: int, run: seq<Request>, now: Time)
    requires Clocked(run) && After(run, now)
    ensures Chronological(Log(ipThreshold, run), now)
  {
    if run == [] {
    } else {
      var rq := run[|run| - 1];
      var rows := Log(ipThreshold, run[..|run| - 1]);
      ClockedPrefix(run);
      LogIsChronological(ipThreshold, run[..|run| - 1], rq.ipCheckAt);
      var app := Appended(rows, ipThreshold, rq);
      var checkedAt := AppendedWasChecked(rows, ipThreshold, rq, Id(rq.email));
      assert rq.writeAt <= now;
    }
  }

  /** After a marker for sub, the next counted failure or marker for sub comes only
      when the lock is over. */
  ghost predicate LockGap(rows: seq<Attempt>, sub: Subject) {
    forall i, j |
      0 <= i < j < |rows| && IsMarker(sub, rows[i]) && (IsFailure(sub, rows[j]) || IsMarker(sub, rows[j])) ::
      rows[j].at > rows[i].at + LOCK_DURATION
  }

  lemma {:induction false} NothingCountsWhileLocked(ipThreshold: int, run: seq<Request>, sub: Subject)
    requires Clocked(run) && Regular(sub)
    ensures LockGap(Log(ipThreshold, run), sub)
  {
    if run == [] {
    } else {
      var rq := run[|run| - 1];
      var rows := Log(ipThreshold, run[..|run| - 1]);
      ClockedPrefix(run);
      NothingCountsWhileLocked(ipThreshold, run[..|run| - 1], sub);
      var app := Appended(rows, ipThreshold, rq);
      var checkedAt := AppendedWasChecked(rows, ipThreshold, rq, sub);
    }
  }

  lemma {:induction false} NoRecentFailures(rows: seq<Attempt>, sub: Subject, since: Time)
    requires forall i | 0 <= i < |rows| && IsFailure(sub, rows[i]) :: rows[i].at < since
    ensures FailuresSince(rows, sub, since) == 0
  {
    if rows == [] {
    } else {
      NoRecentFailures(rows[..|rows| - 1], sub, since);
    }
  }

  /** While a marker is the last word on sub, sub is refused up to and including the
      instant fifteen minutes after it, and not refused from then on. */
  lemma LockLastsExactly(ipThreshold: int, run: seq<Request>, sub: Subject, i: nat, now: Time)
    requires Clocked(run) && After(run, now) && ThresholdOf(sub, ipThreshold) > 0
    requires var rows := Log(ipThreshold, run);
      && i < |rows| && IsMarker(sub, rows[i])
      && forall j | i < j < |rows| :: !IsFailure(sub, rows[j]) && !IsMarker(sub, rows[j])
    ensures var rows := Log(ipThreshold, run);
      Refused(rows, sub, ThresholdOf(sub, ipThreshold), now) <==> now <= rows[i].at + 900_000_000
  {
    var rows := Log(ipThreshold, run);
    LogIsChronological(ipThreshold, run, now);
    if now <= rows[i].at + LOCK_DURATION {
      assert rows[i].at >= now - LOCK_DURATION;
    } else {
      forall k | 0 <= k < |rows| && (IsFailure(sub, rows[k]) || IsMarker(sub, rows[k]))
        ensures rows[k].at < now - LOCK_DURATION
      {
        assert k <= i;
      }
      NoRecentFailures(rows, sub, now - WINDOW);
    }
  }

  /** While sub is marked, a login about it is refused and writes nothing about it. */
  lemma LockedLoginLeavesNoTrace(rows: seq<Attempt>, ipThreshold: int, rq: Request, sub: Subject)
    requires Regular(sub) && rq.sourceAllowed
    requires match sub
      case Id(email) => rq.email == email && MarkedSince(rows, sub, rq.idCheckAt - LOCK_DURATION)
      case Ip(address) => rq.ip == Some(address) && MarkedSince(rows, sub, rq.ipCheckAt - LOCK_DURATION)
    ensures var (response, rows') := Login(rows, ipThreshold, rq);
      response == RateLimited && forall r | r in rows'[|rows|..] :: !About(sub, r)
  {
  }

  /* ---------- Locks are earned ---------- */

  lemma {:induction false} SinceIsWithin(rows: seq<Attempt>, sub: Subject, lo: Time, hi: Time)
    requires forall i | 0 <= i < |rows| :: rows[i].at <= hi
    ensures FailuresSince(rows, sub, lo) == FailuresWithin(rows, sub, lo, hi)
  {
    if rows == [] {
    } else {
      SinceIsWithin(rows[..|rows| - 1], sub, lo, hi);
    }
  }

  /** Failures of sub in the window that ends at t. */
  function FailuresUpTo(rows: seq<Attempt>, sub: Subject, t: Time): nat {
    FailuresWithin(rows, sub, t - WINDOW, t)
  }

  /** Row j is a marker of sub that exactly `threshold` counted failures, all in one
      window before it, have earned. */
  ghost predicate Earned(rows: seq<Attempt>, sub: Subject, threshold: int, j: nat)
    requires j < |rows|
  {
    exists t :: t <= rows[j].at && FailuresUpTo(rows[..j], sub, t) == threshold
  }

  /** Nobody is locked out who has not failed as often as the threshold says, and
      the lock falls at exactly that many failures. */
  lemma {:induction false} LocksAreEarned(ipThreshold: int, run: seq<Request>, sub: Subject, j: nat)
    requires Clocked(run) && Regular(sub) && ThresholdOf(sub, ipThreshold) > 0
    requires j < |Log(ipThreshold, run)| && IsMarker(sub, Log(ipThreshold, run)[j])
    ensures Earned(Log(ipThreshold, run), sub, ThresholdOf(sub, ipThreshold), j)
  {
    var before := run[..|run| - 1];
    var rq := run[|run| - 1];
    var rows := Log(ipThreshold, before);
    var all := Log(ipThreshold, run);
    ClockedPrefix(run);
    if j < |rows| {
      LocksAreEarned(ipThreshold, before, sub, j);
      assert rows[j] == all[j] && rows[..j] == all[..j];
    } else {
      var t := AppendedWasChecked(rows, ipThreshold, rq, sub);
      assert all[..j] == rows;
      LogIsChronological(ipThreshold, before, rq.ipCheckAt);
      SinceIsWithin(rows, sub, t - WINDOW, t);
      WindowBound(ipThreshold, before, sub, t - WINDOW);
      assert FailuresUpTo(all[..j], sub, t) == ThresholdOf(sub, ipThreshold);
    }
  }

  /* ---------- The two kinds of lock do not meet ---------- */

  predicate IsIpMarker(row: Attempt) {
    row.outcome == Locked && row.email == IP_LOCK && row.sourceIp.Some?
  }

  predicate IsIdMarker(row: Attempt) {
    row.outcome == Locked && row.sourceIp.None?
  }

  function Without(rows: seq<Attempt>, ipMarkers: bool): seq<Attempt> {
    if rows == [] then []
    else
      var last := rows[|rows| - 1];
      var drop := if ipMarkers then IsIpMarker(last) else IsIdMarker(last);
      Without(rows[..|rows| - 1], ipMarkers) + if drop then [] else [last]
  }

  lemma {:induction false} DroppedRowsDoNotCount(rows: seq<Attempt>, sub: Subject, since: Time, ipMarkers: bool)
    requires if ipMarkers then sub.Id? && sub.email != IP_LOCK else sub.Ip?
    ensures var kept := Without(rows, ipMarkers);
      && MarkedSince(kept, sub, since) == MarkedSince(rows, sub, since)
      && FailuresSince(kept, sub, since) == FailuresSince(rows, sub, since)
  {
    if rows == [] {
    } else {
      var front, last := rows[..|rows| - 1], rows[|rows| - 1];
      DroppedRowsDoNotCount(front, sub, since, ipMarkers);
      OneMore(front, last, sub, since);
      assert rows == front + [last];
      var kept := Without(front, ipMarkers);
      if if ipMarkers then IsIpMarker(last) else IsIdMarker(last) {
        assert kept + [] == kept;
      } else {
        OneMore(kept, last, sub, since);
      }
    }
  }

  lemma OneMore(rows: seq<Attempt>, last: Attempt, sub: Subject, since: Time)
    ensures MarkedSince(rows + [last], sub, since) <==>
      MarkedSince(rows, sub, since) || (IsMarker(sub, last) && last.at >= since)
    ensures FailuresSince(rows + [last], sub, since) ==
      FailuresSince(rows, sub, since) + if IsFailure(sub, last) && last.at >= since then 1 else 0
  {
    var all := rows + [last];
    assert all[..|rows|] == rows;
    if MarkedSince(rows, sub, since) {
      var i :| 0 <= i < |rows| && IsMarker(sub, rows[i]) && rows[i].at >= since;
      assert all[i] == rows[i];
    }
    if IsMarker(sub, last) && last.at >= since {
      assert all[|rows|] == last;
    }
  }

  /** Address markers never change the verdict on an identifier other than the one
      they are filed under, and identifier markers never change the verdict on an
      address. */
  lemma MarkersDoNotCross(rows: seq<Attempt>, sub: Subject, threshold: int, now: Time)
    requires Regular(sub)
    ensures Refused(rows, sub, threshold, now) == Refused(Without(rows, sub.Id?), sub, threshold, now)
  {
    DroppedRowsDoNotCount(rows, sub, now - LOCK_DURATION, sub.Id?);
    DroppedRowsDoNotCount(rows, sub, now - WINDOW, sub.Id?);
  }

  /** The identifier address markers are filed under is the exception: in any log, any
      address marker no older than a lock refuses it, whatever its own failures. */
  lemma IpLockIdentifierIsShared(rows: seq<Attempt>, i: nat, now: Time)
    requires i < |rows| && IsIpMarker(rows[i]) && rows[i].at >= now - LOCK_DURATION
    ensures Refused(rows, Id(IP_LOCK), THRESHOLD, now)
  {
    assert IsMarker(Id(IP_LOCK), rows[i]);
  }

  /** So a correct login of that name that comes after the lock of some address, from
      anywhere and without a failure of its own, is refused. */
  lemma InnocentIsLockedOut(ipThreshold: int, run: seq<Request>, i: nat, rq: Request)
    requires var rows := Log(ipThreshold, run);
      i < |rows| && IsIpMarker(rows[i]) && rows[i].at >= rq.idCheckAt - LOCK_DURATION
    requires rq.sourceAllowed && rq.email == IP_LOCK && rq.credentials.Correct?
    ensures Login(Log(ipThreshold, run), ipThreshold, rq).0 == RateLimited
  {
    IpLockIdentifierIsShared(Log(ipThreshold, run), i, rq.idCheckAt);
  }
  /** Names that differ from one another and from the shared identifier. */
  function Stranger(i: nat): (name: string)
    ensures |name| == i + 10
  {
    seq(i + 10, _ => 'x')
  }

  function StrangerFails(i: nat, address: string): Request {
    Request(true, Stranger(i), Some(address), NoSuchMember, 0, 0, 0)
  }

  /** n logins under different unknown names from one address, all at once. */
  function Strangers(n: nat, address: string): (run: seq<Request>)
    ensures |run| == n
  {
    seq(n, i requires 0 <= i < n => StrangerFails(i, address))
  }

  function StrangerRow(i: nat, address: string): Attempt {
    Attempt(Stranger(i), 0, Some(address), UnknownEmail)
  }

  function StrangerRows(n: nat, address: string): (rows: seq<Attempt>)
    ensures |rows| == n
  {
    seq(n, i requires 0 <= i < n => StrangerRow(i, address))
  }

  lemma OneMoreStranger(n: nat, address: string)
    ensures StrangerRows(n + 1, address) == StrangerRows(n, address) + [StrangerRow(n, address)]
    ensures Strangers(n + 1, address)[..n] == Strangers(n, address)
    ensures Strangers(n + 1, address)[n] == StrangerFails(n, address)
  {
  }

  lemma NoRowAbout(rows: seq<Attempt>, sub: Subject, since: Time)
    requires forall i | 0 <= i < |rows| :: !About(sub, rows[i])
    ensures FailuresSince(rows, sub, since) == 0 && !MarkedSince(rows, sub, since)
  {
    NoRecentFailures(rows, sub, since);
  }

  lemma StrangerIsNew(n: nat, address: string)
    ensures !IdRefuses(StrangerRows(n, address), StrangerFails(n, address))
  {
    var rows := StrangerRows(n, address);
    forall i | 0 <= i < n ensures !About(Id(Stranger(n)), rows[i]) {
      assert |Stranger(i)| != |Stranger(n)|;
    }
    NoRowAbout(rows, Id(Stranger(n)), -LOCK_DURATION);
    NoRowAbout(rows, Id(Stranger(n)), -WINDOW);
  }

  lemma {:induction false} StrangersCount(n: nat, address: string)
    ensures FailuresSince(StrangerRows(n, address), Ip(address), -WINDOW) == n
  {
    if n == 0 {
    } else {
      StrangersCount(n - 1, address);
      OneMoreStranger(n - 1, address);
      OneMore(StrangerRows(n - 1, address), StrangerRow(n - 1, address), Ip(address), -WINDOW);
    }
  }

  /** The address is refused exactly from the threshold on. */
  lemma StrangersRefused(threshold: nat, n: nat, address: string)
    requires address != ""
    ensures !MarkedSince(StrangerRows(n, address), Ip(address), -LOCK_DURATION)
    ensures IpRefuses(StrangerRows(n, address), threshold, StrangerFails(n, address)) <==> n >= threshold
  {
    StrangersCount(n, address);
  }

  /** As many failures as the threshold allows are all recorded. */
  lemma {:induction false} StrangersAreLogged(threshold: nat, n: nat, address: string)
    requires n <= threshold && address != ""
    ensures Log(threshold, Strangers(n, address)) == StrangerRows(n, address)
  {
    if n == 0 {
    } else {
      StrangersAreLogged(threshold, n - 1, address);
      StrangersRefused(threshold, n - 1, address);
      StrangerIsNew(n - 1, address);
      OneMoreStranger(n - 1, address);
      LogStep(threshold, Strangers(n, address), StrangerRows(n - 1, address), [StrangerRow(n - 1, address)]);
    }
  }

  lemma LogStep(threshold: nat, run: seq<Request>, rows: seq<Attempt>, appended: seq<Attempt>)
    requires run != [] && Log(threshold, run[..|run| - 1]) == rows
    requires Appended(rows, threshold, run[|run| - 1]) == appended
    ensures Log(threshold, run) == rows + appended
  {
  }

  /** One more locks the address. */
  lemma StrangersLock(threshold: nat, address: string)
    requires address != ""
    ensures Log(threshold, Strangers(threshold + 1, address)) ==
      StrangerRows(threshold, address) + [Attempt(IP_LOCK, 0, Some(address), Locked)]
  {
    StrangersAreLogged(threshold, threshold, address);
    StrangersRefused(threshold, threshold, address);
    OneMoreStranger(threshold, address);
    var marker := Attempt(IP_LOCK, 0, Some(address), Locked);
    LogStep(threshold, Strangers(threshold + 1, address), StrangerRows(threshold, address), [marker]);
  }

  /** All of them come at once from that address, and none uses the shared name. */
  ghost predicate OnlyStrangers(run: seq<Request>, address: string) {
    && Clocked(run)
    && forall i | 0 <= i < |run| :: run[i].email != IP_LOCK && run[i].ip == Some(address)
  }

  lemma StrangersAreOnly(n: nat, address: string)
    ensures OnlyStrangers(Strangers(n, address), address)
  {
    forall i | 0 <= i < n ensures Stranger(i) != IP_LOCK {
      assert |Stranger(i)| != |IP_LOCK|;
    }
  }

  /** For every threshold there is such a run: nobody in it uses the shared name, one
      address is locked, and a correct login of that name from any other address is
      refused for as long as the lock lasts. */
  lemma StrangersLockOutInnocent(threshold: nat, address: string, rq: Request)
    requires address != "" && rq.ip != Some(address) && rq.idCheckAt <= LOCK_DURATION
    requires rq.sourceAllowed && rq.email == IP_LOCK && rq.credentials.Correct?
    ensures OnlyStrangers(Strangers(threshold + 1, address), address)
    ensures Login(Log(threshold, Strangers(threshold + 1, address)), threshold, rq).0 == RateLimited
  {
    StrangersAreOnly(threshold + 1, address);
    StrangersLock(threshold, address);
    InnocentIsLockedOut(threshold, Strangers(threshold + 1, address), threshold, rq);
  }
}
