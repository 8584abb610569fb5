/** src/ai_api/auth/sessions.py: cookie sessions with an absolute lifetime, an idle
    limit, and a member who may be disabled. Tokens stand for their fingerprints. */
module Sessions {
  import opened Common

  /** Microseconds. */
  type Time = int

  const HOUR: int := 3600 * 1_000_000
  const DEFAULT_LIFETIME: int := 24 * HOUR
  const DEFAULT_IDLE: int := 2 * HOUR

  datatype Status = Active | Revoked(at: Time, reason: string)

  datatype Session = Session(
    memberId: string, createdAt: Time, lastSeenAt: Time, expiresAt: Time, idleTimeoutAt: Time, status: Status)

  datatype MemberStatus = Enabled | Disabled

  /** The sessions table and the status column of the members table. */
  datatype Store = Store(sessions: map<string, Session>, members: map<string, MemberStatus>) {
    /** The foreign key from sessions to members. */
    predicate Valid() {
      forall t | t in sessions :: sessions[t].memberId in members
    }
  }

  /* ---------- What each operation does to the tables ---------- */

  predicate Accepts(st: Store, token: string, now: Time)
    requires st.Valid()
  {
    && token != ""
    && token in st.sessions
    && var s := st.sessions[token];
       s.status.Active? && now < s.expiresAt && now < s.idleTimeoutAt && st.members[s.memberId].Enabled?
  }

  /** A session that was alive but for its member is revoked by the look at it. */
  predicate DiesOnSight(st: Store, token: string, now: Time)
    requires st.Valid()
  {
    && token != ""
    && token in st.sessions
    && var s := st.sessions[token];
       s.status.Active? && now < s.expiresAt && now < s.idleTimeoutAt && !st.members[s.memberId].Enabled?
  }

  function AfterValidate(st: Store, token: string, now: Time): Store
    requires st.Valid()
  {
    if Accepts(st, token, now) then
      st.(sessions := st.sessions[token := st.sessions[token].(lastSeenAt := now, idleTimeoutAt := now + DEFAULT_IDLE)])
    else if DiesOnSight(st, token, now) then
      st.(sessions := st.sessions[token := st.sessions[token].(status := Revoked(now, "member_disabled"))])
    else st
  }

  function AfterCreate(st: Store, token: string, memberId: string, now: Time, lifetime: int, idle: int): Store {
    if token in st.sessions || memberId !in st.members then st
    else st.(sessions := st.sessions[token := Session(memberId, now, now, now + lifetime, now + idle, Active)])
  }

  function RevokedIf(s: Session, hit: bool, now: Time, reason: string): Session {
    if hit && s.status.Active? then s.(status := Revoked(now, reason)) else s
  }

  function AfterRevoke(st: Store, token: string, now: Time, reason: string): Store {
    st.(sessions := map t | t in st.sessions :: RevokedIf(st.sessions[t], t == token, now, reason))
  }

  function AfterRevokeAll(st: Store, memberId: string, now: Time, reason: string): Store {
    st.(sessions := map t | t in st.sessions ::
      RevokedIf(st.sessions[t], st.sessions[t].memberId == memberId, now, reason))
  }

  function ActiveOf(st: Store, memberId: string): set<string> {
    set t | t in st.sessions && st.sessions[t].memberId == memberId && st.sessions[t].status.Active?
  }

  /** MemberService.update: a change to disabled revokes the member's sessions. */
  function AfterMemberUpdate(st: Store, memberId: string, status: MemberStatus, now: Time): Store {
    if memberId !in st.members || st.members[memberId] == status then st
    else
      var changed := st.(members := st.members[memberId := status]);
      if status.Disabled? then AfterRevokeAll(changed, memberId, now, "member_disabled") else changed
  }

  /* ---------- The service ---------- */

  datatype IssueResult = Issued(expiresAt: Time) | IntegrityError

  class SessionService {
    var st: Store

    constructor (members: map<string, MemberStatus>)
      ensures st == Store(map[], members) && st.Valid()
    {
      st := Store(map[], members);
    }

    /** A drawn token that is already filed, or an unknown member, breaks a key. */
    method CreateSession(
        token: string, memberId: string, now: Time, lifetime: int := DEFAULT_LIFETIME, idle: int := DEFAULT_IDLE)
      returns (r: IssueResult)
      requires st.Valid()
      modifies this
      ensures st.Valid() && st == AfterCreate(old(st), token, memberId, now, lifetime, idle)
      ensures r ==
        if token in old(st).sessions || memberId !in old(st).members then IntegrityError else Issued(now + lifetime)
      ensures r.Issued? ==>
        && st.members == old(st).members
        && st.sessions == old(st).sessions[token := Session(memberId, now, now, now + lifetime, now + idle, Active)]
    {
      if token in st.sessions || memberId !in st.members {
        return IntegrityError;
      }
      var record := Session(memberId, now, now, now + lifetime, now + idle, Active);
      st := st.(sessions := st.sessions[token := record]);
      return Issued(record.expiresAt);
    }

    /** Only an enabled member comes back; the look renews the idle limit, or revokes a
        session that fails for its member alone. */
    method ValidateSession(token: string, now: Time) returns (memberId: Option<string>)
      requires st.Valid()
      modifies this
      ensures st.Valid() && st == AfterValidate(old(st), token, now)
      ensures memberId == if Accepts(old(st), token, now) then Some(old(st).sessions[token].memberId) else None
      ensures memberId.Some? ==> memberId.value in st.members && st.members[memberId.value] == Enabled
    {
      if token == "" || token !in st.sessions {
        return None;
      }
      var record := st.sessions[token];
      if !record.status.Active? {
        return None;
      }
      if record.expiresAt <= now || record.idleTimeoutAt <= now {
        return None;
      }
      if !st.members[record.memberId].Enabled? {
        st := st.(sessions := st.sessions[token := record.(status := Revoked(now, "member_disabled"))]);
        return None;
      }
      record := record.(lastSeenAt := now, idleTimeoutAt := now + DEFAULT_IDLE);
      st := st.(sessions := st.sessions[token := record]);
      return Some(record.memberId);
    }

    method RevokeSession(token: string, now: Time, reason: string)
      requires st.Valid()
      modifies this
      ensures st.Valid() && st == AfterRevoke(old(st), token, now, reason)
    {
      if token in st.sessions && st.sessions[token].status.Active? {
        st := st.(sessions := st.sessions[token := st.sessions[token].(status := Revoked(now, reason))]);
      }
      assert st.sessions == AfterRevoke(old(st), token, now, reason).sessions;
    }

    /** Returns the number of rows the update hit. */
    method RevokeAllForMember(memberId: string, now: Time, reason: string) returns (count: nat)
      requires st.Valid()
      modifies this
      ensures st.Valid() && st == AfterRevokeAll(old(st), memberId, now, reason)
      ensures count == |ActiveOf(old(st), memberId)| && ActiveOf(st, memberId) == {}
    {
      count := |ActiveOf(st, memberId)|;
      st := AfterRevokeAll(st, memberId, now, reason);
    }
  }

  /* ---------- Runs ---------- */

  /** RawMemberStatus is any other writer of the status column. */
  datatype Op =
    | Create(now: Time, token: string, memberId: string, lifetime: int, idle: int)
    | Validate(now: Time, token: string)
    | Logout(now: Time, token: string)
    | RevokeAll(now: Time, memberId: string, reason: string)
    | UpdateMember(now: Time, memberId: string, status: MemberStatus)
    | RawMemberStatus(now: Time, memberId: string, status: MemberStatus)

  function Step(st: Store, op: Op): (st': Store)
    requires st.Valid()
    ensures st'.Valid()
  {
    match op
    case Create(now, token, memberId, lifetime, idle) => AfterCreate(st, token, memberId, now, lifetime, idle)
    case Validate(now, token) => AfterValidate(st, token, now)
    case Logout(now, token) => AfterRevoke(st, token, now, "logout")
    case RevokeAll(now, memberId, reason) => AfterRevokeAll(st, memberId, now, reason)
    case UpdateMember(now, memberId, status) => AfterMemberUpdate(st, memberId, status, now)
    case RawMemberStatus(now, memberId, status) =>
      if memberId in st.members then st.(members := st.members[memberId := status]) else st
  }

  function Run(st: Store, ops: seq<Op>): (st': Store)
    requires st.Valid()
    ensures st'.Valid()
  {
    if ops == [] then st else Step(Run(st, ops[..|ops| - 1]), ops[|ops| - 1])
  }

  /** The clock of the run, from a start to an end, never runs backwards. */
  predicate Clocked(from: Time, ops: seq<Op>, to: Time) {
    && from <= to
    && (forall i | 0 <= i < |ops| :: from <= ops[i].now <= to)
    && (forall i, j | 0 <= i <= j < |ops| :: ops[i].now <= ops[j].now)
  }

  lemma ClockedPrefix(from: Time, ops: seq<Op>, to: Time)
    requires Clocked(from, ops, to) && ops != []
    ensures Clocked(from, ops[..|ops| - 1], ops[|ops| - 1].now) && ops[|ops| - 1].now <= to
  {
  }

  /* ---------- Rejection is for ever ---------- */

  predicate Dead(st: Store, token: string, now: Time) {
    && token in st.sessions
    && var s := st.sessions[token];
       !s.status.Active? || s.expiresAt <= now || s.idleTimeoutAt <= now
  }

  lemma DeadStaysDead(st: Store, op: Op, token: string, since: Time)
    requires st.Valid() && Dead(st, token, since) && since <= op.now
    ensures Dead(Step(st, op), token, op.now)
  {
  }

  lemma {:induction false} DeadThroughRun(st: Store, token: string, since: Time, ops: seq<Op>, now: Time)
    requires st.Valid() && Dead(st, token, since) && Clocked(since, ops, now)
    ensures Dead(Run(st, ops), token, now)
  {
    if ops == [] {
    } else {
      ClockedPrefix(since, ops, now);
      var last := ops[|ops| - 1];
      DeadThroughRun(st, token, since, ops[..|ops| - 1], last.now);
      DeadStaysDead(Run(st, ops[..|ops| - 1]), last, token, last.now);
    }
  }

  /** A stored session that was rejected once is rejected at every later time,
      whatever happens in between, its member's re-enabling included. */
  lemma RejectedForEver(st: Store, token: string, since: Time, ops: seq<Op>, now: Time)
    requires st.Valid() && token != "" && token in st.sessions && !Accepts(st, token, since)
    requires Clocked(since, ops, now)
    ensures !Accepts(Run(AfterValidate(st, token, since), ops), token, now)
  {
    assert Dead(AfterValidate(st, token, since), token, since);
    DeadThroughRun(AfterValidate(st, token, since), token, since, ops, now);
  }

  /* ---------- A logout ends one session ---------- */

  /** What a session says of its end is never changed again. */
  lemma {:induction false} EndIsRecorded(st: Store, token: string, ops: seq<Op>)
    requires st.Valid() && token in st.sessions && st.sessions[token].status.Revoked?
    ensures token in Run(st, ops).sessions && Run(st, ops).sessions[token] == st.sessions[token]
  {
    if ops == [] {
    } else {
      EndIsRecorded(st, token, ops[..|ops| - 1]);
    }
  }

  /** After a logout its token is rejected at every later time of every run, and the row
      says when and why, unless it said so before. */
  lemma LogoutIsForGood(st: Store, token: string, at: Time, ops: seq<Op>, now: Time)
    requires st.Valid() && token in st.sessions && Clocked(at, ops, now)
    ensures var after := Run(Step(st, Logout(at, token)), ops);
      && !Accepts(after, token, now)
      && token in after.sessions
      && after.sessions[token].status ==
           if st.sessions[token].status.Active? then Revoked(at, "logout") else st.sessions[token].status
  {
    var out := Step(st, Logout(at, token));
    assert Dead(out, token, at);
    DeadThroughRun(out, token, at, ops, now);
    EndIsRecorded(out, token, ops);
  }

  /** Every other session keeps its row, and with it its verdict at any time. */
  lemma LogoutIsExact(st: Store, token: string, at: Time, other: string, now: Time)
    requires st.Valid() && other != token
    ensures var out := Step(st, Logout(at, token));
      && (other in out.sessions <==> other in st.sessions)
      && (other in st.sessions ==> out.sessions[other] == st.sessions[other])
      && out.members == st.members
      && (Accepts(out, other, now) <==> Accepts(st, other, now))
  {
  }

  /** What a look at a token leaves in its row. */
  lemma LookIsRecorded(st: Store, token: string, now: Time)
    requires st.Valid() && token in st.sessions
    ensures var before, after := st.sessions[token], Step(st, Validate(now, token)).sessions[token];
      && (Accepts(st, token, now) ==>
            after == before.(lastSeenAt := now, idleTimeoutAt := now + 2 * 3600 * 1_000_000))
      && (!Accepts(st, token, now) && DiesOnSight(st, token, now) ==>
            after == before.(status := Revoked(now, "member_disabled")))
      && (!Accepts(st, token, now) && !DiesOnSight(st, token, now) ==> after == before)
  {
  }

  /** A member that is enabled again has no session back, and one that is disabled or
      enabled already is left alone. */
  lemma MemberUpdateIsExact(st: Store, memberId: string, status: MemberStatus, at: Time)
    requires st.Valid()
    ensures var after := Step(st, UpdateMember(at, memberId, status));
      && after.members == (if memberId in st.members then st.members[memberId := status] else st.members)
      && (status == Enabled || memberId !in st.members || st.members[memberId] == status ==>
            after.sessions == st.sessions)
      && (status == Disabled && memberId in st.members && st.members[memberId] == Enabled ==>
            forall t | t in st.sessions && st.sessions[t].memberId == memberId :: after.sessions[t].status.Revoked?)
  {
  }

  /* ---------- Acceptance keeps within both limits ---------- */

  /** The session was created with these limits and last seen at `seen`. */
  predicate Tracks(st: Store, token: string, expiresAt: Time, idleTimeoutAt: Time) {
    && token in st.sessions
    && st.sessions[token].expiresAt == expiresAt
    && st.sessions[token].idleTimeoutAt == idleTimeoutAt
  }

  /** op is a look at the token that succeeds. */
  predicate IsAcceptance(st: Store, op: Op, token: string)
    requires st.Valid()
  {
    op.Validate? && op.token == token && Accepts(st, token, op.now)
  }

  /** The end of the idle period after a run: set anew by each acceptance. */
  function IdleLimit(st: Store, token: string, idle: Time, ops: seq<Op>): Time
    requires st.Valid()
  {
    if ops == [] then idle
    else
      var front, last := ops[..|ops| - 1], ops[|ops| - 1];
      if IsAcceptance(Run(st, front), last, token) then last.now + 2 * 3600 * 1_000_000
      else IdleLimit(st, token, idle, front)
  }

  lemma {:induction false} LimitsThroughRun(st: Store, token: string, expiresAt: Time, idle: Time, ops: seq<Op>)
    requires st.Valid() && Tracks(st, token, expiresAt, idle)
    ensures Tracks(Run(st, ops), token, expiresAt, IdleLimit(st, token, idle, ops))
  {
    if ops == [] {
    } else {
      LimitsThroughRun(st, token, expiresAt, idle, ops[..|ops| - 1]);
    }
  }

  /** After a creation at `created`, every acceptance is strictly within the lifetime
      of the creation, and strictly within the idle limit of the acceptance before it
      (of the creation, if there is none). */
  lemma AcceptedWithinLimits(
      st: Store, token: string, memberId: string, created: Time, lifetime: int, idle: int, ops: seq<Op>, now: Time)
    requires st.Valid() && token !in st.sessions && memberId in st.members
    requires var st' := Run(AfterCreate(st, token, memberId, created, lifetime, idle), ops);
      Accepts(st', token, now)
    ensures now < created + lifetime
    ensures now < IdleLimit(AfterCreate(st, token, memberId, created, lifetime, idle), token, created + idle, ops)
  {
    var st0 := AfterCreate(st, token, memberId, created, lifetime, idle);
    LimitsThroughRun(st0, token, created + lifetime, created + idle, ops);
  }

  /** With the limits a session gets unless told otherwise: it lasts a day at most, and
      two hours if nobody looks at it. */
  lemma DefaultLimits(st: Store, token: string, memberId: string, created: Time, ops: seq<Op>, now: Time)
    requires st.Valid() && token != "" && token !in st.sessions
    requires memberId in st.members && st.members[memberId].Enabled?
    ensures var st' := AfterCreate(st, token, memberId, created, DEFAULT_LIFETIME, DEFAULT_IDLE);
      && st'.Valid() && st'.sessions[token].expiresAt == created + 86_400_000_000
      && (Accepts(st', token, now) <==> now < created + 7_200_000_000)
      && (Accepts(Run(st', ops), token, now) ==> now < created + 86_400_000_000)
  {
    if Accepts(Run(AfterCreate(st, token, memberId, created, DEFAULT_LIFETIME, DEFAULT_IDLE), ops), token, now) {
      AcceptedWithinLimits(st, token, memberId, created, DEFAULT_LIFETIME, DEFAULT_IDLE, ops, now);
    }
  }

  /* ---------- Nothing else ends a session ---------- */

  /** op may end the session of token, which belongs to memberId. */
  predicate MayEnd(op: Op, token: string, memberId: string) {
    match op
    case Create(_, _, _, _, _) => false
    case Validate(_, _) => false
    case Logout(_, t) => t == token
    case RevokeAll(_, m, _) => m == memberId
    case UpdateMember(_, m, status) => m == memberId && status.Disabled?
    case RawMemberStatus(_, m, status) => m == memberId && status.Disabled?
  }

  predicate Alive(st: Store, token: string, memberId: string)
    requires st.Valid()
  {
    && token in st.sessions
    && st.sessions[token].memberId == memberId
    && st.sessions[token].status.Active?
    && st.members[memberId].Enabled?
  }

  lemma {:induction false} AliveThroughRun(st: Store, token: string, memberId: string, ops: seq<Op>)
    requires st.Valid() && Alive(st, token, memberId)
    requires forall op | op in ops :: !MayEnd(op, token, memberId)
    ensures Alive(Run(st, ops), token, memberId)
  {
    if ops == [] {
    } else {
      var front, last := ops[..|ops| - 1], ops[|ops| - 1];
      assert forall op | op in front :: op in ops;
      assert last in ops;
      AliveThroughRun(st, token, memberId, front);
      AliveThroughStep(Run(st, front), last, token, memberId);
    }
  }

  lemma AliveThroughStep(st: Store, op: Op, token: string, memberId: string)
    requires st.Valid() && Alive(st, token, memberId) && !MayEnd(op, token, memberId)
    ensures Alive(Step(st, op), token, memberId)
  {
  }

  lemma AliveIsAccepted(st: Store, token: string, memberId: string, expiresAt: Time, idle: Time, now: Time)
    requires st.Valid() && token != "" && Alive(st, token, memberId) && Tracks(st, token, expiresAt, idle)
    ensures Accepts(st, token, now) <==> now < expiresAt && now < idle
  {
  }

  /** Nobody is accepted whose member is not enabled, whoever has disabled it. */
  lemma AcceptedMemberIsEnabled(st: Store, token: string, now: Time)
    requires st.Valid() && Accepts(st, token, now)
    ensures token in st.sessions && st.members[st.sessions[token].memberId] == Enabled
    ensures st.sessions[token].status == Active
  {
  }

  /** A session that no logout, revocation or disabling meets is accepted exactly
      while both limits hold. */
  lemma UndisturbedSessionAccepted(
      st: Store, token: string, memberId: string, created: Time, lifetime: int, idle: int, ops: seq<Op>, now: Time)
    requires st.Valid() && token != "" && token !in st.sessions
    requires memberId in st.members && st.members[memberId].Enabled?
    requires forall op | op in ops :: !MayEnd(op, token, memberId)
    ensures var st0 := AfterCreate(st, token, memberId, created, lifetime, idle);
      Accepts(Run(st0, ops), token, now) <==>
        now < created + lifetime && now < IdleLimit(st0, token, created + idle, ops)
  {
    var st0 := AfterCreate(st, token, memberId, created, lifetime, idle);
    AliveThroughRun(st0, token, memberId, ops);
    LimitsThroughRun(st0, token, created + lifetime, created + idle, ops);
    AliveIsAccepted(Run(st0, ops), token, memberId, created + lifetime,
      IdleLimit(st0, token, created + idle, ops), now);
  }

  /** revoke_all_for_member ends all and only the sessions its member has: those are
      rejected ever after, every other token is judged as before. */
  lemma RevokeAllIsExact(st: Store, memberId: string, at: Time, reason: string, token: string, ops: seq<Op>, now: Time)
    requires st.Valid() && token in st.sessions && Clocked(at, ops, now)
    ensures var st' := AfterRevokeAll(st, memberId, at, reason);
      && st'.Valid()
      && (st.sessions[token].memberId == memberId ==> !Accepts(Run(st', ops), token, now))
      && (st.sessions[token].memberId != memberId ==>
            st'.sessions[token] == st.sessions[token] && Accepts(st', token, now) == Accepts(st, token, now))
  {
    var st' := AfterRevokeAll(st, memberId, at, reason);
    if st.sessions[token].memberId == memberId {
      assert Dead(st', token, at);
      DeadThroughRun(st', token, at, ops, now);
    }
  }

  /** Disabling a member ends its sessions for good; enabling it again, in the run
      that follows, brings none of them back. */
  lemma DisablingIsForGood(st: Store, memberId: string, at: Time, token: string, ops: seq<Op>, now: Time)
    requires st.Valid() && memberId in st.members && st.members[memberId].Enabled?
    requires token in st.sessions && st.sessions[token].memberId == memberId && Clocked(at, ops, now)
    ensures !Accepts(Run(AfterMemberUpdate(st, memberId, Disabled, at), ops), token, now)
  {
    var st' := AfterMemberUpdate(st, memberId, Disabled, at);
    assert Dead(st', token, at);
    DeadThroughRun(st', token, at, ops, now);
  }
}
