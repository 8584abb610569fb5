/** The two migrations that reshape the credentials table: alembic/versions/0015 turns one
    token per allocation into one per device, 0017 turns those into keys with a scope. */
module Migrations {
  import opened Common

  type Id = string

  datatype Allocation = Allocation(memberId: Id, resourceModel: string)

  /** What identifies a token, and all that every schema keeps of it. */
  datatype Token = Token(fingerprint: string, prefix: string, createdAt: int)

  datatype Device = Device(
    allocationId: Id, name: string, token: Token, lastUsedAt: Option<int>, revokedAt: Option<int>)

  datatype Key = Key(memberId: Id, name: string, token: Token, lastUsedAt: Option<int>, revokedAt: Option<int>)

  /** The model under which a key may use an allocation. */
  type Scope = map<(Id, Id), string>

  /** The credentials table in its three shapes, each by primary key; in the last, with
      the association table beside it. */
  datatype Credentials =
    | PerAllocation(tokens: map<Id, Token>)
    | PerDevice(devices: map<Id, Device>)
    | Scoped(keys: map<Id, Key>, scope: Scope)

  const DEFAULT_CREDENTIAL_NAME := "預設"

  /* ---------- What each step makes of the tables ---------- */

  function FirstDevice(allocationId: Id, token: Token): Device {
    Device(allocationId, DEFAULT_CREDENTIAL_NAME, token, None, None)
  }

  /** One device for each token, on the token's allocation. */
  ghost predicate Expands(tokens: map<Id, Token>, devices: map<Id, Device>) {
    && (forall c | c in devices ::
          devices[c].allocationId in tokens
          && devices[c] == FirstDevice(devices[c].allocationId, tokens[devices[c].allocationId]))
    && (forall c, d | c in devices && d in devices && devices[c].allocationId == devices[d].allocationId :: c == d)
    && (forall a | a in tokens :: exists c :: c in devices && devices[c].allocationId == a)
  }

  predicate Active(devices: map<Id, Device>, c: Id, a: Id) {
    c in devices && devices[c].revokedAt == None && devices[c].allocationId == a
  }

  /** One token for each allocation with an unrevoked device: a token of such a device,
      and none of them is newer. */
  ghost predicate Collapses(devices: map<Id, Device>, tokens: map<Id, Token>) {
    && (forall a | a in tokens :: exists c :: Active(devices, c, a) && devices[c].token == tokens[a])
    && (forall c, a | Active(devices, c, a) ::
          a in tokens && devices[c].token.createdAt <= tokens[a].createdAt)
  }

  /** The join that fills the association table. */
  function ScopeFrom(allocations: map<Id, Allocation>, devices: map<Id, Device>): Scope {
    map c | c in devices && devices[c].allocationId in allocations ::
      (c, devices[c].allocationId) := allocations[devices[c].allocationId].resourceModel
  }

  function KeysFrom(allocations: map<Id, Allocation>, devices: map<Id, Device>): map<Id, Key> {
    map c | c in devices && devices[c].allocationId in allocations ::
      Key(allocations[devices[c].allocationId].memberId, devices[c].name, devices[c].token, devices[c].lastUsedAt,
          devices[c].revokedAt)
  }

  /** Every device becomes a key of its allocation's member, with that allocation as scope. */
  function ScopedFrom(allocations: map<Id, Allocation>, devices: map<Id, Device>): Credentials {
    Scoped(KeysFrom(allocations, devices), ScopeFrom(allocations, devices))
  }

  /** Every key becomes a device of one of the allocations in its scope. */
  ghost predicate Unscopes(keys: map<Id, Key>, scope: Scope, devices: map<Id, Device>) {
    && devices.Keys == keys.Keys
    && forall c | c in keys ::
         && InScope(scope, c, devices[c].allocationId)
         && devices[c] == Device(
              devices[c].allocationId, keys[c].name, keys[c].token, keys[c].lastUsedAt, keys[c].revokedAt)
  }

  predicate Housed(allocations: map<Id, Allocation>, devices: map<Id, Device>) {
    forall c | c in devices :: devices[c].allocationId in allocations
  }

  predicate InScope(scope: Scope, c: Id, a: Id) {
    (c, a) in scope
  }

  function ScopeOf(scope: Scope, c: Id): set<Id> {
    set p | p in scope && p.0 == c :: p.1
  }

  lemma ScopeMember(scope: Scope, c: Id, a: Id)
    ensures a in ScopeOf(scope, c) <==> InScope(scope, c, a)
  {
    if (c, a) in scope {
      var p := (c, a);
      assert p in scope && p.0 == c && p.1 == a;
    }
  }

  lemma {:induction false} OldestExists(devices: map<Id, Device>, ids: set<Id>)
    requires ids != {} && ids <= devices.Keys
    ensures exists c :: c in ids && forall d | d in ids :: devices[c].token.createdAt <= devices[d].token.createdAt
  {
    var first :| first in ids;
    var others := ids - {first};
    if others != {} {
      OldestExists(devices, others);
      var c :| c in others && forall d | d in others :: devices[c].token.createdAt <= devices[d].token.createdAt;
      var oldest := if devices[first].token.createdAt <= devices[c].token.createdAt then first else c;
      assert forall d | d in ids :: d == first || d in others;
      assert oldest in ids && forall d | d in ids :: devices[oldest].token.createdAt <= devices[d].token.createdAt;
    } else {
      assert ids == {first};
    }
  }

  class Database {
    var allocations: map<Id, Allocation>
    var credentials: Credentials

    /** 0015, upgrade: rows are copied in the order the table gives them, each under a
        new id, which no other row has. */
    method UpgradeToDevices(newId: set<Id> -> Id)
      requires credentials.PerAllocation?
      requires forall used :: newId(used) !in used
      modifies this`credentials
      ensures credentials.PerDevice? && Expands(old(credentials).tokens, credentials.devices)
    {
      var tokens := credentials.tokens;
      var devices: map<Id, Device> := map[];
      var todo := tokens.Keys;
      while todo != {}
        invariant todo <= tokens.Keys
        invariant Expands(tokens - todo, devices)
        decreases |todo|
      {
        var a :| a in todo;
        var c := newId(devices.Keys);
        OneMoreDevice(tokens, todo, a, devices, c);
        devices := devices[c := FirstDevice(a, tokens[a])];
        todo := todo - {a};
      }
      assert tokens - {} == tokens;
      credentials := PerDevice(devices);
    }

    /** 0015, downgrade: the unrevoked rows are visited oldest first, in any order among
        equals, and for each allocation the last one wins. */
    method DowngradeToTokens()
      requires credentials.PerDevice?
      modifies this`credentials
      ensures credentials.PerAllocation? && Collapses(old(credentials).devices, credentials.tokens)
    {
      var devices := credentials.devices;
      var keep: map<Id, Token> := map[];
      var todo := set c | c in devices && devices[c].revokedAt == None;
      ghost var visited: map<Id, Device> := map[];
      while todo != {}
        invariant forall c | c in todo :: c in devices && devices[c].revokedAt == None
        invariant forall c :: c in visited <==> c in devices && devices[c].revokedAt == None && c !in todo
        invariant forall c | c in visited :: visited[c] == devices[c]
        invariant forall c, d | c in visited && d in todo :: devices[c].token.createdAt <= devices[d].token.createdAt
        invariant Collapses(visited, keep)
        decreases |todo|
      {
        OldestExists(devices, todo);
        var c :| c in todo && forall d | d in todo :: devices[c].token.createdAt <= devices[d].token.createdAt;
        OneMoreToken(visited, keep, c, devices[c]);
        keep := keep[devices[c].allocationId := devices[c].token];
        todo, visited := todo - {c}, visited[c := devices[c]];
      }
      assert forall c, a :: Active(visited, c, a) <==> Active(devices, c, a);
      credentials := PerAllocation(keep);
    }

    /** 0017, upgrade: the scope is filled by a join with the allocations, the member by a
        lookup in them. A device without allocation gets no member, which the NOT NULL
        constraint refuses: nothing changes. */
    method UpgradeToScopes() returns (ok: bool)
      requires credentials.PerDevice?
      modifies this`credentials
      ensures ok == Housed(allocations, old(credentials).devices)
      ensures credentials == if ok then ScopedFrom(allocations, old(credentials).devices) else old(credentials)
    {
      var devices := credentials.devices;
      var scope := ScopeFrom(allocations, devices);
      var keys := KeysFrom(allocations, devices);
      ok := forall c | c in devices :: devices[c].allocationId in allocations;
      if ok {
        credentials := Scoped(keys, scope);
      }
    }

    /** 0017, downgrade: each key goes to any one allocation in its scope. A key without
        scope gets no allocation, which the NOT NULL constraint refuses. */
    method DowngradeToDevices() returns (ok: bool)
      requires credentials.Scoped?
      modifies this`credentials
      ensures ok <==> forall c | c in old(credentials).keys :: ScopeOf(old(credentials).scope, c) != {}
      ensures ok ==>
        credentials.PerDevice? && Unscopes(old(credentials).keys, old(credentials).scope, credentials.devices)
      ensures !ok ==> credentials == old(credentials)
    {
      var keys, scope := credentials.keys, credentials.scope;
      var devices: map<Id, Device> := map[];
      var todo := keys.Keys;
      ok := true;
      while todo != {}
        invariant ok && todo <= keys.Keys && credentials == old(credentials)
        invariant Unscopes(keys - todo, scope, devices)
        invariant forall c | c in keys.Keys - todo :: ScopeOf(scope, c) != {}
        decreases |todo|
      {
        var c :| c in todo;
        var choices := ScopeOf(scope, c);
        if choices == {} {
          ok := false;
          return;
        }
        var a :| a in choices;
        ScopeMember(scope, c, a);
        OneMoreKey(keys, scope, todo, devices, c, a);
        devices := devices[c := Device(a, keys[c].name, keys[c].token, keys[c].lastUsedAt, keys[c].revokedAt)];
        todo := todo - {c};
      }
      assert keys - {} == keys;
      credentials := PerDevice(devices);
    }
  }

  lemma OneMoreDevice(tokens: map<Id, Token>, todo: set<Id>, a: Id, devices: map<Id, Device>, c: Id)
    requires todo <= tokens.Keys && a in todo && c !in devices
    requires Expands(tokens - todo, devices)
    ensures Expands(tokens - (todo - {a}), devices[c := FirstDevice(a, tokens[a])])
  {
    var rest, more := tokens - (todo - {a}), devices[c := FirstDevice(a, tokens[a])];
    forall b | b in rest ensures exists d :: d in more && more[d].allocationId == b {
      if b == a {
        assert c in more && more[c].allocationId == a;
      } else {
        assert b in tokens - todo;
        var d :| d in devices && devices[d].allocationId == b;
        assert d in more && more[d].allocationId == b;
      }
    }
  }

  lemma OneMoreKey(keys: map<Id, Key>, scope: Scope, todo: set<Id>, devices: map<Id, Device>, c: Id, a: Id)
    requires c in todo && c in keys && InScope(scope, c, a) && Unscopes(keys - todo, scope, devices)
    ensures Unscopes(
      keys - (todo - {c}), scope,
      devices[c := Device(a, keys[c].name, keys[c].token, keys[c].lastUsedAt, keys[c].revokedAt)])
  {
    assert (keys - (todo - {c})).Keys == (keys - todo).Keys + {c};
  }

  lemma OneMoreToken(visited: map<Id, Device>, keep: map<Id, Token>, c: Id, device: Device)
    requires Collapses(visited, keep) && c !in visited && device.revokedAt == None
    requires forall d | d in visited :: visited[d].token.createdAt <= device.token.createdAt
    ensures Collapses(visited[c := device], keep[device.allocationId := device.token])
  {
    var more, kept := visited[c := device], keep[device.allocationId := device.token];
    forall a | a in kept ensures exists d :: Active(more, d, a) && more[d].token == kept[a] {
      if a == device.allocationId {
        assert Active(more, c, a) && more[c].token == kept[a];
      } else {
        var d :| Active(visited, d, a) && visited[d].token == keep[a];
        assert Active(more, d, a) && more[d].token == kept[a];
      }
    }
    forall d, a | Active(more, d, a) ensures a in kept && more[d].token.createdAt <= kept[a].createdAt {
      assert d == c || Active(visited, d, a);
    }
  }

  /* ---------- Which token opens what ---------- */

  /** At most one row has a given fingerprint. */
  ghost predicate TokensUnique(tokens: map<Id, Token>) {
    forall a, b | a in tokens && b in tokens && tokens[a].fingerprint == tokens[b].fingerprint :: a == b
  }

  ghost predicate DevicesUnique(devices: map<Id, Device>) {
    forall c, d | c in devices && d in devices && devices[c].token.fingerprint == devices[d].token.fingerprint :: c == d
  }

  /** lookup_credential_by_token finds this key. */
  predicate Found(keys: map<Id, Key>, fingerprint: string, c: Id) {
    c in keys && keys[c].token.fingerprint == fingerprint && keys[c].revokedAt == None
  }

  predicate Exact(allocations: map<Id, Allocation>, scope: Scope, c: Id, model: string, a: Id) {
    InScope(scope, c, a) && a in allocations && scope[(c, a)] == model
  }

  predicate Alias(allocations: map<Id, Allocation>, scope: Scope, c: Id, model: string, a: Id) {
    InScope(scope, c, a) && a in allocations && Bare(allocations[a].resourceModel) == model
  }

  ghost predicate Unrivalled(allocations: map<Id, Allocation>, scope: Scope, c: Id, model: string, a: Id) {
    forall b :: Alias(allocations, scope, c, model, b) ==> b == a
  }

  /** resolve_scope_allocation gives this allocation: an exact match, or for a model
      without provider prefix the only one whose bare name it is. */
  ghost predicate Resolves(allocations: map<Id, Allocation>, scope: Scope, c: Id, model: string, a: Id) {
    if exists b :: Exact(allocations, scope, c, model, b) then
      Exact(allocations, scope, c, model, a)
    else
      '/' !in model && Alias(allocations, scope, c, model, a) && Unrivalled(allocations, scope, c, model, a)
  }

  /** The names a model goes by. */
  predicate Names(model: string, resourceModel: string) {
    model == resourceModel || ('/' !in model && model == Bare(resourceModel))
  }

  /** The key opens this allocation, under its names, and nothing else. */
  ghost predicate OpensOnly(allocations: map<Id, Allocation>, scope: Scope, c: Id, a: Id)
    requires a in allocations
  {
    && ScopeOf(scope, c) == {a}
    && forall model, b ::
         Resolves(allocations, scope, c, model, b) <==> b == a && Names(model, allocations[a].resourceModel)
  }

  /** Exactly the pair of each device is in scope, under its allocation's model. */
  ghost predicate JustTheDevices(allocations: map<Id, Allocation>, devices: map<Id, Device>, scope: Scope)
    requires Housed(allocations, devices)
  {
    && (forall c, a :: InScope(scope, c, a) <==> c in devices && a == devices[c].allocationId)
    && (forall c, a | InScope(scope, c, a) :: scope[(c, a)] == allocations[devices[c].allocationId].resourceModel)
  }

  lemma InScopedFrom(allocations: map<Id, Allocation>, devices: map<Id, Device>)
    requires Housed(allocations, devices)
    ensures JustTheDevices(allocations, devices, ScopedFrom(allocations, devices).scope)
  {
    var scope := ScopedFrom(allocations, devices).scope;
    forall c, a ensures InScope(scope, c, a) <==> c in devices && a == devices[c].allocationId {
      assert c in devices && a == devices[c].allocationId ==> (c, a) == (c, devices[c].allocationId);
    }
  }

  lemma ScopeOfOne(allocations: map<Id, Allocation>, devices: map<Id, Device>, c: Id)
    requires Housed(allocations, devices) && c in devices
    ensures OpensOnly(allocations, ScopedFrom(allocations, devices).scope, c, devices[c].allocationId)
  {
    InScopedFrom(allocations, devices);
    OneOpens(allocations, ScopedFrom(allocations, devices).scope, c, devices[c].allocationId);
  }

  lemma OneOpens(allocations: map<Id, Allocation>, scope: Scope, c: Id, a: Id)
    requires forall b :: InScope(scope, c, b) <==> b == a
    requires a in allocations && InScope(scope, c, a) && scope[(c, a)] == allocations[a].resourceModel
    ensures OpensOnly(allocations, scope, c, a)
  {
    forall b ensures b in ScopeOf(scope, c) <==> b == a {
      ScopeMember(scope, c, b);
    }
    forall model, b
      ensures Resolves(allocations, scope, c, model, b) <==> b == a && Names(model, allocations[a].resourceModel)
    {
      assert Exact(allocations, scope, c, model, a) <==> model == allocations[a].resourceModel;
      assert Alias(allocations, scope, c, model, a) <==> model == Bare(allocations[a].resourceModel);
      assert Exact(allocations, scope, c, model, b) ==> b == a;
    }
  }

  /** Both upgrades: the old token of an allocation finds a key of the allocation's
      member, which opens that allocation and nothing else; and no other token finds
      a key. */
  lemma TokensKeepResolving(
      allocations: map<Id, Allocation>, tokens: map<Id, Token>, devices: map<Id, Device>, fingerprint: string, c: Id)
    requires Expands(tokens, devices) && tokens.Keys <= allocations.Keys
    ensures Housed(allocations, devices)
    ensures var after := ScopedFrom(allocations, devices);
      Found(after.keys, fingerprint, c) <==>
      exists a | a in tokens && tokens[a].fingerprint == fingerprint ::
        c in after.keys && after.keys[c].memberId == allocations[a].memberId && after.keys[c].token == tokens[a]
        && OpensOnly(allocations, after.scope, c, a)
  {
    var after := ScopedFrom(allocations, devices);
    if c in devices {
      ScopeOfOne(allocations, devices, c);
    }
    if a :| a in tokens && tokens[a].fingerprint == fingerprint && c in after.keys && after.keys[c].token == tokens[a] {
      assert devices[c] == FirstDevice(devices[c].allocationId, tokens[devices[c].allocationId]);
    }
  }

  /** ... and each old token does find one, and only one. */
  lemma EveryTokenFindsOneKey(
      allocations: map<Id, Allocation>, tokens: map<Id, Token>, devices: map<Id, Device>, a: Id)
    requires Expands(tokens, devices) && tokens.Keys <= allocations.Keys && TokensUnique(tokens) && a in tokens
    ensures var keys := ScopedFrom(allocations, devices).keys;
      exists c :: Found(keys, tokens[a].fingerprint, c) && forall d | Found(keys, tokens[a].fingerprint, d) :: d == c
  {
    var keys := ScopedFrom(allocations, devices).keys;
    var c :| c in devices && devices[c].allocationId == a;
    assert Found(keys, tokens[a].fingerprint, c);
    forall d | Found(keys, tokens[a].fingerprint, d) ensures d == c {
      var b := devices[d].allocationId;
      assert devices[d].token == tokens[b];
      assert b == a;
    }
  }

  /* ---------- There and back ---------- */

  /** 0017 down undoes 0017 up, on any table of devices. */
  lemma ScopesAndBack(allocations: map<Id, Allocation>, devices: map<Id, Device>, back: map<Id, Device>)
    requires Housed(allocations, devices)
    requires var s := ScopedFrom(allocations, devices); Unscopes(s.keys, s.scope, back)
    ensures back == devices
  {
    var s := ScopedFrom(allocations, devices);
    forall c | c in devices ensures back[c] == devices[c] {
      ScopeOfOne(allocations, devices, c);
      ScopeMember(s.scope, c, back[c].allocationId);
    }
  }

  /** 0015 down undoes 0015 up. */
  lemma DevicesAndBack(tokens: map<Id, Token>, devices: map<Id, Device>, back: map<Id, Token>)
    requires Expands(tokens, devices) && Collapses(devices, back)
    ensures back == tokens
  {
    forall a | a in tokens ensures a in back && back[a] == tokens[a] {
      var c :| c in devices && devices[c].allocationId == a;
      assert Active(devices, c, a);
      var d :| Active(devices, d, a) && devices[d].token == back[a];
    }
    forall a | a in back ensures a in tokens {
      var c :| Active(devices, c, a) && devices[c].token == back[a];
    }
  }

  /** All four steps give back the original table. */
  lemma FullRoundTrip(
      allocations: map<Id, Allocation>, tokens: map<Id, Token>,
      devices: map<Id, Device>, devicesBack: map<Id, Device>, tokensBack: map<Id, Token>)
    requires tokens.Keys <= allocations.Keys && Expands(tokens, devices)
    requires var s := ScopedFrom(allocations, devices); Unscopes(s.keys, s.scope, devicesBack)
    requires Collapses(devicesBack, tokensBack)
    ensures tokensBack == tokens
  {
    ScopesAndBack(allocations, devices, devicesBack);
    DevicesAndBack(tokens, devices, tokensBack);
  }

  /* ---------- What a downgrade loses ---------- */

  ghost predicate Survives(tokens: map<Id, Token>, device: Device) {
    exists a :: a in tokens && tokens[a].fingerprint == device.token.fingerprint
  }

  ghost predicate NoneNewer(devices: map<Id, Device>, c: Id)
    requires c in devices
  {
    forall d | Active(devices, d, devices[c].allocationId) :: devices[d].token.createdAt <= devices[c].token.createdAt
  }

  ghost predicate NoneAsNew(devices: map<Id, Device>, c: Id)
    requires c in devices
  {
    forall d | d != c && Active(devices, d, devices[c].allocationId) ::
      devices[d].token.createdAt < devices[c].token.createdAt
  }

  /** 0015 down keeps one token for each allocation with an unrevoked device and for no
      other. A token survives only if it is unrevoked and none of its allocation is newer;
      it survives if none is as new; and it keeps its allocation. */
  lemma NewestSurvives(devices: map<Id, Device>, tokens: map<Id, Token>, c: Id)
    requires Collapses(devices, tokens) && DevicesUnique(devices) && c in devices
    ensures forall a :: a in tokens <==> exists d :: Active(devices, d, a)
    ensures Survives(tokens, devices[c]) ==>
      devices[c].revokedAt == None && NoneNewer(devices, c)
      && devices[c].allocationId in tokens && tokens[devices[c].allocationId] == devices[c].token
    ensures devices[c].revokedAt == None && NoneAsNew(devices, c) ==> Survives(tokens, devices[c])
  {
    forall a ensures a in tokens <==> exists d :: Active(devices, d, a) {
    }
    if a :| a in tokens && tokens[a].fingerprint == devices[c].token.fingerprint {
      var d :| Active(devices, d, a) && devices[d].token == tokens[a];
      assert d == c;
    }
    var a := devices[c].allocationId;
    if devices[c].revokedAt == None && NoneAsNew(devices, c) {
      assert Active(devices, c, a);
      var d :| Active(devices, d, a) && devices[d].token == tokens[a];
      assert d == c;
    }
  }

  /** The tables agree: a scope row names a key, an allocation of the key's member and
      that allocation's model. */
  ghost predicate Consistent(allocations: map<Id, Allocation>, keys: map<Id, Key>, scope: Scope) {
    forall c, a | InScope(scope, c, a) ::
      c in keys && a in allocations && scope[(c, a)] == allocations[a].resourceModel
      && keys[c].memberId == allocations[a].memberId
  }

  ghost predicate OneEach(keys: map<Id, Key>, scope: Scope) {
    forall c | c in keys :: |ScopeOf(scope, c)| == 1
  }

  /** 0017 down loses something exactly if some key has more than one allocation. */
  lemma LossyExactly(allocations: map<Id, Allocation>, keys: map<Id, Key>, scope: Scope, devices: map<Id, Device>)
    requires Consistent(allocations, keys, scope) && Unscopes(keys, scope, devices)
    ensures Housed(allocations, devices)
    ensures ScopedFrom(allocations, devices) == Scoped(keys, scope) <==> OneEach(keys, scope)
  {
    StillHoused(allocations, keys, scope, devices);
    if ScopedFrom(allocations, devices) == Scoped(keys, scope) {
      OneEachAfter(allocations, devices);
    }
    if OneEach(keys, scope) {
      InScopedFrom(allocations, devices);
      ScopeComesBack(allocations, keys, scope, devices, ScopedFrom(allocations, devices).scope);
    }
  }

  lemma StillHoused(allocations: map<Id, Allocation>, keys: map<Id, Key>, scope: Scope, devices: map<Id, Device>)
    requires Consistent(allocations, keys, scope) && Unscopes(keys, scope, devices)
    ensures Housed(allocations, devices)
    ensures ScopedFrom(allocations, devices).keys == keys
  {
  }

  lemma OneEachAfter(allocations: map<Id, Allocation>, devices: map<Id, Device>)
    requires Housed(allocations, devices)
    ensures OneEach(ScopedFrom(allocations, devices).keys, ScopedFrom(allocations, devices).scope)
  {
    forall c | c in devices ensures |ScopeOf(ScopedFrom(allocations, devices).scope, c)| == 1 {
      ScopeOfOne(allocations, devices, c);
    }
  }

  lemma ScopeComesBack(
      allocations: map<Id, Allocation>, keys: map<Id, Key>, scope: Scope, devices: map<Id, Device>, after: Scope)
    requires Consistent(allocations, keys, scope) && Unscopes(keys, scope, devices)
    requires OneEach(keys, scope) && Housed(allocations, devices) && JustTheDevices(allocations, devices, after)
    ensures after == scope
  {
    forall p: (Id, Id) ensures (p in after <==> p in scope) && (p in scope ==> after[p] == scope[p]) {
      PairComesBack(allocations, keys, scope, devices, after, p.0, p.1);
    }
  }

  lemma PairComesBack(
      allocations: map<Id, Allocation>, keys: map<Id, Key>, scope: Scope, devices: map<Id, Device>, after: Scope,
      c: Id, a: Id)
    requires Consistent(allocations, keys, scope) && Unscopes(keys, scope, devices)
    requires OneEach(keys, scope) && Housed(allocations, devices) && JustTheDevices(allocations, devices, after)
    ensures var p := (c, a); (p in after <==> p in scope) && (p in scope ==> after[p] == scope[p])
  {
    assert InScope(after, c, a) <==> c in devices && a == devices[c].allocationId;
    if InScope(scope, c, a) {
      OnlyOne(scope, c, a, devices[c].allocationId);
    }
  }

  lemma OnlyOne(scope: Scope, c: Id, a: Id, b: Id)
    requires |ScopeOf(scope, c)| == 1 && InScope(scope, c, a) && InScope(scope, c, b)
    ensures a == b
  {
    ScopeMember(scope, c, a);
    ScopeMember(scope, c, b);
    Singleton(ScopeOf(scope, c), a, b);
  }

  lemma Singleton(s: set<Id>, a: Id, b: Id)
    requires |s| == 1 && a in s && b in s
    ensures a == b
  {
    assert |s - {a}| == |s| - 1;
    assert s - {a} == {};
  }

  /** After both downgrades a token opens an allocation only if it was an unrevoked key
      with that allocation in its scope. */
  lemma DowngradesStayInScope(
      keys: map<Id, Key>, scope: Scope, devices: map<Id, Device>, tokens: map<Id, Token>, a: Id)
    requires Unscopes(keys, scope, devices) && Collapses(devices, tokens) && a in tokens
    ensures exists c :: Found(keys, tokens[a].fingerprint, c) && a in ScopeOf(scope, c)
  {
    var c :| Active(devices, c, a) && devices[c].token == tokens[a];
    ScopeMember(scope, c, a);
    assert Found(keys, tokens[a].fingerprint, c) && a in ScopeOf(scope, c);
  }

  /* ---------- The rows, column by column ---------- */

  /** A device made from a token has the default name, was never used and is not revoked. */
  lemma NewDeviceColumns(tokens: map<Id, Token>, devices: map<Id, Device>, c: Id)
    requires Expands(tokens, devices) && c in devices
    ensures devices[c].allocationId in tokens && devices[c].token == tokens[devices[c].allocationId]
    ensures devices[c].name == "預設" && devices[c].lastUsedAt == None && devices[c].revokedAt == None
  {
  }

  /** A key made from a device keeps all its columns, and gets the member of its
      allocation; its token finds it exactly while the device was not revoked. */
  lemma KeyColumns(allocations: map<Id, Allocation>, devices: map<Id, Device>, c: Id, fingerprint: string)
    requires Housed(allocations, devices)
    ensures var keys := ScopedFrom(allocations, devices).keys;
      && keys.Keys == devices.Keys
      && (c in devices ==>
            && keys[c].name == devices[c].name && keys[c].token == devices[c].token
            && keys[c].lastUsedAt == devices[c].lastUsedAt && keys[c].revokedAt == devices[c].revokedAt
            && keys[c].memberId == allocations[devices[c].allocationId].memberId)
      && (Found(keys, fingerprint, c) <==>
            c in devices && devices[c].token.fingerprint == fingerprint && devices[c].revokedAt == None)
  {
  }

  /** A key opens exactly the allocations of its scope that are there under this model,
      or if none is and the name is bare, the only one whose model has that bare name. */
  lemma ResolvesWithinScope(allocations: map<Id, Allocation>, scope: Scope, c: Id, model: string, a: Id)
    ensures Resolves(allocations, scope, c, model, a) <==>
      && (c, a) in scope && a in allocations
      && (|| scope[(c, a)] == model
          || (&& '/' !in model && Bare(allocations[a].resourceModel) == model
              && forall b | (c, b) in scope && b in allocations ::
                   scope[(c, b)] != model && (b == a || Bare(allocations[b].resourceModel) != model)))
  {
    forall b | (c, b) in scope && b in allocations && scope[(c, b)] == model
      ensures Exact(allocations, scope, c, model, b)
    {
    }
    forall b | (c, b) in scope && b in allocations && Bare(allocations[b].resourceModel) == model
      ensures Alias(allocations, scope, c, model, b)
    {
    }
  }

  /** A bare name that two allocations in scope share opens neither. */
  lemma SharedNameOpensNothing(
      allocations: map<Id, Allocation>, scope: Scope, c: Id, model: string, a: Id, b: Id, x: Id)
    requires a != b && InScope(scope, c, a) && InScope(scope, c, b) && a in allocations && b in allocations
    requires Bare(allocations[a].resourceModel) == model && Bare(allocations[b].resourceModel) == model
    requires forall d | InScope(scope, c, d) :: scope[(c, d)] != model
    ensures !Resolves(allocations, scope, c, model, x)
  {
    assert Alias(allocations, scope, c, model, a) && Alias(allocations, scope, c, model, b);
  }
}
