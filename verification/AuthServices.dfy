/**
 The authentication service as an object over the expiring store: one login
 from the signed message to the token, with time passing between its store
 operations, and the same login as steps of the interleaved machine.
 */
module AuthServices {
  import opened Domain
  import opened Sessions
  import SignIn
  import Runs

  // ---------- one login without interruption ----------

  // Time that passes before each store operation.
  datatype Delays = Delays(beforeMake: nat, beforeSet: nat, beforeAdd: nat, beforeExpire: nat)

  function DeleteUserSessions(s: Store, address: Address): Store {
    s.(sessions := s.sessions - MembersOf(s, address), userSets := s.userSets - {address})
  }

  function CreateSessionEffect(s: Store, data: SessionData, d: Delays, ttl: nat): Store {
    var stored := SetSession(Wait(s, d.beforeSet), data, ttl);
    var added := AddMember(Wait(stored, d.beforeAdd), data.address, data.id);
    ExpireSet(Wait(added, d.beforeExpire), data.address, ttl)
  }

  function LoginEffect(s: Store, address: Address, id: SessionId, secret: string, d: Delays, c: Config): Store {
    var s1 := Wait(DeleteUserSessions(s, address), d.beforeMake);
    CreateSessionEffect(s1, NewData(s1, address, id, secret, c), d, c.ttl)
  }

  // ---------- it is a run of the machine ----------

  ghost predicate Leads(s: System, steps: seq<Step>, s': System, c: Config)
    decreases |steps|
  {
    if steps == [] then s == s'
    else Enabled(s, steps[0]) && Leads(Do(s, steps[0], c), steps[1..], s', c)
  }

  lemma {:induction false} LeadsOn(s: System, a: seq<Step>, s1: System, b: seq<Step>, s2: System, c: Config)
    requires Leads(s, a, s1, c) && Leads(s1, b, s2, c)
    ensures Leads(s, a + b, s2, c)
    decreases |a|
  {
    if a == [] {
      assert a + b == b;
    } else {
      LeadsOn(Do(s, a[0], c), a[1..], s1, b, s2, c);
      assert (a + b)[1..] == a[1..] + b;
    }
  }

  lemma {:induction false} DeletesLead(s: System, a: Address, rest: set<SessionId>, c: Config) returns (steps: seq<Step>)
    requires In(s, a) && s.logins[a] == Deleting(rest)
    ensures Leads(s, steps, s.(
      store := s.store.(sessions := s.store.sessions - rest), logins := s.logins[a := Deleting({})]), c)
    decreases |rest|
  {
    if rest == {} {
      steps := [];
      assert s.store.sessions - rest == s.store.sessions;
      assert s.logins[a := Deleting({})] == s.logins;
    } else {
      var id :| id in rest;
      var s1 := Do(s, DeleteOne(a, id), c);
      var more := DeletesLead(s1, a, rest - {id}, c);
      steps := [DeleteOne(a, id)] + more;
      assert steps[1..] == more;
      assert s1.store.sessions - (rest - {id}) == s.store.sessions - rest;
      assert s1.logins[a := Deleting({})] == s.logins[a := Deleting({})];
    }
  }

  // A single step, then time.
  lemma StepAndWait(s: System, t: Step, seconds: nat, c: Config)
    requires Enabled(s, t)
    ensures
      var s1 := Do(s, t, c);
      Leads(s, [t, Pass(seconds)], s1.(store := Wait(s1.store, seconds)), c)
  {
    assert [t, Pass(seconds)][1..] == [Pass(seconds)] && [Pass(seconds)][1..] == [];
  }

  lemma SetDropped(s: System, a: Address, c: Config, seconds: nat) returns (steps: seq<Step>)
    requires !In(s, a)
    ensures Leads(s, steps, s.(
      store := Wait(DeleteUserSessions(s.store, a), seconds), logins := s.logins[a := Dropped]), c)
  {
    var s1 := Do(s, Begin(a), c);
    var rest := MembersOf(s.store, a);
    var deletes := DeletesLead(s1, a, rest, c);
    var s2 := s1.(store := s1.store.(sessions := s1.store.sessions - rest), logins := s1.logins[a := Deleting({})]);
    StepAndWait(s2, DropSet(a), seconds, c);
    LeadsOn(s1, deletes, s2, [DropSet(a), Pass(seconds)],
      s.(store := Wait(DeleteUserSessions(s.store, a), seconds), logins := s.logins[a := Dropped]), c) by {
      assert s2.logins[a := Dropped] == s.logins[a := Dropped];
    }
    steps := [Begin(a)] + (deletes + [DropSet(a), Pass(seconds)]);
    assert steps[1..] == deletes + [DropSet(a), Pass(seconds)];
  }

  lemma SessionCreated(s: System, a: Address, id: SessionId, secret: string, d: Delays, c: Config)
    requires In(s, a) && s.logins[a].Dropped? && id !in s.issued && ':' !in id
    ensures
      var data := NewData(s.store, a, id, secret, c);
      var steps := [Make(a, id, secret), Pass(d.beforeSet)] + [StoreSession(a), Pass(d.beforeAdd)] +
        [AddToSet(a), Pass(d.beforeExpire)] + [RenewSet(a)];
      Leads(s, steps, s.(
        store := CreateSessionEffect(s.store, data, d, c.ttl), logins := s.logins - {a},
        issued := s.issued[id := a], returned := s.returned + {id}), c)
  {
    var data := NewData(s.store, a, id, secret, c);
    var m := s.(store := Wait(s.store, d.beforeSet), logins := s.logins[a := Made(data)], issued := s.issued[id := a]);
    StepAndWait(s, Make(a, id, secret), d.beforeSet, c);
    StepAndWait(m, StoreSession(a), d.beforeAdd, c);
    var st := m.(store := Wait(SetSession(m.store, data, c.ttl), d.beforeAdd), logins := m.logins[a := Stored(data)]);
    StepAndWait(st, AddToSet(a), d.beforeExpire, c);
    var ad := st.(
      store := Wait(AddMember(st.store, a, id), d.beforeExpire), logins := st.logins[a := Added(data)]);
    var end := Do(ad, RenewSet(a), c);
    assert [RenewSet(a)][1..] == [];
    LeadsOn(s, [Make(a, id, secret), Pass(d.beforeSet)], m, [StoreSession(a), Pass(d.beforeAdd)], st, c);
    LeadsOn(s, [Make(a, id, secret), Pass(d.beforeSet)] + [StoreSession(a), Pass(d.beforeAdd)], st,
      [AddToSet(a), Pass(d.beforeExpire)], ad, c);
    LeadsOn(s, [Make(a, id, secret), Pass(d.beforeSet)] + [StoreSession(a), Pass(d.beforeAdd)] +
      [AddToSet(a), Pass(d.beforeExpire)], ad, [RenewSet(a)], end, c);
    assert end.logins == s.logins - {a};
  }

  // What the service does in one login is one schedule of the machine.
  lemma LoginIsARun(s: System, a: Address, id: SessionId, secret: string, d: Delays, c: Config)
    returns (steps: seq<Step>, s': System)
    requires !In(s, a) && id !in s.issued && ':' !in id
    ensures Leads(s, steps, s', c)
    ensures s'.store == LoginEffect(s.store, a, id, secret, d, c) && s'.logins == s.logins
    ensures s'.orphans == s.orphans && s'.returned == s.returned + {id}
  {
    var first := SetDropped(s, a, c, d.beforeMake);
    var s1 := s.(store := Wait(DeleteUserSessions(s.store, a), d.beforeMake), logins := s.logins[a := Dropped]);
    SessionCreated(s1, a, id, secret, d, c);
    var second := [Make(a, id, secret), Pass(d.beforeSet)] + [StoreSession(a), Pass(d.beforeAdd)] +
      [AddToSet(a), Pass(d.beforeExpire)] + [RenewSet(a)];
    s' := s1.(
      store := CreateSessionEffect(s1.store, NewData(s1.store, a, id, secret, c), d, c.ttl),
      logins := s1.logins - {a}, issued := s1.issued[id := a], returned := s1.returned + {id});
    steps := first + second;
    LeadsOn(s, first, s1, second, s', c);
    assert s1.logins - {a} == s.logins;
  }

  // ---------- what a login is good for ----------

  // The token of a login validates, for its own address, exactly until the
  // session key or the session data expires; `later` passes after the login and
  // `pause` inside the validation.
  lemma LoginValidates(
    s: Store, a: Address, id: SessionId, secret: string, d: Delays, c: Config, later: nat, pause: nat)
    requires ':' !in id
    ensures
      var made := s.now + d.beforeMake;
      var stored := made + d.beforeSet;
      var now := stored + d.beforeAdd + d.beforeExpire + later;
      Validate(Wait(LoginEffect(s, a, id, secret, d, c), later), CreateToken(id, secret), pause, c) ==
        if now < stored + c.ttl && now + pause <= made + c.ttl
          then Some(UserSession(id, a, made, made + c.ttl)) else None
  {
    TokenRoundTrip(id, secret);
  }

  // Every session that the address's set listed is gone after the login.
  lemma LoginEndsOthers(
    s: Store, a: Address, id: SessionId, secret: string, d: Delays, c: Config, other: SessionId, theirs: string, pause: nat)
    requires other in MembersOf(s, a) && other != id && ':' !in other
    ensures Validate(LoginEffect(s, a, id, secret, d, c), CreateToken(other, theirs), pause, c).None?
  {
    TokenRoundTrip(other, theirs);
  }

  // A logout takes effect if and only if the session is live and the secret has
  // its hash, whatever the session data says of its own expiry; its token then
  // fails.
  lemma LogoutIff(s: Store, id: SessionId, secret: string, c: Config, pause: nat)
    requires ':' !in id
    ensures QuitTarget(s, CreateToken(id, secret), c) ==
      if Exists(s, id) && s.sessions[id].value.secretHash == c.hash(secret) then Some(id) else None
    ensures Validate(DelSession(s, id), CreateToken(id, secret), pause, c).None?
  {
    TokenRoundTrip(id, secret);
  }

  // ---------- the service ----------

  datatype AuthResponse = AuthResponse(token: string, address: Address, expiresAt: nat, isNewUser: bool)

  class AuthService {
    const config: Config
    var now: nat
    var sessions: map<SessionId, Key<SessionData>>
    var userSets: map<Address, Key<set<SessionId>>>
    var users: map<Address, Option<Name>>

    constructor (config: Config)
      ensures this.config == config
      ensures Model() == Store(0, map[], map[]) && users == map[]
    {
      this.config, now, sessions, userSets, users := config, 0, map[], map[], map[];
    }

    function Model(): Store
      reads this
    {
      Store(now, sessions, userSets)
    }

    // The clock moves between calls.
    method Tick(seconds: nat)
      modifies this`now
      ensures Model() == Wait(old(Model()), seconds)
    {
      now := now + seconds;
    }

    method FindOrCreateUser(address: Address) returns (isNew: bool)
      modifies this`users
      ensures users == Runs.FindOrCreateUser(old(users), address)
      ensures old(users).Keys <= users.Keys && forall a :: a in old(users) ==> users[a] == old(users)[a]
      ensures isNew == (address !in old(users))
      ensures isNew ==> users == old(users)[address := None]
    {
      isNew := address !in users;
      if isNew {
        users := users[address := None];
      }
    }

    // One DEL a member, then the set itself.
    method InvalidateUserSessions(address: Address) returns (count: nat)
      modifies this`sessions, this`userSets
      ensures Model() == DeleteUserSessions(old(Model()), address)
      ensures count == |MembersOf(old(Model()), address)|
    {
      var ids := MembersOf(Model(), address);
      count := |ids|;
      var rest := ids;
      ghost var before := sessions;
      while rest != {}
        invariant rest <= ids
        invariant sessions == before - (ids - rest)
        invariant now == old(now) && userSets == old(userSets)
        decreases |rest|
      {
        var id :| id in rest;
        sessions := sessions - {id};
        rest := rest - {id};
      }
      userSets := userSets - {address};
    }

    // SADD, then EXPIRE.
    method AddUserSession(address: Address, id: SessionId, pause: nat)
      modifies this`now, this`userSets
      ensures Model() == ExpireSet(Wait(AddMember(old(Model()), address, id), pause), address, config.ttl)
    {
      var live := address in userSets && Live(userSets[address], now);
      var until := if live then userSets[address].until else None;
      userSets := userSets[address := Key(MembersOf(Model(), address) + {id}, until)];
      Tick(pause);
      if Live(userSets[address], now) {
        userSets := userSets[address := Key(userSets[address].value, Some(now + config.ttl))];
      }
    }

    method CreateSession(address: Address, id: SessionId, secret: string, d: Delays) returns (data: SessionData)
      modifies this`now, this`sessions, this`userSets
      ensures data == NewData(old(Model()), address, id, secret, config)
      ensures Model() == CreateSessionEffect(old(Model()), data, d, config.ttl)
    {
      data := SessionData(id, address, config.hash(secret), now, now + config.ttl);
      Tick(d.beforeSet);
      sessions := sessions[id := Key(data, Some(now + config.ttl))];
      Tick(d.beforeAdd);
      AddUserSession(address, id, d.beforeExpire);
    }

    // The message is checked, its signature verified (`signatureOk`), the user
    // row found or created, old sessions deleted and a new one created.
    method Authenticate(
      address: Address, message: string, signatureOk: bool, id: SessionId, secret: string, d: Delays)
      returns (r: Result<AuthResponse>)
      modifies this
      ensures r.Success? <==> SignIn.Check(message, old(now)).Success? && signatureOk
      ensures r.Failure? ==> Model() == old(Model()) && users == old(users)
      ensures r.Success? ==>
        && Model() == LoginEffect(old(Model()), address, id, secret, d, config)
        && users == (if address in old(users) then old(users) else old(users)[address := None])
        && r.value == AuthResponse(
             CreateToken(id, secret), address, old(now) + d.beforeMake + config.ttl, address !in old(users))
    {
      var checked := SignIn.Check(message, now);
      if checked.Failure? {
        return Failure(checked.error);
      }
      if !signatureOk {
        return Failure(Unauthorized);
      }
      var isNew := FindOrCreateUser(address);
      var _ := InvalidateUserSessions(address);
      Tick(d.beforeMake);
      var data := CreateSession(address, id, secret, d);
      r := Success(AuthResponse(CreateToken(id, secret), address, data.expiresAt, isNew));
    }

    method ValidateSession(token: string, pause: nat) returns (r: Option<UserSession>)
      modifies this`now
      ensures r == Validate(old(Model()), token, pause, config)
      ensures now == old(now) || now == old(now) + pause
    {
      var parts := ParseToken(token);
      if parts.None? {
        return None;
      }
      var (id, secret) := parts.value;
      if !(id in sessions && Live(sessions[id], now)) {
        return None;
      }
      var data := sessions[id].value;
      if data.secretHash != config.hash(secret) {
        return None;
      }
      Tick(pause);
      if data.expiresAt < now {
        return None;
      }
      return Some(UserSession(data.id, data.address, data.createdAt, data.expiresAt));
    }

    method LogoutSession(token: string)
      modifies this`sessions
      ensures Model() == match QuitTarget(old(Model()), token, config)
        case Some(id) => DelSession(old(Model()), id)
        case None => old(Model())
    {
      var parts := ParseToken(token);
      if parts.Some? {
        var (id, secret) := parts.value;
        if id in sessions && Live(sessions[id], now) && sessions[id].value.secretHash == config.hash(secret) {
          sessions := sessions - {id};
        }
      }
    }
  }
}
