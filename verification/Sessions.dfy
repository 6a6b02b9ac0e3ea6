/**
 Login sessions in a store whose keys expire: one key a session, one set of
 session ids an address. A login deletes every session in the address's set,
 then creates one. Every store operation of a login is a step of its own, and
 the logins, logouts and validations of all addresses interleave freely; an
 address has at most one login in flight.
 */
module Sessions {
  import opened Domain

  type SessionId = string

  datatype SessionData = SessionData(
    id: SessionId, address: Address, secretHash: string, createdAt: nat, expiresAt: nat)

  // A key with its value and the first instant at which it no longer exists;
  // None for a key without expiry.
  datatype Key<T> = Key(value: T, until: Option<nat>)

  datatype Store = Store(
    now: nat,
    sessions: map<SessionId, Key<SessionData>>,
    userSets: map<Address, Key<set<SessionId>>>)

  datatype UserSession = UserSession(id: SessionId, address: Address, createdAt: nat, expiresAt: nat)

  datatype Config = Config(ttl: nat, hash: string -> string)

  // ---------- tokens: id, colon, secret ----------

  function CreateToken(id: SessionId, secret: string): string {
    id + ":" + secret
  }

  // splitn(2, ':'): everything after the first colon is the secret.
  function ParseToken(token: string): Option<(SessionId, string)> {
    if token == "" then None
    else if token[0] == ':' then Some(("", token[1..]))
    else
      match ParseToken(token[1..])
      case Some((id, secret)) => Some(([token[0]] + id, secret))
      case None => None
  }

  // A token parses back exactly when its id has no colon.
  lemma {:induction false} TokenRoundTrip(id: SessionId, secret: string)
    ensures ParseToken(CreateToken(id, secret)) == Some((id, secret)) <==> ':' !in id
  {
    var token := CreateToken(id, secret);
    if id == "" {
      assert token[1..] == secret;
    } else {
      TokenRoundTrip(id[1..], secret);
      assert token[1..] == CreateToken(id[1..], secret);
      assert id == [id[0]] + id[1..];
      FirstPartHasNoColon(token);
    }
  }

  lemma {:induction false} FirstPartHasNoColon(token: string)
    ensures match ParseToken(token)
      case Some((id, secret)) => ':' !in id && token == CreateToken(id, secret)
      case None => ':' !in token
  {
    if token != "" {
      FirstPartHasNoColon(token[1..]);
      assert token == [token[0]] + token[1..];
    }
  }

  // ---------- the store operations ----------

  predicate Live<T>(k: Key<T>, now: nat) {
    k.until.None? || now < k.until.value
  }

  predicate Exists(s: Store, id: SessionId) {
    id in s.sessions && Live(s.sessions[id], s.now)
  }

  // SMEMBERS
  function MembersOf(s: Store, address: Address): set<SessionId> {
    if address in s.userSets && Live(s.userSets[address], s.now) then s.userSets[address].value else {}
  }

  function Wait(s: Store, seconds: nat): Store {
    s.(now := s.now + seconds)
  }

  // SETEX
  function SetSession(s: Store, data: SessionData, ttl: nat): Store {
    s.(sessions := s.sessions[data.id := Key(data, Some(s.now + ttl))])
  }

  function DelSession(s: Store, id: SessionId): Store {
    s.(sessions := s.sessions - {id})
  }

  function DelSet(s: Store, address: Address): Store {
    s.(userSets := s.userSets - {address})
  }

  // SADD: a new set has no expiry, an existing one keeps its own.
  function AddMember(s: Store, address: Address, id: SessionId): Store {
    var until := if address in s.userSets && Live(s.userSets[address], s.now)
      then s.userSets[address].until else None;
    s.(userSets := s.userSets[address := Key(MembersOf(s, address) + {id}, until)])
  }

  // EXPIRE
  function ExpireSet(s: Store, address: Address, ttl: nat): Store {
    if address in s.userSets && Live(s.userSets[address], s.now)
      then s.(userSets := s.userSets[address := Key(s.userSets[address].value, Some(s.now + ttl))])
    else s
  }

  function NewData(s: Store, address: Address, id: SessionId, secret: string, c: Config): SessionData {
    SessionData(id, address, c.hash(secret), s.now, s.now + c.ttl)
  }

  // GET the session, then compare; `pause` passes before the clock is read.
  function Validate(s: Store, token: string, pause: nat, c: Config): Option<UserSession> {
    match ParseToken(token)
    case None => None
    case Some((id, secret)) =>
      if !Exists(s, id) then None
      else
        var data := s.sessions[id].value;
        if data.secretHash != c.hash(secret) || data.expiresAt < s.now + pause then None
        else Some(UserSession(data.id, data.address, data.createdAt, data.expiresAt))
  }

  // Whether a logout with this token goes on to delete the session.
  function QuitTarget(s: Store, token: string, c: Config): Option<SessionId> {
    match ParseToken(token)
    case None => None
    case Some((id, secret)) =>
      if Exists(s, id) && s.sessions[id].value.secretHash == c.hash(secret) then Some(id) else None
  }

  // ---------- interleaved logins and logouts ----------

  // How far the login of an address has come: the members read and still to
  // delete; the set dropped; the data made; the session stored; the id added.
  datatype Phase =
    | Deleting(rest: set<SessionId>)
    | Dropped
    | Made(data: SessionData)
    | Stored(data: SessionData)
    | Added(data: SessionData)

  // `leaving` are the ids that some logout has checked; `issued` remembers the
  // address every id was made for, `orphans` the ids whose login died between
  // storing the session and adding it to the set, `returned` the ids whose token
  // the user has been given.
  datatype System = System(
    store: Store, logins: map<Address, Phase>, leaving: set<SessionId>, issued: map<SessionId, Address>,
    orphans: set<SessionId>, returned: set<SessionId>)

  datatype Step =
    | Begin(address: Address)
    | DeleteOne(address: Address, id: SessionId)
    | DropSet(address: Address)
    | Make(address: Address, id: SessionId, secret: string)
    | StoreSession(address: Address)
    | AddToSet(address: Address)
    | RenewSet(address: Address)
    | Abandon(address: Address)
    | CheckQuit(token: string)
    | DeleteQuit(id: SessionId)
    | Pass(seconds: nat)

  predicate In(s: System, a: Address) {
    a in s.logins
  }

  predicate Enabled(s: System, t: Step) {
    match t
    case Begin(a) => !In(s, a)
    case DeleteOne(a, id) => In(s, a) && s.logins[a].Deleting? && id in s.logins[a].rest
    case DropSet(a) => In(s, a) && s.logins[a] == Deleting({})
    // a fresh id, of a form without colon
    case Make(a, id, secret) => In(s, a) && s.logins[a].Dropped? && id !in s.issued && ':' !in id
    case StoreSession(a) => In(s, a) && s.logins[a].Made?
    case AddToSet(a) => In(s, a) && s.logins[a].Stored?
    case RenewSet(a) => In(s, a) && s.logins[a].Added?
    // a login may die anywhere
    case Abandon(a) => In(s, a)
    case CheckQuit(token) => true
    case DeleteQuit(id) => id in s.leaving
    case Pass(seconds) => true
  }

  function Do(s: System, t: Step, c: Config): System
    requires Enabled(s, t)
  {
    match t
    case Begin(a) => s.(logins := s.logins[a := Deleting(MembersOf(s.store, a))])
    case DeleteOne(a, id) =>
      s.(store := DelSession(s.store, id), logins := s.logins[a := Deleting(s.logins[a].rest - {id})])
    case DropSet(a) => s.(store := DelSet(s.store, a), logins := s.logins[a := Dropped])
    case Make(a, id, secret) =>
      s.(logins := s.logins[a := Made(NewData(s.store, a, id, secret, c))], issued := s.issued[id := a])
    case StoreSession(a) =>
      var data := s.logins[a].data;
      s.(store := SetSession(s.store, data, c.ttl), logins := s.logins[a := Stored(data)])
    case AddToSet(a) =>
      var data := s.logins[a].data;
      s.(store := AddMember(s.store, a, data.id), logins := s.logins[a := Added(data)])
    case RenewSet(a) =>
      s.(store := ExpireSet(s.store, a, c.ttl), logins := s.logins - {a}, returned := s.returned + {s.logins[a].data.id})
    case Abandon(a) =>
      s.(logins := s.logins - {a},
         orphans := if s.logins[a].Stored? then s.orphans + {s.logins[a].data.id} else s.orphans)
    case CheckQuit(token) =>
      var target := QuitTarget(s.store, token, c);
      if target.Some? then s.(leaving := s.leaving + {target.value}) else s
    case DeleteQuit(id) => s.(store := DelSession(s.store, id))
    case Pass(seconds) => s.(store := Wait(s.store, seconds))
  }

  // ---------- what the store keeps ----------

  // A live session of the address, orphans aside.
  ghost predicate LiveOf(s: System, a: Address, id: SessionId) {
    Exists(s.store, id) && s.store.sessions[id].value.address == a && id !in s.orphans
  }

  // The set of the session's address lists it and does not expire before it.
  ghost predicate Tracked(s: Store, id: SessionId)
    requires id in s.sessions
  {
    var k, sets := s.sessions[id], s.userSets;
    var a := k.value.address;
    && a in sets && id in sets[a].value
    && (sets[a].until.None? || (k.until.Some? && k.until.value <= sets[a].until.value))
  }

  // A session that its own login has stored and not yet added.
  ghost predicate BeingStored(s: System, id: SessionId)
    requires id in s.store.sessions
  {
    var a := s.store.sessions[id].value.address;
    In(s, a) && s.logins[a].Stored? && s.logins[a].data.id == id
  }

  ghost predicate SessionOk(s: System, id: SessionId, c: Config) {
    id in s.store.sessions ==>
      var k := s.store.sessions[id];
      && k.value.id == id && ':' !in id
      && id in s.issued && s.issued[id] == k.value.address
      && k.until.Some? && k.value.expiresAt <= k.until.value <= s.store.now + c.ttl
      && (Exists(s.store, id) && id !in s.orphans ==> Tracked(s.store, id) || BeingStored(s, id))
  }

  // An orphan was made once, its token was never given away, and no set lists it.
  ghost predicate OrphanOk(s: System, id: SessionId) {
    && (id in s.returned ==> id in s.issued)
    && (id in s.orphans ==>
         && id in s.issued && id !in s.returned
         && forall a :: a in s.store.userSets ==> id !in s.store.userSets[a].value)
  }

  ghost predicate OwnData(s: System, a: Address, data: SessionData) {
    && data.address == a && data.id in s.issued && s.issued[data.id] == a
    && ':' !in data.id && data.id !in s.orphans && data.id !in s.returned
  }

  ghost predicate PhaseOk(s: System, a: Address, c: Config)
    requires In(s, a)
  {
    match s.logins[a]
    case Deleting(rest) =>
      && (forall id :: id in rest ==> id in s.issued && s.issued[id] == a && id !in s.orphans)
      && (forall id :: LiveOf(s, a, id) ==> id in rest)
    case Dropped =>
      a !in s.store.userSets && forall id :: !LiveOf(s, a, id)
    case Made(data) =>
      && a !in s.store.userSets && OwnData(s, a, data) && data.id !in s.store.sessions
      && data.createdAt <= s.store.now && data.expiresAt == data.createdAt + c.ttl
      && forall id :: !LiveOf(s, a, id)
    case Stored(data) =>
      a !in s.store.userSets && OwnData(s, a, data) && forall id :: LiveOf(s, a, id) ==> id == data.id
    case Added(data) =>
      OwnData(s, a, data) && forall id :: LiveOf(s, a, id) ==> id == data.id
  }

  ghost predicate AddressOk(s: System, a: Address, c: Config) {
    && (a in s.store.userSets ==>
         forall id :: id in s.store.userSets[a].value ==> id in s.issued && s.issued[id] == a)
    && (In(s, a) ==> PhaseOk(s, a, c))
    && (forall i, j :: LiveOf(s, a, i) && LiveOf(s, a, j) ==> i == j)
  }

  ghost predicate SessionInv(s: System, c: Config) {
    && (forall id :: SessionOk(s, id, c) && OrphanOk(s, id))
    && (forall a :: AddressOk(s, a, c))
  }

  // No step revives a session; only the storing step of a login creates one.
  lemma NothingRevives(s: System, t: Step, c: Config, a: Address, id: SessionId)
    requires Enabled(s, t) && LiveOf(Do(s, t, c), a, id)
    ensures LiveOf(s, a, id) || (t.StoreSession? && s.logins[t.address].data.id == id && s.logins[t.address].data.address == a)
  {
  }

  // A login that begins reads every live session of its address.
  lemma BeginSeesAll(s: System, c: Config, a: Address, id: SessionId)
    requires SessionInv(s, c) && !In(s, a) && LiveOf(s, a, id)
    ensures id in MembersOf(s.store, a)
  {
    assert SessionOk(s, id, c);
  }

  lemma LiveComesFrom(s: System, t: Step, c: Config, a: Address, id: SessionId)
    requires SessionInv(s, c) && Enabled(s, t) && LiveOf(Do(s, t, c), a, id)
    ensures LiveOf(s, a, id) || (t == StoreSession(a) && id == s.logins[a].data.id)
  {
    NothingRevives(s, t, c, a, id);
    if t.StoreSession? { assert AddressOk(s, t.address, c); }
  }

  // A step of another address's login, of a logout or of time.
  lemma KeepsOtherPhase(s: System, t: Step, c: Config, a: Address)
    requires SessionInv(s, c) && Enabled(s, t)
    requires In(s, a) && In(Do(s, t, c), a) && Do(s, t, c).logins[a] == s.logins[a]
    ensures PhaseOk(Do(s, t, c), a, c)
  {
    assert AddressOk(s, a, c);
    forall id | LiveOf(Do(s, t, c), a, id) ensures LiveOf(s, a, id) { LiveComesFrom(s, t, c, a, id); }
    if t.StoreSession? || t.RenewSet? || t.Abandon? { assert AddressOk(s, t.address, c); }
  }

  // A step of the address's own login.
  lemma KeepsOwnPhase(s: System, t: Step, c: Config, a: Address)
    requires SessionInv(s, c) && Enabled(s, t) && In(Do(s, t, c), a)
    requires !In(s, a) || Do(s, t, c).logins[a] != s.logins[a]
    ensures PhaseOk(Do(s, t, c), a, c)
  {
    var s' := Do(s, t, c);
    assert AddressOk(s, a, c);
    forall id | LiveOf(s', a, id)
      ensures LiveOf(s, a, id) || (t == StoreSession(a) && id == s.logins[a].data.id)
    {
      LiveComesFrom(s, t, c, a, id);
    }
    if t.Begin? {
      forall id | LiveOf(s', a, id) ensures id in s'.logins[a].rest { BeginSeesAll(s, c, a, id); }
      forall id | id in s'.logins[a].rest ensures id !in s.orphans { assert OrphanOk(s, id); }
    } else if t.Make? {
      assert SessionOk(s, t.id, c);
    }
  }

  lemma KeepsPhase(s: System, t: Step, c: Config, a: Address)
    requires SessionInv(s, c) && Enabled(s, t) && In(Do(s, t, c), a)
    ensures PhaseOk(Do(s, t, c), a, c)
  {
    if In(s, a) && Do(s, t, c).logins[a] == s.logins[a] {
      KeepsOtherPhase(s, t, c, a);
    } else {
      KeepsOwnPhase(s, t, c, a);
    }
  }

  lemma KeepsUnique(s: System, t: Step, c: Config, a: Address, i: SessionId, j: SessionId)
    requires SessionInv(s, c) && Enabled(s, t) && LiveOf(Do(s, t, c), a, i) && LiveOf(Do(s, t, c), a, j)
    ensures i == j
  {
    assert AddressOk(s, a, c);
    NothingRevives(s, t, c, a, i);
    NothingRevives(s, t, c, a, j);
    if t.StoreSession? { assert AddressOk(s, t.address, c); }
  }

  lemma KeepsSet(s: System, t: Step, c: Config, a: Address, id: SessionId)
    requires SessionInv(s, c) && Enabled(s, t)
    requires a in Do(s, t, c).store.userSets && id in Do(s, t, c).store.userSets[a].value
    ensures id in Do(s, t, c).issued && Do(s, t, c).issued[id] == a
  {
    assert AddressOk(s, a, c);
  }

  lemma KeepsAddress(s: System, t: Step, c: Config, a: Address)
    requires SessionInv(s, c) && Enabled(s, t)
    ensures AddressOk(Do(s, t, c), a, c)
  {
    var s' := Do(s, t, c);
    if In(s', a) { KeepsPhase(s, t, c, a); }
    if a in s'.store.userSets {
      forall id | id in s'.store.userSets[a].value ensures id in s'.issued && s'.issued[id] == a {
        KeepsSet(s, t, c, a, id);
      }
    }
    forall i, j | LiveOf(s', a, i) && LiveOf(s', a, j) ensures i == j {
      KeepsUnique(s, t, c, a, i, j);
    }
  }

  // A session that already exists stays tracked.
  lemma KeepsTracked(s: System, t: Step, c: Config, id: SessionId)
    requires SessionInv(s, c) && Enabled(s, t) && Exists(s.store, id) && Exists(Do(s, t, c).store, id)
    requires id !in Do(s, t, c).orphans
    requires !(t.StoreSession? && s.logins[t.address].data.id == id)
    ensures Tracked(Do(s, t, c).store, id) || BeingStored(Do(s, t, c), id)
  {
    var a := s.store.sessions[id].value.address;
    assert SessionOk(s, id, c) && AddressOk(s, a, c) && LiveOf(s, a, id);
  }

  lemma KeepsSession(s: System, t: Step, c: Config, id: SessionId)
    requires SessionInv(s, c) && Enabled(s, t)
    ensures SessionOk(Do(s, t, c), id, c)
  {
    var s' := Do(s, t, c);
    assert SessionOk(s, id, c);
    if id in s'.store.sessions {
      if t.StoreSession? && s.logins[t.address].data.id == id {
        assert AddressOk(s, t.address, c);
        assert BeingStored(s', id);
      } else if Exists(s'.store, id) && id !in s'.orphans {
        KeepsTracked(s, t, c, id);
      }
    }
  }

  // A login that dies leaves an id that only its own phase knew.
  lemma KeepsOrphan(s: System, t: Step, c: Config, id: SessionId)
    requires SessionInv(s, c) && Enabled(s, t)
    ensures OrphanOk(Do(s, t, c), id)
  {
    assert OrphanOk(s, id);
    if t.Abandon? || t.AddToSet? || t.RenewSet? { assert AddressOk(s, t.address, c); }
    if t.Abandon? && s.logins[t.address].Stored? && id == s.logins[t.address].data.id {
      forall a | a in s.store.userSets ensures id !in s.store.userSets[a].value {
        assert AddressOk(s, a, c);
      }
    }
  }

  lemma StepKeeps(s: System, t: Step, c: Config)
    requires SessionInv(s, c) && Enabled(s, t)
    ensures SessionInv(Do(s, t, c), c)
  {
    forall id ensures SessionOk(Do(s, t, c), id, c) && OrphanOk(Do(s, t, c), id) {
      KeepsSession(s, t, c, id);
      KeepsOrphan(s, t, c, id);
    }
    forall a ensures AddressOk(Do(s, t, c), a, c) { KeepsAddress(s, t, c, a); }
  }

  // ---------- runs ----------

  ghost predicate IsSessionRun(ss: seq<System>, steps: seq<Step>, c: Config) {
    && |ss| == |steps| + 1
    && ss[0].store.sessions == map[] && ss[0].store.userSets == map[]
    && ss[0].logins == map[] && ss[0].leaving == {} && ss[0].issued == map[]
    && ss[0].orphans == {} && ss[0].returned == {}
    && forall i :: 0 <= i < |steps| ==> Enabled(ss[i], steps[i]) && ss[i + 1] == Do(ss[i], steps[i], c)
  }

  lemma {:induction false} RunKeepsSessions(ss: seq<System>, steps: seq<Step>, c: Config, k: nat)
    requires IsSessionRun(ss, steps, c) && k < |ss|
    ensures SessionInv(ss[k], c)
  {
    if k > 0 {
      RunKeepsSessions(ss, steps, c, k - 1);
      assert Enabled(ss[k - 1], steps[k - 1]) && ss[k - 1 + 1] == Do(ss[k - 1], steps[k - 1], c);
      StepKeeps(ss[k - 1], steps[k - 1], c);
    }
  }

  // Whatever logins, logouts and delays interleave, a live session of an
  // address with no login in flight is in its address's set, and the set does
  // not expire before it, unless the session is an orphan.
  lemma IdleSessionsAreTracked(ss: seq<System>, steps: seq<Step>, c: Config, k: nat, id: SessionId)
    requires IsSessionRun(ss, steps, c) && k < |ss| && Exists(ss[k].store, id) && id !in ss[k].orphans
    requires !In(ss[k], ss[k].store.sessions[id].value.address)
    ensures Tracked(ss[k].store, id)
    ensures id in MembersOf(ss[k].store, ss[k].store.sessions[id].value.address)
  {
    RunKeepsSessions(ss, steps, c, k);
    assert SessionOk(ss[k], id, c);
  }

  // The token of an orphan was never given to anyone, and no set lists it.
  lemma OrphansWereNeverReturned(ss: seq<System>, steps: seq<Step>, c: Config, k: nat, id: SessionId)
    requires IsSessionRun(ss, steps, c) && k < |ss| && id in ss[k].orphans
    ensures id !in ss[k].returned
    ensures forall a :: id !in MembersOf(ss[k].store, a)
  {
    RunKeepsSessions(ss, steps, c, k);
    assert OrphanOk(ss[k], id);
  }

  // Orphans aside, at most one session of an address is ever live, at every
  // point of every login of every address.
  lemma OneLiveSession(ss: seq<System>, steps: seq<Step>, c: Config, k: nat, i: SessionId, j: SessionId)
    requires IsSessionRun(ss, steps, c) && k < |ss|
    requires Exists(ss[k].store, i) && Exists(ss[k].store, j) && i !in ss[k].orphans && j !in ss[k].orphans
    requires ss[k].store.sessions[i].value.address == ss[k].store.sessions[j].value.address
    ensures i == j
  {
    RunKeepsSessions(ss, steps, c, k);
    var a := ss[k].store.sessions[i].value.address;
    assert AddressOk(ss[k], a, c) && LiveOf(ss[k], a, i) && LiveOf(ss[k], a, j);
  }

  // ---------- the life of one session ----------

  // Step i stores the session `data` made earlier by a login of its address.
  ghost predicate StoresAt(ss: seq<System>, steps: seq<Step>, i: nat, data: SessionData) {
    && i < |steps| && i < |ss|
    && steps[i] == StoreSession(data.address) && In(ss[i], data.address) && ss[i].logins[data.address] == Made(data)
  }

  // The only two deletions that remove a session.
  predicate Removes(t: Step, id: SessionId) {
    t == DeleteQuit(id) || (t.DeleteOne? && t.id == id)
  }

  // Its id is the address's, is not about to be stored again, and what is
  // stored under it is what was stored first.
  ghost predicate Holds(s: System, data: SessionData, until: nat) {
    && data.id in s.issued && s.issued[data.id] == data.address
    && (In(s, data.address) && s.logins[data.address].Made? ==> s.logins[data.address].data.id != data.id)
    && (data.id in s.store.sessions ==> s.store.sessions[data.id] == Key(data, Some(until)))
  }

  lemma StoringHolds(s: System, c: Config, data: SessionData)
    requires SessionInv(s, c) && In(s, data.address) && s.logins[data.address] == Made(data)
    ensures
      var s' := Do(s, StoreSession(data.address), c);
      Holds(s', data, s.store.now + c.ttl) && data.id in s'.store.sessions
  {
    assert AddressOk(s, data.address, c);
  }

  lemma StepHolds(s: System, t: Step, c: Config, data: SessionData, until: nat)
    requires SessionInv(s, c) && Enabled(s, t) && Holds(s, data, until)
    ensures Holds(Do(s, t, c), data, until)
    ensures data.id in Do(s, t, c).store.sessions <==> data.id in s.store.sessions && !Removes(t, data.id)
  {
    if t.StoreSession? { assert AddressOk(s, t.address, c); }
  }

  lemma RunHolds(
    ss: seq<System>, steps: seq<Step>, c: Config, k: nat, data: SessionData, until: nat)
    requires IsSessionRun(ss, steps, c) && k < |steps| && Holds(ss[k], data, until)
    ensures Holds(ss[k + 1], data, until)
    ensures data.id in ss[k + 1].store.sessions <==> data.id in ss[k].store.sessions && !Removes(steps[k], data.id)
    ensures !Exists(ss[k].store, data.id) ==> !Exists(ss[k + 1].store, data.id)
  {
    RunKeepsSessions(ss, steps, c, k);
    StepHolds(ss[k], steps[k], c, data, until);
    if !Exists(ss[k].store, data.id) { EndedStaysEnded(ss[k], steps[k], c, data, until); }
  }

  lemma RunStores(ss: seq<System>, steps: seq<Step>, c: Config, i: nat, data: SessionData)
    requires IsSessionRun(ss, steps, c) && StoresAt(ss, steps, i, data)
    ensures Holds(ss[i + 1], data, ss[i].store.now + c.ttl) && data.id in ss[i + 1].store.sessions
  {
    RunKeepsSessions(ss, steps, c, i);
    StoringHolds(ss[i], c, data);
  }

  // What a session was stored as, as long as it is stored.
  lemma {:induction false} StoredKey(
    ss: seq<System>, steps: seq<Step>, c: Config, i: nat, k: nat, data: SessionData)
    requires IsSessionRun(ss, steps, c) && i < k < |ss| && StoresAt(ss, steps, i, data)
    ensures Holds(ss[k], data, ss[i].store.now + c.ttl)
    ensures data.id in ss[k].store.sessions <==> forall j :: i < j < k ==> !Removes(steps[j], data.id)
    decreases k
  {
    if k == i + 1 {
      RunStores(ss, steps, c, i, data);
    } else {
      StoredKey(ss, steps, c, i, k - 1, data);
      RunHolds(ss, steps, c, k - 1, data, ss[i].store.now + c.ttl);
    }
  }

  // A token validates if and only if no logout and no later login has removed
  // its session and neither expiry has passed when it is checked; it then
  // yields the address that logged in.
  lemma TokenValidExactlyWhile(
    ss: seq<System>, steps: seq<Step>, c: Config, i: nat, k: nat, data: SessionData, secret: string, pause: nat)
    requires IsSessionRun(ss, steps, c) && i < k < |ss| && StoresAt(ss, steps, i, data)
    requires data.secretHash == c.hash(secret)
    ensures
      var r := Validate(ss[k].store, CreateToken(data.id, secret), pause, c);
      && (r.Some? <==>
           && (forall j :: i < j < k ==> !Removes(steps[j], data.id))
           && ss[k].store.now < ss[i].store.now + c.ttl && ss[k].store.now + pause <= data.expiresAt)
      && (r.Some? ==> r.value == UserSession(data.id, data.address, data.createdAt, data.expiresAt))
  {
    RunKeepsSessions(ss, steps, c, i);
    assert AddressOk(ss[i], data.address, c);
    TokenRoundTrip(data.id, secret);
    StoredKey(ss, steps, c, i, k, data);
  }

  // Before its session is stored a token does not validate.
  lemma NotYetStored(ss: seq<System>, steps: seq<Step>, c: Config, i: nat, data: SessionData, secret: string, pause: nat)
    requires IsSessionRun(ss, steps, c) && StoresAt(ss, steps, i, data)
    ensures Validate(ss[i].store, CreateToken(data.id, secret), pause, c).None?
  {
    RunKeepsSessions(ss, steps, c, i);
    assert AddressOk(ss[i], data.address, c);
    TokenRoundTrip(data.id, secret);
  }

  // The stored data was made by this login: its address, the hash of its secret,
  // the clock of that moment and the expiry a lifetime later.
  lemma {:induction false} MadeEarlier(ss: seq<System>, steps: seq<Step>, c: Config, k: nat, a: Address)
    requires IsSessionRun(ss, steps, c) && k < |ss|
    requires In(ss[k], a) && ss[k].logins[a].Made?
    ensures exists m, secret ::
      && 0 <= m < k && steps[m] == Make(a, ss[k].logins[a].data.id, secret)
      && ss[k].logins[a].data == SessionData(
           ss[k].logins[a].data.id, a, c.hash(secret), ss[m].store.now, ss[m].store.now + c.ttl)
  {
    var s, t := ss[k - 1], steps[k - 1];
    assert Enabled(s, t) && ss[k - 1 + 1] == Do(s, t, c);
    if !(t.Make? && t.address == a) {
      MadeEarlier(ss, steps, c, k - 1, a);
    } else {
      assert steps[k - 1] == Make(a, ss[k].logins[a].data.id, t.secret);
    }
  }

  // ---------- who removes a session ----------

  lemma DroppingEnds(s: System, c: Config, data: SessionData, until: nat)
    requires SessionInv(s, c) && Enabled(s, DropSet(data.address)) && Holds(s, data, until)
    requires data.id !in s.orphans
    ensures !Exists(Do(s, DropSet(data.address), c).store, data.id)
  {
    assert AddressOk(s, data.address, c);
    assert !LiveOf(s, data.address, data.id);
  }

  lemma EndedStaysEnded(s: System, t: Step, c: Config, data: SessionData, until: nat)
    requires SessionInv(s, c) && Enabled(s, t) && Holds(s, data, until) && !Exists(s.store, data.id)
    ensures !Exists(Do(s, t, c).store, data.id)
  {
    StepHolds(s, t, c, data, until);
  }

  // Once a later login of the address has dropped the set, the session is gone
  // for good, unless its own login died half-way; so after a completed re-login
  // every token given out earlier fails.
  lemma {:induction false} LaterLoginEnds(
    ss: seq<System>, steps: seq<Step>, c: Config, i: nat, j: nat, k: nat, data: SessionData)
    requires IsSessionRun(ss, steps, c) && i < j < k < |ss| && StoresAt(ss, steps, i, data)
    requires steps[j] == DropSet(data.address) && data.id !in ss[j].orphans
    ensures !Exists(ss[k].store, data.id)
    decreases k
  {
    StoredKey(ss, steps, c, i, k - 1, data);
    if k == j + 1 {
      RunKeepsSessions(ss, steps, c, j);
      assert Enabled(ss[j], steps[j]);
      DroppingEnds(ss[j], c, data, ss[i].store.now + c.ttl);
    } else {
      LaterLoginEnds(ss, steps, c, i, j, k - 1, data);
      RunHolds(ss, steps, c, k - 1, data, ss[i].store.now + c.ttl);
    }
  }

  // A login that is deleting has begun after the address last stored a session.
  lemma {:induction false} DeletingBegan(
    ss: seq<System>, steps: seq<Step>, c: Config, i: nat, j: nat, data: SessionData)
    requires IsSessionRun(ss, steps, c) && i < j < |ss| && StoresAt(ss, steps, i, data)
    requires In(ss[j], data.address) && ss[j].logins[data.address].Deleting?
    ensures exists b :: i < b < j && steps[b] == Begin(data.address)
    decreases j
  {
    var s, t := ss[j - 1], steps[j - 1];
    assert Enabled(s, t) && ss[j - 1 + 1] == Do(s, t, c);
    if t != Begin(data.address) { DeletingBegan(ss, steps, c, i, j - 1, data); }
  }

  lemma {:induction false} LeavingWasChecked(ss: seq<System>, steps: seq<Step>, c: Config, k: nat, id: SessionId)
    requires IsSessionRun(ss, steps, c) && k < |ss| && id in ss[k].leaving
    ensures exists q, token :: 0 <= q < k && steps[q] == CheckQuit(token) && QuitTarget(ss[q].store, token, c) == Some(id)
  {
    var s, t := ss[k - 1], steps[k - 1];
    assert Enabled(s, t) && ss[k - 1 + 1] == Do(s, t, c);
    if id in s.leaving { LeavingWasChecked(ss, steps, c, k - 1, id); }
  }

  // A session is removed only by a login of its own address that began after
  // it was stored, or by a logout whose token has its id and a secret with the
  // stored hash.
  lemma OnlyOwnerRemoves(ss: seq<System>, steps: seq<Step>, c: Config, i: nat, j: nat, data: SessionData)
    requires IsSessionRun(ss, steps, c) && i < j < |steps| && StoresAt(ss, steps, i, data)
    requires Removes(steps[j], data.id)
    ensures
      || (steps[j] == DeleteOne(data.address, data.id) && exists b :: i < b < j && steps[b] == Begin(data.address))
      || (exists q, token :: 0 <= q < j && steps[q] == CheckQuit(token) && QuitTarget(ss[q].store, token, c) == Some(data.id))
  {
    var t := steps[j];
    assert Enabled(ss[j], t);
    if t.DeleteOne? {
      RunKeepsSessions(ss, steps, c, j);
      RunKeepsSessions(ss, steps, c, i);
      assert AddressOk(ss[j], t.address, c) && AddressOk(ss[i], data.address, c);
      IssuedStays(ss, steps, c, i, j, data.id);
      DeletingBegan(ss, steps, c, i, j, data);
    } else {
      LeavingWasChecked(ss, steps, c, j, data.id);
    }
  }

  // No login removes an orphan: it stays until it expires or a logout names its
  // id and a secret of the stored hash.
  lemma OnlyLogoutRemovesOrphans(ss: seq<System>, steps: seq<Step>, c: Config, j: nat, id: SessionId)
    requires IsSessionRun(ss, steps, c) && j < |steps| && id in ss[j].orphans && Removes(steps[j], id)
    ensures steps[j] == DeleteQuit(id)
    ensures exists q, token :: 0 <= q < j && steps[q] == CheckQuit(token) && QuitTarget(ss[q].store, token, c) == Some(id)
  {
    RunKeepsSessions(ss, steps, c, j);
    assert Enabled(ss[j], steps[j]);
    NoLoginDeletes(ss[j], steps[j], c, id);
    LeavingWasChecked(ss, steps, c, j, id);
  }

  lemma NoLoginDeletes(s: System, t: Step, c: Config, id: SessionId)
    requires SessionInv(s, c) && Enabled(s, t) && id in s.orphans
    ensures t.DeleteOne? ==> t.id != id
  {
    if t.DeleteOne? { assert AddressOk(s, t.address, c); }
  }

  lemma {:induction false} IssuedStays(ss: seq<System>, steps: seq<Step>, c: Config, i: nat, j: nat, id: SessionId)
    requires IsSessionRun(ss, steps, c) && i <= j < |ss| && id in ss[i].issued
    ensures id in ss[j].issued && ss[j].issued[id] == ss[i].issued[id]
    decreases j
  {
    if i < j {
      IssuedStays(ss, steps, c, i, j - 1, id);
      assert Enabled(ss[j - 1], steps[j - 1]) && ss[j - 1 + 1] == Do(ss[j - 1], steps[j - 1], c);
    }
  }

  // With an injective hash, no other secret opens the session of an id.
  lemma OnlyTheSecretOpens(
    ss: seq<System>, steps: seq<Step>, c: Config, i: nat, k: nat, data: SessionData,
    secret: string, other: string, pause: nat)
    requires IsSessionRun(ss, steps, c) && i < k < |ss| && StoresAt(ss, steps, i, data)
    requires data.secretHash == c.hash(secret) && forall x, y :: c.hash(x) == c.hash(y) ==> x == y
    requires Validate(ss[k].store, CreateToken(data.id, other), pause, c).Some?
    ensures other == secret
  {
    RunKeepsSessions(ss, steps, c, i);
    assert AddressOk(ss[i], data.address, c);
    TokenRoundTrip(data.id, other);
    StoredKey(ss, steps, c, i, k, data);
  }

  // A login that completes leaves the address's set to expire a lifetime later.
  lemma CompletedSetExpires(ss: seq<System>, steps: seq<Step>, c: Config, k: nat, a: Address)
    requires IsSessionRun(ss, steps, c) && k < |steps| && steps[k] == RenewSet(a)
    requires a in ss[k].store.userSets && Live(ss[k].store.userSets[a], ss[k].store.now)
    ensures
      var set', now := ss[k + 1].store.userSets, ss[k].store.now;
      a in set' && set'[a] == Key(ss[k].store.userSets[a].value, Some(now + c.ttl))
  {
    assert Enabled(ss[k], steps[k]);
  }

  // ---------- a run with an orphan ----------

  lemma OneStep(ss: seq<System>, steps: seq<Step>, t: Step, c: Config)
    returns (ss': seq<System>, steps': seq<Step>)
    requires IsSessionRun(ss, steps, c) && Enabled(ss[|steps|], t)
    ensures IsSessionRun(ss', steps', c) && steps' == steps + [t] && |ss'| == |ss| + 1
    ensures ss'[|steps'|] == Do(ss[|steps|], t, c)
  {
    ss', steps' := ss + [Do(ss[|steps|], t, c)], steps + [t];
    forall i | 0 <= i < |steps'| ensures Enabled(ss'[i], steps'[i]) && ss'[i + 1] == Do(ss'[i], steps'[i], c) {
      if i < |steps| { assert ss'[i] == ss[i] && ss'[i + 1] == ss[i + 1] && steps'[i] == steps[i]; }
    }
  }

  // A login of an address without a set, as far as storing its session.
  lemma StoredLogin(ss: seq<System>, steps: seq<Step>, c: Config, a: Address, id: SessionId)
    returns (ss': seq<System>, steps': seq<Step>)
    requires IsSessionRun(ss, steps, c) && c.ttl > 0
    requires
      var s := ss[|steps|];
      !In(s, a) && a !in s.store.userSets && id !in s.issued && ':' !in id
    ensures IsSessionRun(ss', steps', c)
    ensures
      var s, s' := ss[|steps|], ss'[|steps'|];
      var data := NewData(s.store, a, id, "", c);
      && s'.store == SetSession(DelSet(s.store, a), data, c.ttl)
      && s'.logins == s.logins[a := Stored(data)] && s'.issued == s.issued[id := a]
      && s'.orphans == s.orphans && s'.returned == s.returned
  {
    ss', steps' := OneStep(ss, steps, Begin(a), c);
    ss', steps' := OneStep(ss', steps', DropSet(a), c);
    ss', steps' := OneStep(ss', steps', Make(a, id, ""), c);
    ss', steps' := OneStep(ss', steps', StoreSession(a), c);
  }

  // A login dies after storing its session; the next one of the address does
  // not see it and completes, and both sessions are live.
  lemma OrphanOutlivesLogin(c: Config, a: Address) returns (ss: seq<System>, steps: seq<Step>)
    requires c.ttl > 0
    ensures IsSessionRun(ss, steps, c)
    ensures
      var s := ss[|steps|];
      && s.orphans == {"x"} && s.returned == {"y"} && s.logins == map[]
      && LiveOf(s, a, "y") && Exists(s.store, "x") && s.store.sessions["x"].value.address == a
  {
    ss, steps := [System(Store(0, map[], map[]), map[], {}, map[], {}, {})], [];
    ss, steps := StoredLogin(ss, steps, c, a, "x");
    ss, steps := OneStep(ss, steps, Abandon(a), c);
    ss, steps := StoredLogin(ss, steps, c, a, "y");
    ss, steps := OneStep(ss, steps, AddToSet(a), c);
    ss, steps := OneStep(ss, steps, RenewSet(a), c);
  }
}
