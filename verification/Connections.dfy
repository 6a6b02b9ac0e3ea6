/**
 One WebSocket connection: its subscriptions, the listener task of each, the
 address its session proved, and which broadcast events reach it.
 */
module Connections {
  import opened Domain
  import opened Sums

  const USER_SELF := "user-self"

  const VALID_CHANNELS: seq<string> := [
    "new-listings", "recent-sales", "top-earners", "most-traded", "top-sales", "best-deals", "market-stats",
    USER_SELF]

  // `session` is what validating the message's token yields.
  datatype Message =
    | Subscribe(channel: string, token: string, session: Option<Address>)
    | Unsubscribe(channel: string)
    | Unknown

  datatype Reply = Subscribed | Unsubscribed | AlreadySubscribed | UnknownChannel | AuthRequired | NoReply

  // What the message does to the shared online counter.
  datatype CounterMove = Stay | Increment | Decrement

  // Each listener task remembers the address it was started with.
  datatype ConnState = ConnState(
    subscriptions: set<string>,
    listeners: map<string, Option<Address>>,
    userAddress: Option<Address>,
    counted: bool)

  const FRESH := ConnState({}, map[], None, false)

  // ---------- message by message ----------

  function AddressAfter(s: ConnState, m: Message): Option<Address>
    requires m.Subscribe?
  {
    if m.channel == USER_SELF && s.userAddress.None? && m.token != "" then m.session else s.userAddress
  }

  function OnSubscribe(s: ConnState, m: Message): (ConnState, Reply, CounterMove)
    requires m.Subscribe?
  {
    if m.channel in s.subscriptions then (s, AlreadySubscribed, Stay)
    else if m.channel !in VALID_CHANNELS then (s, UnknownChannel, Stay)
    else
      var address := AddressAfter(s, m);
      if m.channel == USER_SELF && address.None? then (s, AuthRequired, Stay)
      else
        var counts := m.channel == USER_SELF && !s.counted;
        (ConnState(
           s.subscriptions + {m.channel},
           s.listeners[m.channel := address],
           address,
           s.counted || counts),
         Subscribed,
         if counts then Increment else Stay)
  }

  function OnUnsubscribe(s: ConnState, channel: string): (ConnState, Reply, CounterMove) {
    var leaves := channel == USER_SELF && s.counted;
    (ConnState(s.subscriptions - {channel}, s.listeners - {channel}, s.userAddress, s.counted && !leaves),
     Unsubscribed,
     if leaves then Decrement else Stay)
  }

  function OnMessage(s: ConnState, m: Message): (ConnState, Reply, CounterMove) {
    match m
    case Subscribe(_, _, _) => OnSubscribe(s, m)
    case Unsubscribe(channel) => OnUnsubscribe(s, channel)
    case Unknown => (s, NoReply, Stay)
  }

  function OnMessages(s: ConnState, ms: seq<Message>): ConnState {
    if ms == [] then s else OnMessage(OnMessages(s, ms[..|ms| - 1]), ms[|ms| - 1]).0
  }

  // The net effect of all messages on the online counter.
  function NetCount(s: ConnState, ms: seq<Message>): int {
    if ms == [] then 0
    else
      var move := OnMessage(OnMessages(s, ms[..|ms| - 1]), ms[|ms| - 1]).2;
      NetCount(s, ms[..|ms| - 1]) + match move { case Stay => 0 case Increment => 1 case Decrement => -1 }
  }

  ghost predicate ConnInv(s: ConnState) {
    && s.listeners.Keys == s.subscriptions
    && (forall c :: c in s.subscriptions ==> c in VALID_CHANNELS)
    && (s.counted <==> USER_SELF in s.subscriptions)
    && (USER_SELF in s.subscriptions ==> s.userAddress.Some? && s.listeners[USER_SELF] == s.userAddress)
  }

  lemma MessageKeeps(s: ConnState, m: Message)
    requires ConnInv(s)
    ensures ConnInv(OnMessage(s, m).0)
    ensures s.userAddress.Some? ==> OnMessage(s, m).0.userAddress == s.userAddress
    ensures s.userAddress.None? && OnMessage(s, m).0.userAddress.Some? ==>
      m.Subscribe? && m.token != "" && m.session == OnMessage(s, m).0.userAddress
  {
  }

  // After any messages: one listener a subscription, only valid channels, the
  // flag set exactly while user-self is subscribed, and the counter moved by
  // exactly one in that case and by zero otherwise.
  lemma {:induction false} ConnectionKeeps(ms: seq<Message>)
    ensures ConnInv(OnMessages(FRESH, ms))
    ensures NetCount(FRESH, ms) == if USER_SELF in OnMessages(FRESH, ms).subscriptions then 1 else 0
  {
    if ms != [] {
      ConnectionKeeps(ms[..|ms| - 1]);
      MessageKeeps(OnMessages(FRESH, ms[..|ms| - 1]), ms[|ms| - 1]);
    }
  }

  // The address never changes once set.
  lemma {:induction false} AddressIsFixed(ms: seq<Message>, more: seq<Message>)
    requires OnMessages(FRESH, ms).userAddress.Some?
    ensures OnMessages(FRESH, ms + more).userAddress == OnMessages(FRESH, ms).userAddress
    decreases |more|
  {
    if more == [] {
      assert ms + more == ms;
    } else {
      var rest := more[..|more| - 1];
      assert (ms + more)[..|ms + more| - 1] == ms + rest;
      AddressIsFixed(ms, rest);
      ConnectionKeeps(ms + rest);
      MessageKeeps(OnMessages(FRESH, ms + rest), more[|more| - 1]);
    }
  }

  // ---------- what a connection is subscribed to ----------

  ghost predicate Named(c: string) {
    || c == "new-listings" || c == "recent-sales" || c == "top-earners" || c == "most-traded"
    || c == "top-sales" || c == "best-deals" || c == "market-stats" || c == "user-self"
  }

  // The message proves an address.
  ghost predicate Proves(m: Message) {
    m.Subscribe? && m.channel == "user-self" && m.token != "" && m.session.Some?
  }

  lemma NamedAreValid(c: string)
    ensures c in VALID_CHANNELS <==> Named(c)
  {
  }

  // A subscribe takes effect if and only if the channel is named and, for
  // user-self only, an address is known or proved by the message; every other
  // subscription and listener stays. Each reply is given in its own case.
  lemma SubscribeIff(s: ConnState, m: Message)
    requires m.Subscribe? && ConnInv(s)
    ensures
      var (s', reply, _) := OnMessage(s, m);
      var known := s.userAddress.Some? || Proves(m);
      && (m.channel in s'.subscriptions <==>
           m.channel in s.subscriptions || (Named(m.channel) && (m.channel == "user-self" ==> known)))
      && s'.subscriptions - {m.channel} == s.subscriptions - {m.channel}
      && s'.listeners - {m.channel} == s.listeners - {m.channel}
      && (reply == AlreadySubscribed <==> m.channel in s.subscriptions)
      && (reply == UnknownChannel <==> m.channel !in s.subscriptions && !Named(m.channel))
      && (reply == AuthRequired <==> m.channel !in s.subscriptions && m.channel == "user-self" && !known)
      && (reply == Subscribed <==> m.channel !in s.subscriptions && m.channel in s'.subscriptions)
  {
    NamedAreValid(m.channel);
  }

  // A new listener forwards for the address known by then; an unsubscribe
  // removes exactly its own channel; anything else changes nothing.
  lemma ListenersAre(s: ConnState, m: Message)
    requires ConnInv(s)
    ensures
      var (s', reply, _) := OnMessage(s, m);
      && (reply == Subscribed ==> m.Subscribe? && s'.listeners[m.channel] == s'.userAddress)
      && (m.Unsubscribe? ==>
           && s'.subscriptions == s.subscriptions - {m.channel} && s'.listeners == s.listeners - {m.channel}
           && s'.userAddress == s.userAddress && reply == Unsubscribed)
      && (m.Unknown? ==> s' == s && reply == NoReply)
  {
  }

  // The address is that of the first message that proves one.
  lemma AddressStep(s: ConnState, m: Message)
    requires ConnInv(s)
    ensures OnMessage(s, m).0.userAddress ==
      if s.userAddress.Some? then s.userAddress else if Proves(m) then m.session else None
  {
  }

  lemma {:induction false} AddressIsFirstProof(ms: seq<Message>, i: nat)
    ensures (forall k :: 0 <= k < |ms| ==> !Proves(ms[k])) ==> OnMessages(FRESH, ms).userAddress == None
    ensures i < |ms| && Proves(ms[i]) && (forall k :: 0 <= k < i ==> !Proves(ms[k])) ==>
      OnMessages(FRESH, ms).userAddress == ms[i].session
  {
    if ms != [] {
      var rest := ms[..|ms| - 1];
      AddressIsFirstProof(rest, i);
      ConnectionKeeps(rest);
      AddressStep(OnMessages(FRESH, rest), ms[|ms| - 1]);
      forall k | 0 <= k < |rest| ensures rest[k] == ms[k] {
      }
    }
  }

  // Message i subscribes to c: the channel is named and, for user-self, some
  // message up to then has proved an address.
  ghost predicate Permitted(ms: seq<Message>, i: nat, c: string) {
    && i < |ms| && ms[i].Subscribe? && ms[i].channel == c && Named(c)
    && (c == "user-self" ==> exists k :: 0 <= k <= i && Proves(ms[k]))
  }

  lemma {:induction false} AddressKnownIff(ms: seq<Message>)
    ensures OnMessages(FRESH, ms).userAddress.Some? <==> exists k :: 0 <= k < |ms| && Proves(ms[k])
  {
    if ms != [] {
      var rest, last := ms[..|ms| - 1], ms[|ms| - 1];
      AddressKnownIff(rest);
      ConnectionKeeps(rest);
      AddressStep(OnMessages(FRESH, rest), last);
      forall k | 0 <= k < |rest| ensures rest[k] == ms[k] {
      }
      if Proves(last) { assert Proves(ms[|ms| - 1]); }
      if exists k :: 0 <= k < |rest| && Proves(rest[k]) {
        var k :| 0 <= k < |rest| && Proves(rest[k]);
        assert Proves(ms[k]);
      }
    }
  }

  lemma PermittedLonger(ms: seq<Message>, i: nat, c: string)
    requires ms != [] && i < |ms| - 1
    ensures Permitted(ms[..|ms| - 1], i, c) <==> Permitted(ms, i, c)
  {
    var rest := ms[..|ms| - 1];
    forall k | 0 <= k < |rest| ensures rest[k] == ms[k] {
    }
    if exists k :: 0 <= k <= i && Proves(ms[k]) {
      var k :| 0 <= k <= i && Proves(ms[k]);
      assert Proves(rest[k]);
    }
    if exists k :: 0 <= k <= i && Proves(rest[k]) {
      var k :| 0 <= k <= i && Proves(rest[k]);
      assert Proves(ms[k]);
    }
  }

  ghost predicate Leaves(ms: seq<Message>, i: nat, c: string) {
    i < |ms| && ms[i] == Unsubscribe(c)
  }

  // A permitted subscribe that no later unsubscribe undoes.
  ghost predicate Stands(ms: seq<Message>, i: nat, c: string) {
    Permitted(ms, i, c) && forall k :: i < k < |ms| ==> !Leaves(ms, k, c)
  }

  lemma LastMessage(ms: seq<Message>, c: string)
    requires ms != []
    ensures
      var rest, last := ms[..|ms| - 1], ms[|ms| - 1];
      c in OnMessages(FRESH, ms).subscriptions <==>
        Permitted(ms, |ms| - 1, c) || (c in OnMessages(FRESH, rest).subscriptions && last != Unsubscribe(c))
  {
    var rest, last := ms[..|ms| - 1], ms[|ms| - 1];
    var s := OnMessages(FRESH, rest);
    ConnectionKeeps(rest);
    AddressKnownIff(rest);
    if last.Subscribe? {
      SubscribeIff(s, last);
      KnownNow(ms);
    }
  }

  lemma KnownNow(ms: seq<Message>)
    requires ms != []
    ensures
      var rest := ms[..|ms| - 1];
      (exists k :: 0 <= k <= |ms| - 1 && Proves(ms[k])) <==>
        Proves(ms[|ms| - 1]) || exists k :: 0 <= k < |rest| && Proves(rest[k])
  {
    var rest := ms[..|ms| - 1];
    forall k | 0 <= k < |rest| ensures rest[k] == ms[k] {
    }
    if exists k :: 0 <= k < |rest| && Proves(rest[k]) {
      var k :| 0 <= k < |rest| && Proves(rest[k]);
      assert Proves(ms[k]);
    }
    if exists k :: 0 <= k <= |ms| - 1 && Proves(ms[k]) {
      var k :| 0 <= k <= |ms| - 1 && Proves(ms[k]);
      if k < |rest| { assert Proves(rest[k]); }
    }
  }

  // Whatever messages a connection was sent, it is subscribed to a channel if
  // and only if a permitted subscribe to it stands.
  lemma {:induction false} SubscribedExactly(ms: seq<Message>, c: string)
    ensures c in OnMessages(FRESH, ms).subscriptions <==> exists i: nat :: Stands(ms, i, c)
  {
    if ms != [] {
      var rest, last := ms[..|ms| - 1], ms[|ms| - 1];
      SubscribedExactly(rest, c);
      LastMessage(ms, c);
      if c in OnMessages(FRESH, rest).subscriptions && last != Unsubscribe(c) {
        var i: nat :| Stands(rest, i, c);
        StandsLonger(ms, i, c);
      }
      if Permitted(ms, |ms| - 1, c) { assert Stands(ms, |ms| - 1, c); }
      if exists i: nat :: Stands(ms, i, c) {
        var i: nat :| Stands(ms, i, c);
        if i < |rest| {
          assert !Leaves(ms, |ms| - 1, c);
          StandsLonger(ms, i, c);
        }
      }
    }
  }

  lemma StandsLonger(ms: seq<Message>, i: nat, c: string)
    requires ms != [] && i < |ms| - 1 && ms[|ms| - 1] != Unsubscribe(c)
    ensures Stands(ms[..|ms| - 1], i, c) <==> Stands(ms, i, c)
  {
    var rest := ms[..|ms| - 1];
    PermittedLonger(ms, i, c);
    forall k: nat | k < |rest| ensures Leaves(rest, k, c) <==> Leaves(ms, k, c) {
      assert rest[k] == ms[k];
    }
  }

  // ---------- many connections ----------

  // What each connection has received so far, by connection id.
  ghost function NetCounts(conns: map<string, seq<Message>>): map<string, int> {
    map c | c in conns :: NetCount(FRESH, conns[c])
  }

  ghost function Online(conns: map<string, seq<Message>>): set<string> {
    set c | c in conns && USER_SELF in OnMessages(FRESH, conns[c]).subscriptions
  }

  // Whatever each connection was sent, the increments and decrements of all of
  // them add up to the number of connections subscribed to user-self.
  lemma {:induction false} CountsAreSubscriptions(conns: map<string, seq<Message>>)
    ensures Sum(NetCounts(conns)) == |Online(conns)|
    decreases |conns|
  {
    if conns == map[] {
      assert NetCounts(conns) == map[] && Online(conns) == {};
    } else {
      var c :| c in conns;
      var rest := conns - {c};
      assert rest.Keys == conns.Keys - {c};
      CountsAreSubscriptions(rest);
      NetWithout(conns, c);
      OnlineWithout(conns, c);
    }
  }

  lemma NetWithout(conns: map<string, seq<Message>>, c: string)
    requires c in conns
    ensures Sum(NetCounts(conns)) == Sum(NetCounts(conns - {c})) + NetCount(FRESH, conns[c])
  {
    SumPick(NetCounts(conns), c);
    assert NetCounts(conns) - {c} == NetCounts(conns - {c});
  }

  lemma OnlineWithout(conns: map<string, seq<Message>>, c: string)
    requires c in conns
    ensures |Online(conns)| == |Online(conns - {c})| + NetCount(FRESH, conns[c])
  {
    ConnectionKeeps(conns[c]);
    assert c !in Online(conns - {c});
    assert Online(conns) == Online(conns - {c}) + if c in Online(conns) then {c} else {};
  }

  // ---------- the broadcast filter ----------

  // What the listener of `channel`, started with `address`, forwards.
  predicate Forwards(e: BroadcastEvent, channel: string, address: Option<Address>) {
    match e
    case NewListing(_) => channel == "new-listings"
    case TopSale(_) => channel == "top-sales"
    case BestDeal(_) => channel == "best-deals"
    case RecentSale(_) => channel == "recent-sales"
    case MostTraded(_) => channel == "most-traded"
    case TopEarner(_) => channel == "top-earners"
    case RemoveNewListing(_) => channel == "new-listings"
    case RemoveBestDeal(_) => channel == "best-deals"
    case MarketOnlineUpdated(_) => channel == "market-stats"
    case MarketListingsUpdated(_, _) => channel == "market-stats"
    case MarketTrades24hUpdated(_, _) => channel == "market-stats"
    case UserInventory(user, _) => channel == USER_SELF && Some(user) == address
    case UserActivities(user, _) => channel == USER_SELF && Some(user) == address
    case UserStars(user, _, _) => channel == USER_SELF && Some(user) == address
  }

  // The user a private event is about.
  function AboutUser(e: BroadcastEvent): Option<Address> {
    match e
    case UserInventory(user, _) => Some(user)
    case UserActivities(user, _) => Some(user)
    case UserStars(user, _, _) => Some(user)
    case _ => None
  }

  // How many times a connection receives an event: once a matching listener.
  ghost function Deliveries(s: ConnState, e: BroadcastEvent): set<string> {
    set c | c in s.listeners && Forwards(e, c, s.listeners[c])
  }

  // In every state a connection can reach, a private event is delivered if and
  // only if user-self is subscribed and the event is about the connection's
  // own address; a public one on its channel, if and only if subscribed to it.
  lemma DeliveredExactly(ms: seq<Message>, e: BroadcastEvent)
    ensures
      var s := OnMessages(FRESH, ms);
      && |Deliveries(s, e)| <= 1
      && (AboutUser(e).Some? ==>
           (Deliveries(s, e) != {} <==> USER_SELF in s.subscriptions && s.userAddress == AboutUser(e)))
      && (AboutUser(e).None? ==> Deliveries(s, e) == {Channel(e)} * s.subscriptions)
  {
    ConnectionKeeps(ms);
    DeliveredIn(OnMessages(FRESH, ms), e);
  }

  lemma ForwardsOn(e: BroadcastEvent, channel: string, address: Option<Address>)
    ensures Forwards(e, channel, address) <==>
      channel == Channel(e) && (AboutUser(e).Some? ==> AboutUser(e) == address)
    ensures AboutUser(e).Some? ==> Channel(e) == USER_SELF
  {
  }

  lemma DeliveredIn(s: ConnState, e: BroadcastEvent)
    requires ConnInv(s)
    ensures |Deliveries(s, e)| <= 1
    ensures AboutUser(e).Some? ==>
      (Deliveries(s, e) != {} <==> USER_SELF in s.subscriptions && s.userAddress == AboutUser(e))
    ensures AboutUser(e).None? ==> Deliveries(s, e) == {Channel(e)} * s.subscriptions
  {
    var c := Channel(e);
    forall d | d in s.listeners
      ensures d in Deliveries(s, e) <==> d == c && (AboutUser(e).Some? ==> AboutUser(e) == s.listeners[d])
    {
      ForwardsOn(e, d, s.listeners[d]);
    }
    ForwardsOn(e, c, None);
    if c in Deliveries(s, e) {
      assert Deliveries(s, e) == {c};
    } else {
      assert Deliveries(s, e) == {};
    }
  }

  function Channel(e: BroadcastEvent): string {
    match e
    case NewListing(_) => "new-listings"
    case TopSale(_) => "top-sales"
    case BestDeal(_) => "best-deals"
    case RecentSale(_) => "recent-sales"
    case MostTraded(_) => "most-traded"
    case TopEarner(_) => "top-earners"
    case RemoveNewListing(_) => "new-listings"
    case RemoveBestDeal(_) => "best-deals"
    case MarketOnlineUpdated(_) => "market-stats"
    case MarketListingsUpdated(_, _) => "market-stats"
    case MarketTrades24hUpdated(_, _) => "market-stats"
    case _ => USER_SELF
  }

  // Which subscription each public event reaches.
  lemma PublicDeliveries(ms: seq<Message>, e: BroadcastEvent)
    ensures
      var s := OnMessages(FRESH, ms).subscriptions;
      var to := Deliveries(OnMessages(FRESH, ms), e);
      && (e.NewListing? || e.RemoveNewListing? ==> to == {"new-listings"} * s)
      && (e.BestDeal? || e.RemoveBestDeal? ==> to == {"best-deals"} * s)
      && (e.RecentSale? ==> to == {"recent-sales"} * s)
      && (e.TopSale? ==> to == {"top-sales"} * s)
      && (e.MostTraded? ==> to == {"most-traded"} * s)
      && (e.TopEarner? ==> to == {"top-earners"} * s)
      && (e.MarketOnlineUpdated? || e.MarketListingsUpdated? || e.MarketTrades24hUpdated? ==> to == {"market-stats"} * s)
  {
    DeliveredExactly(ms, e);
  }

  /** The connection handler's mutable state. */
  class Connection {
    var subscriptions: set<string>
    var listenerTasks: map<string, Option<Address>>
    var userAddress: Option<Address>
    var countedAsOnline: bool

    function Model(): ConnState
      reads this
    {
      ConnState(subscriptions, listenerTasks, userAddress, countedAsOnline)
    }

    constructor ()
      ensures Model() == FRESH
    {
      subscriptions, listenerTasks, userAddress, countedAsOnline := {}, map[], None, false;
    }

    method HandleSubscribe(channel: string, token: string, session: Option<Address>)
      returns (reply: Reply, move: CounterMove)
      modifies this
      ensures (Model(), reply, move) == OnMessage(old(Model()), Subscribe(channel, token, session))
    {
      move := Stay;
      if channel in subscriptions {
        return AlreadySubscribed, move;
      }
      if channel !in VALID_CHANNELS {
        return UnknownChannel, move;
      }
      if channel == USER_SELF {
        if userAddress.None? && token != "" && session.Some? {
          userAddress := session;
        }
        if userAddress.None? {
          return AuthRequired, move;
        }
        if !countedAsOnline {
          countedAsOnline := true;
          move := Increment;
        }
      }
      subscriptions := subscriptions + {channel};
      listenerTasks := listenerTasks[channel := userAddress];
      reply := Subscribed;
    }

    method HandleUnsubscribe(channel: string) returns (reply: Reply, move: CounterMove)
      modifies this
      ensures (Model(), reply, move) == OnMessage(old(Model()), Unsubscribe(channel))
    {
      subscriptions := subscriptions - {channel};
      move := Stay;
      if channel == USER_SELF && countedAsOnline {
        countedAsOnline := false;
        move := Decrement;
      }
      assert channel !in listenerTasks ==> listenerTasks - {channel} == listenerTasks;
      if channel in listenerTasks {
        listenerTasks := listenerTasks - {channel};
      }
      reply := Unsubscribed;
    }

    // The receive loop over the messages of one connection, then the clean-up:
    // however it ends, the counter is back where it started.
    method HandleWs(messages: seq<Message>) returns (net: int)
      requires Model() == FRESH
      modifies this
      ensures Model() == OnMessages(FRESH, messages)
      ensures net == 0
    {
      net := 0;
      var i := 0;
      while i < |messages|
        invariant 0 <= i <= |messages|
        invariant Model() == OnMessages(FRESH, messages[..i])
        invariant net == NetCount(FRESH, messages[..i])
      {
        assert messages[..i + 1][..i] == messages[..i];
        var move := Stay;
        match messages[i] {
          case Subscribe(channel, token, session) =>
            var _, m := HandleSubscribe(channel, token, session);
            move := m;
          case Unsubscribe(channel) =>
            var _, m := HandleUnsubscribe(channel);
            move := m;
          case Unknown =>
        }
        net := net + match move { case Stay => 0 case Increment => 1 case Decrement => -1 };
        i := i + 1;
      }
      assert messages[..i] == messages;
      ConnectionKeeps(messages);
      if countedAsOnline {
        net := net - 1;
      }
    }
  }
}
