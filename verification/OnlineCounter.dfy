/**
 The shared count of online users under any interleaving of any number of
 connections. Each connection runs the message handler of `Connections`; what a
 message does to the counter is an atomic increment, or a load followed by
 compare-and-exchanges until one succeeds.
 */
module OnlineCounter {
  import opened Domain
  import opened Connections

  type Conn = nat

  // Where the handler of a connection stands: waiting for a message; about to
  // increment; about to load for a decrement; holding the value it read.
  // `closing` when the decrement is the clean-up of a closed socket.
  datatype Pc = Receiving | Adding | Leaving(closing: bool) | Retrying(current: nat, closing: bool)

  datatype Member = Member(conn: ConnState, pc: Pc)

  datatype Shared = Shared(counter: nat, conns: map<Conn, Member>, failed: nat, changes: nat)

  datatype Act =
    | Connect(c: Conn)
    | Receive(c: Conn, message: Message)
    | FetchAdd(c: Conn)
    | Load(c: Conn)
    | CompareExchange(c: Conn)
    | Close(c: Conn)

  function SaturatingPred(n: nat): nat {
    if n == 0 then 0 else n - 1
  }

  // Program order only: what a handler may do where it stands.
  predicate CanAct(s: Shared, a: Act) {
    match a
    case Connect(c) => c !in s.conns
    case Receive(c, m) => c in s.conns && s.conns[c].pc.Receiving?
    case FetchAdd(c) => c in s.conns && s.conns[c].pc.Adding?
    case Load(c) => c in s.conns && s.conns[c].pc.Leaving?
    case CompareExchange(c) => c in s.conns && s.conns[c].pc.Retrying?
    case Close(c) => c in s.conns && s.conns[c].pc.Receiving?
  }

  function PcAfter(move: CounterMove): Pc {
    match move
    case Stay => Receiving
    case Increment => Adding
    case Decrement => Leaving(false)
  }

  // Whether the compare-and-exchange of c finds the value it read.
  predicate Succeeds(s: Shared, c: Conn)
    requires CanAct(s, CompareExchange(c))
  {
    s.conns[c].pc.current == s.counter
  }

  function WithPc(s: Shared, c: Conn, pc: Pc): map<Conn, Member>
    requires c in s.conns
  {
    s.conns[c := s.conns[c].(pc := pc)]
  }

  function Do(s: Shared, a: Act): Shared
    requires CanAct(s, a)
  {
    match a
    case Connect(c) => s.(conns := s.conns[c := Member(FRESH, Receiving)])
    case Receive(c, m) =>
      var (conn, _, move) := OnMessage(s.conns[c].conn, m);
      s.(conns := s.conns[c := Member(conn, PcAfter(move))])
    case FetchAdd(c) => s.(counter := s.counter + 1, conns := WithPc(s, c, Receiving), changes := s.changes + 1)
    case Load(c) => s.(conns := WithPc(s, c, Retrying(s.counter, s.conns[c].pc.closing)))
    case CompareExchange(c) =>
      if Succeeds(s, c) then
        s.(
          counter := SaturatingPred(s.counter),
          conns := if s.conns[c].pc.closing then s.conns - {c} else WithPc(s, c, Receiving),
          changes := s.changes + 1)
      else s.(conns := WithPc(s, c, Retrying(s.counter, s.conns[c].pc.closing)), failed := s.failed + 1)
    case Close(c) =>
      if s.conns[c].conn.counted then s.(conns := WithPc(s, c, Leaving(true))) else s.(conns := s.conns - {c})
  }

  // ---------- the counter counts ----------

  // Counted, or still decrementing.
  predicate Holds(m: Member) {
    match m.pc
    case Receiving => m.conn.counted
    case Adding => false
    case Leaving(_) => true
    case Retrying(_, _) => true
  }

  ghost function Holders(conns: map<Conn, Member>): set<Conn> {
    set c | c in conns && Holds(conns[c])
  }

  ghost function SubscribedConns(conns: map<Conn, Member>): set<Conn> {
    set c | c in conns && USER_SELF in conns[c].conn.subscriptions
  }

  // Connections whose next compare-and-exchange would fail.
  ghost function Stale(s: Shared): set<Conn> {
    set c | c in s.conns && s.conns[c].pc.Retrying? && s.conns[c].pc.current != s.counter
  }

  // The flag agrees with the handler's place in its program.
  ghost predicate MemberInv(m: Member) {
    && ConnInv(m.conn)
    && (m.pc.Adding? ==> m.conn.counted)
    && (m.pc.Leaving? || m.pc.Retrying? ==> m.conn.counted == m.pc.closing)
  }

  ghost predicate CounterInv(s: Shared) {
    && s.counter == |Holders(s.conns)|
    && forall c :: c in s.conns ==> MemberInv(s.conns[c])
  }

  lemma HoldersPut(conns: map<Conn, Member>, c: Conn, m: Member)
    ensures Holders(conns[c := m]) == if Holds(m) then Holders(conns) + {c} else Holders(conns) - {c}
  {
  }

  lemma HoldersDrop(conns: map<Conn, Member>, c: Conn)
    ensures Holders(conns - {c}) == Holders(conns) - {c}
  {
  }

  // An increment is by a connection that holds none, a successful decrement by
  // one that holds; nothing else changes who holds.
  lemma HoldersStep(s: Shared, a: Act)
    requires CanAct(s, a) && forall c :: c in s.conns ==> MemberInv(s.conns[c])
    ensures
      var before, after := Holders(s.conns), Holders(Do(s, a).conns);
      if a.FetchAdd? then a.c !in before && after == before + {a.c}
      else if a.CompareExchange? && Succeeds(s, a.c) then a.c in before && after == before - {a.c}
      else after == before
  {
    if a.c in Do(s, a).conns {
      HoldersPut(s.conns, a.c, Do(s, a).conns[a.c]);
      assert Do(s, a).conns == s.conns[a.c := Do(s, a).conns[a.c]];
    } else {
      HoldersDrop(s.conns, a.c);
      assert Do(s, a).conns == s.conns - {a.c};
    }
    if a.Receive? { MessageKeeps(s.conns[a.c].conn, a.message); }
  }

  lemma MemberStep(s: Shared, a: Act, c: Conn)
    requires CanAct(s, a) && c in Do(s, a).conns
    requires forall d :: d in s.conns ==> MemberInv(s.conns[d])
    ensures MemberInv(Do(s, a).conns[c])
  {
    if a.Receive? && a.c == c { MessageKeeps(s.conns[c].conn, a.message); }
  }

  lemma CounterStep(s: Shared, a: Act)
    requires CounterInv(s) && CanAct(s, a)
    ensures CounterInv(Do(s, a))
    ensures a.CompareExchange? && Succeeds(s, a.c) ==> s.counter > 0 && Do(s, a).counter == s.counter - 1
  {
    HoldersStep(s, a);
    forall c | c in Do(s, a).conns ensures MemberInv(Do(s, a).conns[c]) { MemberStep(s, a, c); }
  }

  ghost predicate IsInterleaving(states: seq<Shared>, acts: seq<Act>) {
    && |states| == |acts| + 1
    && states[0] == Shared(0, map[], 0, 0)
    && forall i :: 0 <= i < |acts| ==> CanAct(states[i], acts[i]) && states[i + 1] == Do(states[i], acts[i])
  }

  lemma {:induction false} CounterKept(states: seq<Shared>, acts: seq<Act>, i: nat)
    requires IsInterleaving(states, acts) && i < |states|
    ensures CounterInv(states[i])
  {
    if i > 0 {
      CounterKept(states, acts, i - 1);
      assert states[i - 1 + 1] == Do(states[i - 1], acts[i - 1]);
      CounterStep(states[i - 1], acts[i - 1]);
    } else {
      assert Holders(map[]) == {};
    }
  }

  // With any interleaving of any messages the counter is the number of
  // connections counted or still decrementing; when every handler waits for a
  // message, it is the number of connections subscribed to user-self.
  lemma CounterIsExact(states: seq<Shared>, acts: seq<Act>, i: nat)
    requires IsInterleaving(states, acts) && i < |states|
    ensures states[i].counter == |Holders(states[i].conns)|
    ensures (forall c :: c in states[i].conns ==> states[i].conns[c].pc.Receiving?) ==>
      states[i].counter == |SubscribedConns(states[i].conns)|
  {
    CounterKept(states, acts, i);
    if forall c :: c in states[i].conns ==> states[i].conns[c].pc.Receiving? {
      assert Holders(states[i].conns) == SubscribedConns(states[i].conns);
    }
  }

  // No connection is counted or released twice, and no decrement saturates: an
  // increment is by a connection not counted, a successful exchange by one that
  // is, and it takes away exactly one.
  lemma CountedOnce(states: seq<Shared>, acts: seq<Act>, i: nat)
    requires IsInterleaving(states, acts) && i < |acts|
    ensures
      var before, after, a := Holders(states[i].conns), Holders(states[i + 1].conns), acts[i];
      && (states[i + 1].counter > states[i].counter ==>
           a.FetchAdd? && a.c !in before && after == before + {a.c} && states[i + 1].counter == states[i].counter + 1)
      && (a.CompareExchange? && Succeeds(states[i], a.c) ==>
           a.c in before && after == before - {a.c} && states[i + 1].counter == states[i].counter - 1)
      && (states[i + 1].counter == states[i].counter ==> after == before)
  {
    CounterKept(states, acts, i);
    HoldersStep(states[i], acts[i]);
    CounterStep(states[i], acts[i]);
    assert states[i + 1] == Do(states[i], acts[i]);
  }

  // ---------- who is to blame for a failed exchange ----------

  // Act k, by another connection, changed the counter.
  ghost predicate Interferes(states: seq<Shared>, acts: seq<Act>, c: Conn, k: nat)
    requires IsInterleaving(states, acts) && k < |acts|
  {
    acts[k].c != c && states[k].counter != states[k + 1].counter
  }

  // c read the counter at step i and has not acted since.
  ghost predicate ReadAt(states: seq<Shared>, acts: seq<Act>, c: Conn, i: nat, j: nat)
    requires IsInterleaving(states, acts)
  {
    && i < j <= |acts|
    && acts[i].c == c && (acts[i].Load? || acts[i].CompareExchange?)
    && c in states[i + 1].conns && states[i + 1].conns[c].pc.Retrying?
    && forall k :: i < k < j ==> acts[k].c != c
  }

  // A connection that holds a value has read it.
  lemma {:induction false} HeldValueWasRead(states: seq<Shared>, acts: seq<Act>, c: Conn, j: nat) returns (i: nat)
    requires IsInterleaving(states, acts) && j < |states|
    requires c in states[j].conns && states[j].conns[c].pc.Retrying?
    ensures ReadAt(states, acts, c, i, j)
  {
    assert states[j - 1 + 1] == Do(states[j - 1], acts[j - 1]);
    if acts[j - 1].c == c {
      i := j - 1;
    } else {
      i := HeldValueWasRead(states, acts, c, j - 1);
    }
  }

  lemma {:induction false} UndisturbedRead(states: seq<Shared>, acts: seq<Act>, c: Conn, i: nat, j: nat)
    requires IsInterleaving(states, acts) && ReadAt(states, acts, c, i, j)
    requires forall k :: i < k < j ==> !Interferes(states, acts, c, k)
    ensures c in states[j].conns && states[j].conns[c].pc.Retrying? && states[j].conns[c].pc.current == states[j].counter
    decreases j
  {
    if j == i + 1 {
      assert states[i + 1] == Do(states[i], acts[i]);
    } else {
      assert ReadAt(states, acts, c, i, j - 1);
      UndisturbedRead(states, acts, c, i, j - 1);
      assert !Interferes(states, acts, c, j - 1) && acts[j - 1].c != c;
      assert states[j - 1 + 1] == Do(states[j - 1], acts[j - 1]);
    }
  }

  // Every compare-and-exchange that fails does so because another connection
  // changed the counter after the value was read.
  lemma FailureHasACause(states: seq<Shared>, acts: seq<Act>, c: Conn, j: nat)
    requires IsInterleaving(states, acts) && j < |acts|
    requires acts[j] == CompareExchange(c) && !Succeeds(states[j], c)
    ensures exists i: nat, k: nat :: i < k < j && ReadAt(states, acts, c, i, j) && Interferes(states, acts, c, k)
  {
    var i := HeldValueWasRead(states, acts, c, j);
    if forall k :: i < k < j ==> !Interferes(states, acts, c, k) {
      UndisturbedRead(states, acts, c, i, j);
    }
  }

  // ---------- progress ----------

  // A failed exchange takes the connection out of the stale ones.
  lemma FailureStep(s: Shared, a: Act)
    requires CanAct(s, a) && a.CompareExchange? && !Succeeds(s, a.c)
    ensures |Stale(Do(s, a))| + 1 == |Stale(s)|
  {
    assert Stale(Do(s, a)) == Stale(s) - {a.c};
  }

  // While the counter stands still nobody becomes stale.
  lemma QuietStep(s: Shared, a: Act)
    requires CanAct(s, a) && Do(s, a).changes == s.changes
    ensures |Stale(Do(s, a))| <= |Stale(s)|
  {
    assert Stale(Do(s, a)) <= Stale(s);
    SubsetSize(Stale(Do(s, a)), Stale(s));
  }

  lemma {:induction false} SubsetSize(a: set<Conn>, b: set<Conn>)
    requires a <= b
    ensures |a| <= |b|
  {
    if a != {} {
      var x :| x in a;
      SubsetSize(a - {x}, b - {x});
    }
  }

  // With at most n connections, each change of the counter costs at most n
  // failed exchanges altogether: some connection always makes progress.
  lemma {:induction false} RetriesAreBounded(states: seq<Shared>, acts: seq<Act>, n: nat, i: nat)
    requires IsInterleaving(states, acts) && i < |states|
    requires forall k :: 0 <= k < |states| ==> |states[k].conns| <= n
    ensures states[i].failed + |Stale(states[i])| <= n * states[i].changes
  {
    if i > 0 {
      RetriesAreBounded(states, acts, n, i - 1);
      assert states[i - 1 + 1] == Do(states[i - 1], acts[i - 1]);
      RetryStep(states[i - 1], acts[i - 1], n);
    } else {
      assert Stale(states[0]) == {};
    }
  }

  lemma OneMoreTime(n: nat, k: nat)
    ensures n * (k + 1) == n * k + n
  {
  }

  lemma RetryStep(s: Shared, a: Act, n: nat)
    requires CanAct(s, a) && |Do(s, a).conns| <= n
    requires s.failed + |Stale(s)| <= n * s.changes
    ensures Do(s, a).failed + |Stale(Do(s, a))| <= n * Do(s, a).changes
  {
    var s' := Do(s, a);
    if s'.changes != s.changes {
      SubsetSize(Stale(s'), s'.conns.Keys);
      OneMoreTime(n, s.changes);
    } else if a.CompareExchange? {
      FailureStep(s, a);
    } else {
      QuietStep(s, a);
    }
  }

  /** The atomic counter itself. */
  class AtomicCounter {
    var value: nat

    constructor ()
      ensures value == 0
    {
      value := 0;
    }

    // fetch_add(1) + 1
    method Increment() returns (total: nat)
      modifies this
      ensures value == old(value) + 1 && total == value
    {
      value := value + 1;
      total := value;
    }

    // The decrement as one connection runs it. Before its n-th exchange the
    // other connections leave the counter at interference[n]; after the list
    // they are quiet. The exchange that succeeds takes exactly one away from
    // whatever the others left.
    method DecrementOnlineUsers(interference: seq<nat>) returns (total: nat, attempts: nat, ghost found: nat)
      modifies this
      ensures 1 <= attempts <= |interference| + 2
      ensures found == if interference == [] then old(value)
                       else interference[Min(attempts, |interference|) - 1]
      ensures value == SaturatingPred(found) && total == value
    {
      var current := value;
      attempts := 0;
      found := value;
      while true
        invariant attempts <= |interference| + 1
        invariant attempts == |interference| + 1 ==> current == value
        invariant interference != [] && attempts > 0 ==> value == interference[Min(attempts, |interference|) - 1]
        invariant interference == [] ==> value == old(value) && current == value && attempts == 0
        decreases |interference| + 1 - attempts
      {
        if attempts < |interference| {
          value := interference[attempts];
        }
        attempts := attempts + 1;
        var next := if current == 0 then 0 else current - 1;
        if value == current {
          found := value;
          value := next;
          return next, attempts, found;
        }
        current := value;
      }
    }
  }
}
