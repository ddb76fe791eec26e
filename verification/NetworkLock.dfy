/**
 The queue that lets one operation at a time work on a network: acquiring and releasing as steps, in every
 interleaving, with release handles that may be used more than once.
 */
module NetworkLock {

  type Ticket = nat

  /** What a release handle remembers: its network, the mutex that granted it, and whether it was used. */
  datatype Grant = Grant(network: string, mutex: nat, released: bool)

  /** The mutex of each locked network, the waiters of each mutex ever made, and every release handle handed out. */
  datatype Locks = Locks(
    mutexOf: map<string, nat>,
    waiters: map<nat, seq<Ticket>>,
    grants: map<Ticket, Grant>,
    nextTicket: Ticket,
    nextMutex: nat)

  const UNLOCKED := Locks(map[], map[], map[], 0, 0)

  function Queue(l: Locks, mutex: nat): seq<Ticket> {
    if mutex in l.waiters then l.waiters[mutex] else []
  }

  /** A request: granted at once when the network is free, and queued when it is not. */
  function Acquired(l: Locks, network: string): Locks {
    var ticket := l.nextTicket;
    if network !in l.mutexOf then
      Locks(l.mutexOf[network := l.nextMutex], l.waiters[l.nextMutex := []],
            l.grants[ticket := Grant(network, l.nextMutex, false)], ticket + 1, l.nextMutex + 1)
    else
      var mutex := l.mutexOf[network];
      l.(waiters := l.waiters[mutex := Queue(l, mutex) + [ticket]], nextTicket := ticket + 1)
  }

  /** The use of a release handle: the first one passes the lock on, and the others do nothing. */
  function Released(l: Locks, ticket: Ticket): Locks
    requires ticket in l.grants
  {
    var g := l.grants[ticket];
    var queue := Queue(l, g.mutex);
    var used := l.grants[ticket := g.(released := true)];
    if g.released then l
    else if queue == [] then
      l.(grants := used,
         mutexOf := if g.network in l.mutexOf && l.mutexOf[g.network] == g.mutex then l.mutexOf - {g.network}
                    else l.mutexOf)
    else
      l.(waiters := l.waiters[g.mutex := queue[1..]], grants := used[queue[0] := Grant(g.network, g.mutex, false)])
  }

  // ----- Runs -----

  datatype LockOp = Acquire(network: string) | Release(ticket: Ticket)

  /** A run so far: the locks, and the tickets requested and granted for each network, in order. */
  datatype History = History(locks: Locks, requested: map<string, seq<Ticket>>, granted: map<string, seq<Ticket>>)

  const START := History(UNLOCKED, map[], map[])

  function TicketsOf(m: map<string, seq<Ticket>>, network: string): seq<Ticket> {
    if network in m then m[network] else []
  }

  function Append(m: map<string, seq<Ticket>>, network: string, ticket: Ticket): map<string, seq<Ticket>> {
    m[network := TicketsOf(m, network) + [ticket]]
  }

  function After(h: History, op: LockOp): History {
    var l := h.locks;
    match op
    case Acquire(network) =>
      History(Acquired(l, network), Append(h.requested, network, l.nextTicket),
              if network in l.mutexOf then h.granted else Append(h.granted, network, l.nextTicket))
    case Release(ticket) =>
      if ticket !in l.grants then h
      else
        var g := l.grants[ticket];
        var queue := Queue(l, g.mutex);
        History(Released(l, ticket), h.requested,
                if g.released || queue == [] then h.granted else Append(h.granted, g.network, queue[0]))
  }

  /** Any operations at all, after a run so far. */
  function Continue(h: History, ops: seq<LockOp>): History {
    if ops == [] then h else After(Continue(h, ops[..|ops| - 1]), ops[|ops| - 1])
  }

  function Run(ops: seq<LockOp>): History {
    Continue(START, ops)
  }

  // ----- The invariant -----

  predicate Holds(l: Locks, network: string, ticket: Ticket) {
    ticket in l.grants && l.grants[ticket].network == network && !l.grants[ticket].released
  }

  function Waiting(l: Locks, network: string): seq<Ticket> {
    if network in l.mutexOf then Queue(l, l.mutexOf[network]) else []
  }

  function Last(xs: seq<Ticket>): Ticket
    requires xs != []
  {
    xs[|xs| - 1]
  }

  /** Whoever asked was granted or is waiting, in the order of asking. */
  predicate InOrder(h: History, network: string) {
    TicketsOf(h.requested, network) == TicketsOf(h.granted, network) + Waiting(h.locks, network)
  }

  /** A holder is the last one that was granted, and holds the network's own mutex. */
  predicate IsHolder(h: History, network: string, t: Ticket) {
    && TicketsOf(h.granted, network) != [] && t == Last(TicketsOf(h.granted, network))
    && network in h.locks.mutexOf && t in h.locks.grants && h.locks.grants[t].mutex == h.locks.mutexOf[network]
  }

  /** A network is locked exactly while it has a holder. */
  predicate HolderIsLast(h: History, network: string)
  {
    && (forall t :: t in h.locks.grants && Holds(h.locks, network, t) ==> IsHolder(h, network, t))
    && (network in h.locks.mutexOf ==>
          TicketsOf(h.granted, network) != [] && Holds(h.locks, network, Last(TicketsOf(h.granted, network))))
  }

  ghost predicate Increasing(xs: seq<Ticket>, bound: Ticket) {
    && (forall i, j :: 0 <= i < j < |xs| ==> xs[i] < xs[j])
    && (forall i :: 0 <= i < |xs| ==> xs[i] < bound)
  }

  ghost predicate Disjoint(xs: seq<Ticket>, ys: seq<Ticket>) {
    forall i, j :: 0 <= i < |xs| && 0 <= j < |ys| ==> xs[i] != ys[j]
  }

  /** Every ticket was requested once, for one network, and every handle belongs to a granted ticket. */
  ghost predicate TicketsSound(h: History) {
    && (forall k :: Increasing(TicketsOf(h.requested, k), h.locks.nextTicket))
    && (forall j, k :: j != k ==> Disjoint(TicketsOf(h.requested, j), TicketsOf(h.requested, k)))
    && (forall t :: t in h.locks.grants ==> t in TicketsOf(h.granted, h.locks.grants[t].network))
  }

  ghost predicate MutexesSound(l: Locks) {
    && (forall k :: k in l.mutexOf ==> l.mutexOf[k] < l.nextMutex)
    && (forall j, k :: j in l.mutexOf && k in l.mutexOf && l.mutexOf[j] == l.mutexOf[k] ==> j == k)
    && (forall m :: m in l.waiters ==> m < l.nextMutex)
  }

  ghost predicate Sound(h: History) {
    && MutexesSound(h.locks) && TicketsSound(h)
    && forall k :: InOrder(h, k) && HolderIsLast(h, k)
  }

  lemma GrantedAt(h: History, t: Ticket) returns (m: nat)
    requires TicketsSound(h) && t in h.locks.grants && InOrder(h, h.locks.grants[t].network)
    ensures var k := h.locks.grants[t].network;
            m < |TicketsOf(h.granted, k)| && m < |TicketsOf(h.requested, k)| && TicketsOf(h.requested, k)[m] == t
  {
    var k := h.locks.grants[t].network;
    m :| 0 <= m < |TicketsOf(h.granted, k)| && TicketsOf(h.granted, k)[m] == t;
  }

  /** A ticket that waits has no handle yet. */
  lemma WaitersAreNotGranted(h: History, k: string, i: nat)
    requires TicketsSound(h) && i < |Waiting(h.locks, k)| && forall j :: InOrder(h, j)
    ensures Waiting(h.locks, k)[i] !in h.locks.grants
  {
    var waiting, n := Waiting(h.locks, k)[i], |TicketsOf(h.granted, k)| + i;
    assert InOrder(h, k);
    assert TicketsOf(h.requested, k)[n] == waiting;
    forall t | t in h.locks.grants ensures t != waiting {
      var j := h.locks.grants[t].network;
      assert InOrder(h, j);
      var m := GrantedAt(h, t);
      assert Increasing(TicketsOf(h.requested, k), h.locks.nextTicket);
      assert j != k ==> Disjoint(TicketsOf(h.requested, j), TicketsOf(h.requested, k));
    }
  }

  lemma NewTicketHasNoHandle(h: History)
    requires TicketsSound(h) && forall k :: InOrder(h, k)
    ensures h.locks.nextTicket !in h.locks.grants
  {
    forall t | t in h.locks.grants ensures t < h.locks.nextTicket {
      assert InOrder(h, h.locks.grants[t].network);
      var m := GrantedAt(h, t);
      assert Increasing(TicketsOf(h.requested, h.locks.grants[t].network), h.locks.nextTicket);
    }
  }

  lemma Appended(m: map<string, seq<Ticket>>, network: string, t: Ticket, k: string)
    ensures TicketsOf(Append(m, network, t), k) == TicketsOf(m, k) + if k == network then [t] else []
  {
  }

  lemma NewTicketIncreases(h: History, network: string, k: string)
    requires TicketsSound(h)
    ensures Increasing(TicketsOf(Append(h.requested, network, h.locks.nextTicket), k), h.locks.nextTicket + 1)
  {
    hide Append, TicketsOf, Disjoint;
    Appended(h.requested, network, h.locks.nextTicket, k);
    assert Increasing(TicketsOf(h.requested, k), h.locks.nextTicket);
  }

  lemma NewTicketIsOnlyHere(h: History, network: string, j: string, k: string)
    requires TicketsSound(h) && j != k
    ensures Disjoint(TicketsOf(Append(h.requested, network, h.locks.nextTicket), j),
                     TicketsOf(Append(h.requested, network, h.locks.nextTicket), k))
  {
    hide Append, TicketsOf;
    Appended(h.requested, network, h.locks.nextTicket, j);
    Appended(h.requested, network, h.locks.nextTicket, k);
    assert Increasing(TicketsOf(h.requested, j), h.locks.nextTicket);
    assert Increasing(TicketsOf(h.requested, k), h.locks.nextTicket);
    assert Disjoint(TicketsOf(h.requested, j), TicketsOf(h.requested, k));
  }

  lemma AcquireKeepsTickets(h: History, network: string)
    requires TicketsSound(h)
    ensures TicketsSound(After(h, Acquire(network)))
  {
    var next := After(h, Acquire(network));
    forall k ensures Increasing(TicketsOf(next.requested, k), next.locks.nextTicket) {
      NewTicketIncreases(h, network, k);
    }
    forall j, k | j != k ensures Disjoint(TicketsOf(next.requested, j), TicketsOf(next.requested, k)) {
      NewTicketIsOnlyHere(h, network, j, k);
    }
    hide Increasing, Disjoint;
    forall t | t in next.locks.grants ensures t in TicketsOf(next.granted, next.locks.grants[t].network) {
      if t in h.locks.grants {
        assert t in TicketsOf(h.granted, h.locks.grants[t].network);
      }
    }
  }

  lemma AcquireKeepsOrder(h: History, network: string, k: string)
    requires MutexesSound(h.locks) && InOrder(h, k)
    ensures InOrder(After(h, Acquire(network)), k)
  {
  }

  lemma AcquireKeepsHolder(h: History, network: string, k: string)
    requires MutexesSound(h.locks) && HolderIsLast(h, k) && h.locks.nextTicket !in h.locks.grants
    ensures HolderIsLast(After(h, Acquire(network)), k)
  {
  }

  lemma AcquireKeepsSound(h: History, network: string)
    requires Sound(h)
    ensures Sound(After(h, Acquire(network)))
  {
    hide TicketsSound, InOrder, HolderIsLast;
    var next := After(h, Acquire(network));
    AcquireKeepsTickets(h, network);
    NewTicketHasNoHandle(h);
    forall k ensures InOrder(next, k) && HolderIsLast(next, k) {
      assert InOrder(h, k) && HolderIsLast(h, k);
      AcquireKeepsOrder(h, network, k);
      AcquireKeepsHolder(h, network, k);
    }
  }

  lemma ReleaseKeepsSound(h: History, ticket: Ticket)
    requires Sound(h)
    ensures Sound(After(h, Release(ticket)))
  {
    hide Increasing, Disjoint;
    var l, next := h.locks, After(h, Release(ticket));
    if ticket in l.grants && !l.grants[ticket].released {
      var network := l.grants[ticket].network;
      assert HolderIsLast(h, network) && InOrder(h, network);
      assert Holds(l, network, ticket);
      assert Waiting(l, network) == Queue(l, l.grants[ticket].mutex);
      if Waiting(l, network) != [] {
        WaitersAreNotGranted(h, network, 0);
      }
      forall k ensures InOrder(next, k) && HolderIsLast(next, k) {
        assert InOrder(h, k) && HolderIsLast(h, k);
      }
    }
  }

  lemma StepKeepsSound(h: History, op: LockOp)
    requires Sound(h)
    ensures Sound(After(h, op))
  {
    hide Sound, After;
    match op
    case Acquire(network) => AcquireKeepsSound(h, network);
    case Release(ticket) => ReleaseKeepsSound(h, ticket);
  }

  lemma {:induction false} ContinuesSound(h: History, ops: seq<LockOp>)
    requires Sound(h)
    ensures Sound(Continue(h, ops))
  {
    hide Sound, After;
    if ops != [] {
      ContinuesSound(h, ops[..|ops| - 1]);
      StepKeepsSound(Continue(h, ops[..|ops| - 1]), ops[|ops| - 1]);
    }
  }

  /** Every run, whatever its interleaving and however often handles are used, is sound. */
  lemma RunsAreSound(ops: seq<LockOp>)
    ensures Sound(Run(ops))
  {
    hide Sound, Continue;
    StartIsSound();
    ContinuesSound(START, ops);
  }

  lemma StartIsSound()
    ensures Sound(START)
  {
  }

  // ----- What that means -----

  /** At most one holder of each network; the network has a mutex exactly while there is one. */
  lemma MutualExclusion(ops: seq<LockOp>, network: string)
    ensures var l := Run(ops).locks;
            && (forall t, u :: Holds(l, network, t) && Holds(l, network, u) ==> t == u)
            && (network in l.mutexOf <==> exists t :: Holds(l, network, t))
  {
    hide Run, MutexesSound, TicketsSound;
    RunsAreSound(ops);
    assert HolderIsLast(Run(ops), network);
  }

  /** Tickets are granted in the order in which they were requested, and none is lost. */
  lemma FirstComeFirstServed(ops: seq<LockOp>, network: string)
    ensures var h := Run(ops);
            && TicketsOf(h.granted, network) <= TicketsOf(h.requested, network)
            && TicketsOf(h.requested, network) == TicketsOf(h.granted, network) + Waiting(h.locks, network)
  {
    hide Run, MutexesSound, TicketsSound, HolderIsLast;
    RunsAreSound(ops);
    assert InOrder(Run(ops), network);
  }

  predicate IsUsed(l: Locks, ticket: Ticket) {
    ticket in l.grants && l.grants[ticket].released
  }

  lemma StaysUsed(h: History, op: LockOp, ticket: Ticket)
    requires Sound(h) && IsUsed(h.locks, ticket)
    ensures IsUsed(After(h, op).locks, ticket)
  {
    hide Increasing, Disjoint;
    if op.Acquire? {
      NewTicketHasNoHandle(h);
    } else if op.ticket in h.locks.grants && !h.locks.grants[op.ticket].released {
      var network := h.locks.grants[op.ticket].network;
      assert HolderIsLast(h, network) && Holds(h.locks, network, op.ticket);
      if Waiting(h.locks, network) != [] {
        WaitersAreNotGranted(h, network, 0);
      }
    }
  }

  lemma {:induction false} StaysUsedForever(h: History, ops: seq<LockOp>, ticket: Ticket)
    requires Sound(h) && IsUsed(h.locks, ticket)
    ensures IsUsed(Continue(h, ops).locks, ticket)
  {
    hide Sound, After, IsUsed;
    if ops != [] {
      var earlier := ops[..|ops| - 1];
      StaysUsedForever(h, earlier, ticket);
      ContinuesSound(h, earlier);
      StaysUsed(Continue(h, earlier), ops[|ops| - 1], ticket);
    }
  }

  lemma UseIsUsed(h: History, ticket: Ticket)
    requires Sound(h) && ticket in h.locks.grants
    ensures IsUsed(After(h, Release(ticket)).locks, ticket)
  {
    hide Increasing, Disjoint;
    var network := h.locks.grants[ticket].network;
    assert HolderIsLast(h, network);
    if Holds(h.locks, network, ticket) && Waiting(h.locks, network) != [] {
      WaitersAreNotGranted(h, network, 0);
    }
  }

  /** Once a release handle was used, using it again changes nothing, whatever happened in between. */
  lemma RepeatedReleaseIsHarmless(h: History, ticket: Ticket, between: seq<LockOp>)
    requires Sound(h) && ticket in h.locks.grants
    ensures var later := Continue(After(h, Release(ticket)), between);
            After(later, Release(ticket)) == later
  {
    hide Sound, Continue;
    UseIsUsed(h, ticket);
    ReleaseKeepsSound(h, ticket);
    StaysUsedForever(After(h, Release(ticket)), between, ticket);
  }

  // ----- Every waiter gets its turn -----

  /** The operation ends the hold of a network. */
  predicate EndsHold(h: History, network: string, op: LockOp) {
    op.Release? && Holds(h.locks, network, op.ticket)
  }

  /** How many of the operations end a hold of the network. */
  function HoldsEnded(h: History, network: string, ops: seq<LockOp>): nat {
    if ops == [] then 0
    else
      var earlier := ops[..|ops| - 1];
      HoldsEnded(h, network, earlier) + if EndsHold(Continue(h, earlier), network, ops[|ops| - 1]) then 1 else 0
  }

  lemma AcquireGrants(h: History, network: string, other: string)
    ensures var next := After(h, Acquire(other));
            && TicketsOf(h.requested, network) <= TicketsOf(next.requested, network)
            && TicketsOf(h.granted, network) <= TicketsOf(next.granted, network)
            && (network in h.locks.mutexOf ==>
                  TicketsOf(next.granted, network) == TicketsOf(h.granted, network) && network in next.locks.mutexOf)
  {
  }

  lemma ReleaseGrants(h: History, network: string, ticket: Ticket)
    requires HolderIsLast(h, network)
    ensures var next := After(h, Release(ticket));
            && TicketsOf(next.requested, network) == TicketsOf(h.requested, network)
            && TicketsOf(h.granted, network) <= TicketsOf(next.granted, network)
            && (network in h.locks.mutexOf && !Holds(h.locks, network, ticket) ==>
                  TicketsOf(next.granted, network) == TicketsOf(h.granted, network) && network in next.locks.mutexOf)
            && (Holds(h.locks, network, ticket) && Waiting(h.locks, network) != [] ==>
                  && TicketsOf(next.granted, network) == TicketsOf(h.granted, network) + [Waiting(h.locks, network)[0]]
                  && network in next.locks.mutexOf)
  {
  }

  /** What one operation does to the tickets of a network. */
  lemma StepGrants(h: History, network: string, op: LockOp)
    requires Sound(h)
    ensures var next := After(h, op);
            && TicketsOf(h.requested, network) <= TicketsOf(next.requested, network)
            && TicketsOf(h.granted, network) <= TicketsOf(next.granted, network)
            && (network in h.locks.mutexOf && !EndsHold(h, network, op) ==>
                  TicketsOf(next.granted, network) == TicketsOf(h.granted, network) && network in next.locks.mutexOf)
            && (EndsHold(h, network, op) && Waiting(h.locks, network) != [] ==>
                  && TicketsOf(next.granted, network) == TicketsOf(h.granted, network) + [Waiting(h.locks, network)[0]]
                  && network in next.locks.mutexOf)
  {
    hide After, Holds, InOrder, TicketsSound, MutexesSound, HolderIsLast;
    assert HolderIsLast(h, network);
    match op
    case Acquire(other) => AcquireGrants(h, network, other);
    case Release(ticket) => ReleaseGrants(h, network, ticket);
  }

  /** As many of the waiters as holds were ended have been granted, first come first served; the rest still wait. */
  ghost predicate Served(h: History, later: History, network: string, ended: nat) {
    var waiting := Waiting(h.locks, network);
    && TicketsOf(h.requested, network) <= TicketsOf(later.requested, network)
    && (ended <= |waiting| ==>
          TicketsOf(later.granted, network) == TicketsOf(h.granted, network) + waiting[..ended]
          && network in later.locks.mutexOf)
    && (ended >= |waiting| ==> TicketsOf(h.granted, network) + waiting <= TicketsOf(later.granted, network))
  }

  /** With n of the waiters served, the next one in line is the next one that asked. */
  lemma NextInLine(granted: seq<Ticket>, waiting: seq<Ticket>, requested: seq<Ticket>, rest: seq<Ticket>, n: nat)
    requires n < |waiting| && granted + waiting <= requested && requested == granted + waiting[..n] + rest
    ensures rest != [] && rest[0] == waiting[n] && waiting[..n] + [rest[0]] == waiting[..n + 1]
  {
    assert requested[|granted| + n] == (granted + waiting)[|granted| + n] == waiting[n];
    assert |granted + waiting| <= |requested|;
  }

  lemma ServedSequences(granted: seq<Ticket>, waiting: seq<Ticket>, before: seq<Ticket>, after: seq<Ticket>,
                        requested: seq<Ticket>, rest: seq<Ticket>, ended: nat, ends: bool)
    requires granted + waiting <= requested && requested == before + rest && before <= after
    requires ended <= |waiting| ==> before == granted + waiting[..ended]
    requires ended >= |waiting| ==> granted + waiting <= before
    requires ended <= |waiting| && !ends ==> after == before
    requires ends && rest != [] ==> after == before + [rest[0]]
    ensures var n := ended + if ends then 1 else 0;
            && (n <= |waiting| ==> after == granted + waiting[..n] && (ends ==> rest != []))
            && (n >= |waiting| ==> granted + waiting <= after)
  {
    if ends && ended < |waiting| {
      NextInLine(granted, waiting, requested, rest, ended);
    }
    assert waiting[..|waiting|] == waiting;
  }

  lemma ServedNext(h: History, later: History, network: string, ended: nat, op: LockOp)
    requires Sound(h) && Sound(later) && Served(h, later, network, ended)
    ensures Served(h, After(later, op), network, ended + if EndsHold(later, network, op) then 1 else 0)
  {
    StepGrants(later, network, op);
    hide After, EndsHold, Waiting, TicketsOf, TicketsSound, MutexesSound, HolderIsLast;
    assert InOrder(h, network) && InOrder(later, network);
    ServedSequences(TicketsOf(h.granted, network), Waiting(h.locks, network), TicketsOf(later.granted, network),
                    TicketsOf(After(later, op).granted, network), TicketsOf(later.requested, network),
                    Waiting(later.locks, network), ended, EndsHold(later, network, op));
  }

  lemma {:induction false} ServedAfter(h: History, network: string, ops: seq<LockOp>)
    requires Sound(h) && Waiting(h.locks, network) != []
    ensures Served(h, Continue(h, ops), network, HoldsEnded(h, network, ops))
  {
    hide Sound, After, EndsHold, Served;
    if ops == [] {
      NobodyServedYet(h, network);
    } else {
      var earlier := ops[..|ops| - 1];
      ServedAfter(h, network, earlier);
      ContinuesSound(h, earlier);
      ServedNext(h, Continue(h, earlier), network, HoldsEnded(h, network, earlier), ops[|ops| - 1]);
    }
  }

  lemma NobodyServedYet(h: History, network: string)
    requires Waiting(h.locks, network) != []
    ensures Served(h, h, network, 0)
  {
    hide TicketsOf;
  }

  /**
   Whatever else is requested and released in between, on this network or on others: a waiter holds or has held the
   lock exactly when as many holds of its network have ended as there were waiters up to and including it.
   */
  lemma EveryWaiterIsServed(h: History, network: string, i: nat, ops: seq<LockOp>)
    requires Sound(h) && i < |Waiting(h.locks, network)|
    ensures Waiting(h.locks, network)[i] in TicketsOf(Continue(h, ops).granted, network)
       <==> HoldsEnded(h, network, ops) > i
  {
    hide Continue, HoldsEnded, MutexesSound, HolderIsLast, Waiting, TicketsOf, Increasing;
    ServedAfter(h, network, ops);
    ContinuesSound(h, ops);
    var later, waiting := Continue(h, ops), Waiting(h.locks, network);
    assert InOrder(h, network) && InOrder(later, network);
    assert Increasing(TicketsOf(later.requested, network), later.locks.nextTicket);
    GrantedUpTo(TicketsOf(h.granted, network), waiting, i, TicketsOf(later.granted, network),
                TicketsOf(later.requested, network), HoldsEnded(h, network, ops), later.locks.nextTicket);
  }

  lemma GrantedUpTo(granted: seq<Ticket>, waiting: seq<Ticket>, i: nat, later: seq<Ticket>, requested: seq<Ticket>,
                    ended: nat, bound: Ticket)
    requires i < |waiting| && Increasing(requested, bound) && granted + waiting <= requested && later <= requested
    requires ended <= |waiting| ==> later == granted + waiting[..ended]
    requires ended >= |waiting| ==> granted + waiting <= later
    ensures waiting[i] in later <==> ended > i
  {
    var n := |granted| + i;
    assert requested[n] == (granted + waiting)[n] == waiting[i];
    if ended > i {
      assert later[n] == requested[n];
    } else {
      assert |later| == |granted| + ended;
      forall j | 0 <= j < |later| ensures later[j] != waiting[i] {
        assert later[j] == requested[j] && requested[j] < requested[n];
      }
    }
  }

  // ----- The mutexes, updated in place -----

  class NetworkMutexes {
    var mutexOf: map<string, nat>
    var waiters: map<nat, seq<Ticket>>
    var grants: map<Ticket, Grant>
    var nextTicket: Ticket
    var nextMutex: nat

    function Model(): Locks
      reads this
    {
      Locks(mutexOf, waiters, grants, nextTicket, nextMutex)
    }

    constructor ()
      ensures Model() == UNLOCKED
    {
      mutexOf, waiters, grants, nextTicket, nextMutex := map[], map[], map[], 0, 0;
    }

    /** Requests the lock; the ticket is granted when it has a release handle. */
    method AcquireNetworkLock(network: string) returns (ticket: Ticket)
      modifies this
      ensures ticket == old(nextTicket) && Model() == Acquired(old(Model()), network)
    {
      ticket := nextTicket;
      nextTicket := nextTicket + 1;
      if network !in mutexOf {
        waiters := waiters[nextMutex := []];
        mutexOf := mutexOf[network := nextMutex];
        grants := grants[ticket := Grant(network, nextMutex, false)];
        nextMutex := nextMutex + 1;
      } else {
        var mutex := mutexOf[network];
        waiters := waiters[mutex := (if mutex in waiters then waiters[mutex] else []) + [ticket]];
      }
    }

    /** Calls a release handle. */
    method ReleaseNetworkLock(ticket: Ticket)
      requires ticket in grants
      modifies this`mutexOf, this`waiters, this`grants
      ensures Model() == Released(old(Model()), ticket)
    {
      var g := grants[ticket];
      if g.released {
        return;
      }
      grants := grants[ticket := g.(released := true)];
      if g.mutex !in waiters || waiters[g.mutex] == [] {
        if g.network in mutexOf && mutexOf[g.network] == g.mutex {
          mutexOf := mutexOf - {g.network};
        }
        return;
      }
      var next := waiters[g.mutex][0];
      waiters := waiters[g.mutex := waiters[g.mutex][1..]];
      grants := grants[next := Grant(g.network, g.mutex, false)];
    }
  }
}
