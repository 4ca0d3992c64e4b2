/** The locks of runtime-relay/relay.py and the order in which every operation takes them. */
module ConsoleLocks {

  type Broker = nat
  type Subscriber = nat
  type Thread = nat

  datatype Lock = RegistryLock | InputLock(b: Broker) | BrokerLock(b: Broker) | SubscriberLock(s: Subscriber)

  function Rank(l: Lock): nat {
    match l
    case RegistryLock => 0
    case InputLock(_) => 1
    case BrokerLock(_) => 2
    case SubscriberLock(_) => 3
  }

  datatype Op = Acquire(lock: Lock) | Release(lock: Lock)

  /** What a thread of the relay may do, with the clients it meets on the way; an attach replays history only if there
      is some. */
  datatype Operation =
    | GetBroker(b: Broker)
    | RemoveBroker
    | Attach(b: Broker, s: Subscriber, replay: bool)
    | Write(b: Broker, polls: nat)
    | Detach(b: Broker, s: Subscriber)
    | FanOut(b: Broker, served: seq<Subscriber>, slow: seq<Subscriber>)
    | Close(b: Broker, dropped: seq<Subscriber>)
    | StartOrRead(b: Broker)
    | SendOrHangUp(s: Subscriber)

  function Locked(l: Lock): seq<Op> {
    [Acquire(l), Release(l)]
  }

  function LockedEach(ss: seq<Subscriber>): seq<Op> {
    if ss == [] then [] else Locked(SubscriberLock(ss[0])) + LockedEach(ss[1..])
  }

  function Polls(b: Broker, n: nat): seq<Op> {
    if n == 0 then [] else Locked(BrokerLock(b)) + Polls(b, n - 1)
  }

  /** The lock operations each operation performs, in order. */
  function Script(o: Operation): seq<Op> {
    match o
    case GetBroker(b) => [Acquire(RegistryLock)] + (Locked(BrokerLock(b)) + [Release(RegistryLock)])
    case RemoveBroker => Locked(RegistryLock)
    case Attach(b, s, replay) =>
      [Acquire(BrokerLock(b))] + ((if replay then Locked(SubscriberLock(s)) else []) + [Release(BrokerLock(b))])
    case Write(b, polls) => [Acquire(InputLock(b))] + (Polls(b, polls) + [Release(InputLock(b))])
    case Detach(b, s) => Locked(SubscriberLock(s)) + Locked(BrokerLock(b))
    case FanOut(b, served, slow) =>
      [Acquire(BrokerLock(b))] + (LockedEach(served) + ([Release(BrokerLock(b))] + LockedEach(slow)))
    case Close(b, dropped) => Locked(BrokerLock(b)) + (LockedEach(dropped) + Locked(RegistryLock))
    case StartOrRead(b) => Locked(BrokerLock(b))
    case SendOrHangUp(s) => Locked(SubscriberLock(s))
  }

  /** The i-th pair of lock operations takes the lock and gives it back. */
  ghost predicate Pair(ops: seq<Op>, i: nat, lock: Lock) {
    2 * i + 1 < |ops| && ops[2 * i] == Acquire(lock) && ops[2 * i + 1] == Release(lock)
  }

  /** The subscribers' locks one after the other. */
  ghost predicate EachOf(ops: seq<Op>, ss: seq<Subscriber>) {
    |ops| == 2 * |ss| && forall i: nat :: i < |ss| ==> Pair(ops, i, SubscriberLock(ss[i]))
  }

  ghost predicate Often(ops: seq<Op>, n: nat, lock: Lock) {
    |ops| == 2 * n && forall i: nat :: i < n ==> Pair(ops, i, lock)
  }

  lemma PairLater(first: seq<Op>, rest: seq<Op>, i: nat, lock: Lock)
    requires |first| == 2 && Pair(rest, i, lock)
    ensures Pair(first + rest, i + 1, lock)
  {
  }

  lemma {:induction false} LockedEachMeans(ss: seq<Subscriber>)
    ensures EachOf(LockedEach(ss), ss)
  {
    if ss != [] {
      var first, rest := Locked(SubscriberLock(ss[0])), LockedEach(ss[1..]);
      LockedEachMeans(ss[1..]);
      assert LockedEach(ss) == first + rest;
      forall i: nat | i < |ss| ensures Pair(first + rest, i, SubscriberLock(ss[i])) {
        if i > 0 {
          assert ss[1..][i - 1] == ss[i];
          PairLater(first, rest, i - 1, SubscriberLock(ss[i]));
        }
      }
    }
  }

  lemma {:induction false} PollsMean(b: Broker, n: nat)
    ensures Often(Polls(b, n), n, BrokerLock(b))
    decreases n
  {
    if n > 0 {
      var first, rest := Locked(BrokerLock(b)), Polls(b, n - 1);
      PollsMean(b, n - 1);
      forall i: nat | i < n ensures Pair(first + rest, i, BrokerLock(b)) {
        if i > 0 {
          PairLater(first, rest, i - 1, BrokerLock(b));
        }
      }
    }
  }

  /** One operation first and one last, and those between them. */
  ghost predicate Around(script: seq<Op>, first: Op, between: seq<Op>, last: Op) {
    script == [first] + between + [last]
  }

  /** What each operation does with the locks: an attach replays, a fan-out serves and a look-up asks the broker while
      holding the outer lock; slow and dropped clients are hung up after the broker lock has been given back. */
  ghost predicate Does(o: Operation, script: seq<Op>) {
    match o
    case GetBroker(b) => script == [Acquire(RegistryLock), Acquire(BrokerLock(b)), Release(BrokerLock(b)), Release(RegistryLock)]
    case RemoveBroker => script == [Acquire(RegistryLock), Release(RegistryLock)]
    case Attach(b, s, replay) =>
      script == if replay
                then [Acquire(BrokerLock(b)), Acquire(SubscriberLock(s)), Release(SubscriberLock(s)), Release(BrokerLock(b))]
                else [Acquire(BrokerLock(b)), Release(BrokerLock(b))]
    case Write(b, polls) =>
      exists between :: Around(script, Acquire(InputLock(b)), between, Release(InputLock(b))) && Often(between, polls, BrokerLock(b))
    case Detach(b, s) =>
      script == [Acquire(SubscriberLock(s)), Release(SubscriberLock(s)), Acquire(BrokerLock(b)), Release(BrokerLock(b))]
    case FanOut(b, served, slow) =>
      exists locked, between, later ::
        script == locked + later && Around(locked, Acquire(BrokerLock(b)), between, Release(BrokerLock(b)))
        && EachOf(between, served) && EachOf(later, slow)
    case Close(b, dropped) =>
      exists between ::
        script == [Acquire(BrokerLock(b)), Release(BrokerLock(b))] + between + [Acquire(RegistryLock), Release(RegistryLock)]
        && EachOf(between, dropped)
    case StartOrRead(b) => script == [Acquire(BrokerLock(b)), Release(BrokerLock(b))]
    case SendOrHangUp(s) => script == [Acquire(SubscriberLock(s)), Release(SubscriberLock(s))]
  }

  lemma ScriptsDo(o: Operation)
    ensures Does(o, Script(o))
  {
    match o
    case Write(b, polls) =>
      PollsMean(b, polls);
      assert Around(Script(o), Acquire(InputLock(b)), Polls(b, polls), Release(InputLock(b)));
    case FanOut(b, served, slow) =>
      LockedEachMeans(served);
      LockedEachMeans(slow);
      var locked := [Acquire(BrokerLock(b))] + LockedEach(served) + [Release(BrokerLock(b))];
      assert Script(o) == locked + LockedEach(slow);
      assert Around(locked, Acquire(BrokerLock(b)), LockedEach(served), Release(BrokerLock(b)));
    case Close(b, dropped) =>
      LockedEachMeans(dropped);
      assert Script(o) ==
        [Acquire(BrokerLock(b)), Release(BrokerLock(b))] + LockedEach(dropped) + [Acquire(RegistryLock), Release(RegistryLock)];
    case _ =>
  }

  /** Holding `held`, the rest of the script takes only locks above all it holds, and ends holding none. */
  ghost predicate Ordered(held: set<Lock>, script: seq<Op>)
    decreases script
  {
    if script == [] then held == {}
    else match script[0]
      case Acquire(l) => (forall h :: h in held ==> Rank(h) < Rank(l)) && Ordered(held + {l}, script[1..])
      case Release(l) => l in held && Ordered(held - {l}, script[1..])
  }

  lemma OrderedAcquire(held: set<Lock>, l: Lock, rest: seq<Op>)
    requires (forall h :: h in held ==> Rank(h) < Rank(l)) && Ordered(held + {l}, rest)
    ensures Ordered(held, [Acquire(l)] + rest)
  {
    assert ([Acquire(l)] + rest)[1..] == rest;
  }

  lemma OrderedRelease(held: set<Lock>, l: Lock, rest: seq<Op>)
    requires l in held && Ordered(held - {l}, rest)
    ensures Ordered(held, [Release(l)] + rest)
  {
    assert ([Release(l)] + rest)[1..] == rest;
  }

  lemma OrderedLocked(held: set<Lock>, l: Lock, rest: seq<Op>)
    requires (forall h :: h in held ==> Rank(h) < Rank(l)) && Ordered(held, rest)
    ensures Ordered(held, Locked(l) + rest)
  {
    assert held + {l} - {l} == held;
    OrderedRelease(held + {l}, l, rest);
    OrderedAcquire(held, l, [Release(l)] + rest);
    assert [Acquire(l)] + ([Release(l)] + rest) == Locked(l) + rest;
  }

  lemma {:induction false} OrderedEach(held: set<Lock>, ss: seq<Subscriber>, rest: seq<Op>)
    requires (forall h :: h in held ==> Rank(h) < 3) && Ordered(held, rest)
    ensures Ordered(held, LockedEach(ss) + rest)
  {
    if ss == [] {
      assert LockedEach(ss) + rest == rest;
    } else {
      OrderedEach(held, ss[1..], rest);
      OrderedLocked(held, SubscriberLock(ss[0]), LockedEach(ss[1..]) + rest);
      assert LockedEach(ss) + rest == Locked(SubscriberLock(ss[0])) + (LockedEach(ss[1..]) + rest);
    }
  }

  lemma {:induction false} OrderedPolls(held: set<Lock>, b: Broker, n: nat, rest: seq<Op>)
    requires (forall h :: h in held ==> Rank(h) < 2) && Ordered(held, rest)
    ensures Ordered(held, Polls(b, n) + rest)
  {
    if n == 0 {
      assert Polls(b, n) + rest == rest;
    } else {
      OrderedPolls(held, b, n - 1, rest);
      OrderedLocked(held, BrokerLock(b), Polls(b, n - 1) + rest);
      assert Polls(b, n) + rest == Locked(BrokerLock(b)) + (Polls(b, n - 1) + rest);
    }
  }

  lemma OrderedOne(l: Lock)
    ensures Ordered({}, Locked(l))
  {
    OrderedLocked({}, l, []);
    assert Locked(l) + [] == Locked(l);
  }

  lemma OrderedEnd(l: Lock)
    ensures Ordered({l}, [Release(l)])
  {
    assert {l} - {l} == {};
    OrderedRelease({l}, l, []);
    assert [Release(l)] + [] == [Release(l)];
  }

  /** Every operation takes registry, input, broker and subscriber locks in that one order. */
  lemma ScriptsAreOrdered(o: Operation)
    ensures Ordered({}, Script(o))
  {
    hide Ordered, LockedEach, Polls, Locked;
    match o
    case GetBroker(b) =>
      OrderedEnd(RegistryLock);
      OrderedLocked({RegistryLock}, BrokerLock(b), [Release(RegistryLock)]);
      Outermost(RegistryLock, Locked(BrokerLock(b)) + [Release(RegistryLock)]);
    case RemoveBroker => OrderedOne(RegistryLock);
    case Attach(b, s, replay) =>
      OrderedEnd(BrokerLock(b));
      OrderedLocked({BrokerLock(b)}, SubscriberLock(s), [Release(BrokerLock(b))]);
      assert [] + [Release(BrokerLock(b))] == [Release(BrokerLock(b))];
      Outermost(BrokerLock(b), (if replay then Locked(SubscriberLock(s)) else []) + [Release(BrokerLock(b))]);
    case Write(b, polls) =>
      OrderedEnd(InputLock(b));
      OrderedPolls({InputLock(b)}, b, polls, [Release(InputLock(b))]);
      Outermost(InputLock(b), Polls(b, polls) + [Release(InputLock(b))]);
    case Detach(b, s) =>
      OrderedOne(BrokerLock(b));
      OrderedLocked({}, SubscriberLock(s), Locked(BrokerLock(b)));
    case FanOut(b, served, slow) => FanOutOrdered(b, served, slow);
    case Close(b, dropped) =>
      OrderedOne(RegistryLock);
      OrderedEach({}, dropped, Locked(RegistryLock));
      OrderedLocked({}, BrokerLock(b), LockedEach(dropped) + Locked(RegistryLock));
    case StartOrRead(b) => OrderedOne(BrokerLock(b));
    case SendOrHangUp(s) => OrderedOne(SubscriberLock(s));
  }

  lemma Outermost(l: Lock, rest: seq<Op>)
    requires Ordered({l}, rest)
    ensures Ordered({}, [Acquire(l)] + rest)
  {
    assert {} + {l} == {l};
    OrderedAcquire({}, l, rest);
  }

  lemma FanOutOrdered(b: Broker, served: seq<Subscriber>, slow: seq<Subscriber>)
    ensures Ordered({}, Script(FanOut(b, served, slow)))
  {
    var l := BrokerLock(b);
    OrderedEach({}, slow, []);
    assert LockedEach(slow) + [] == LockedEach(slow);
    assert {l} - {l} == {};
    OrderedRelease({l}, l, LockedEach(slow));
    OrderedEach({l}, served, [Release(l)] + LockedEach(slow));
    Outermost(l, LockedEach(served) + ([Release(l)] + LockedEach(slow)));
  }

  // ---- Threads running operations concurrently ----

  datatype Running = Running(held: set<Lock>, script: seq<Op>)

  type System = map<Thread, Running>

  /** Start a thread on an operation, or let a thread perform its next lock operation. */
  datatype Step = Begin(t: Thread, o: Operation) | Advance(t: Thread)

  predicate Free(sys: System, l: Lock) {
    forall t :: t in sys ==> l !in sys[t].held
  }

  predicate Enabled(sys: System, s: Step) {
    match s
    case Begin(t, _) => t in sys ==> sys[t].script == []
    case Advance(t) => t in sys && sys[t].script != [] && (sys[t].script[0].Acquire? ==> Free(sys, sys[t].script[0].lock))
  }

  function Next(sys: System, s: Step): System
    requires Enabled(sys, s)
  {
    match s
    case Begin(t, o) => sys[t := Running({}, Script(o))]
    case Advance(t) =>
      var r := sys[t];
      sys[t := Running(if r.script[0].Acquire? then r.held + {r.script[0].lock} else r.held - {r.script[0].lock}, r.script[1..])]
  }

  ghost predicate Legal(sys: System, steps: seq<Step>)
    decreases steps
  {
    steps == [] || (Enabled(sys, steps[0]) && Legal(Next(sys, steps[0]), steps[1..]))
  }

  ghost function After(sys: System, steps: seq<Step>): System
    requires Legal(sys, steps)
    decreases steps
  {
    if steps == [] then sys else After(Next(sys, steps[0]), steps[1..])
  }

  /** Every thread still has an ordered script ahead of it. */
  ghost predicate Inv(sys: System) {
    forall t :: t in sys ==> Ordered(sys[t].held, sys[t].script)
  }

  lemma {:induction false} RunKeeps(sys: System, steps: seq<Step>)
    requires Inv(sys) && Legal(sys, steps)
    ensures Inv(After(sys, steps))
    decreases steps
  {
    if steps != [] {
      if steps[0].Begin? { ScriptsAreOrdered(steps[0].o); }
      RunKeeps(Next(sys, steps[0]), steps[1..]);
    }
  }

  /** The thread waits for a lock that some thread holds. */
  ghost predicate Blocked(sys: System, t: Thread) {
    t in sys && sys[t].script != [] && sys[t].script[0].Acquire? && !Free(sys, sys[t].script[0].lock)
  }

  ghost function Wanted(sys: System, t: Thread): Lock
    requires Blocked(sys, t)
  {
    sys[t].script[0].lock
  }

  lemma {:induction false} HighestWaiter(sys: System, ts: set<Thread>) returns (top: Thread)
    requires ts != {} && forall t :: t in ts ==> Blocked(sys, t)
    ensures top in ts && forall t :: t in ts ==> Rank(Wanted(sys, t)) <= Rank(Wanted(sys, top))
    decreases ts
  {
    top :| top in ts;
    var rest := ts - {top};
    assert forall t :: t in ts ==> t in rest || t == top;
    if rest != {} {
      var best := HighestWaiter(sys, rest);
      if Rank(Wanted(sys, top)) < Rank(Wanted(sys, best)) {
        top := best;
      }
    }
  }

  /** No set of threads waits only on itself: in every reachable state, any threads that are all waiting for
      locks include one whose lock is held by a thread outside them. */
  lemma NoCircularWait(steps: seq<Step>, ts: set<Thread>)
    requires Legal(map[], steps)
    requires ts != {} && forall t :: t in ts ==> Blocked(After(map[], steps), t)
    ensures var sys := After(map[], steps);
      exists t, holder :: t in ts && holder in sys && holder !in ts && Wanted(sys, t) in sys[holder].held
  {
    RunKeeps(map[], steps);
    var sys := After(map[], steps);
    OutsideHolder(sys, ts);
  }

  lemma OutsideHolder(sys: System, ts: set<Thread>)
    requires Inv(sys) && ts != {} && forall t :: t in ts ==> Blocked(sys, t)
    ensures exists t, holder :: t in ts && holder in sys && holder !in ts && Wanted(sys, t) in sys[holder].held
  {
    var top := HighestWaiter(sys, ts);
    var holder :| holder in sys && Wanted(sys, top) in sys[holder].held;
    assert Ordered(sys[holder].held, sys[holder].script);
    assert holder !in ts;
  }

  /** As long as some thread has lock operations left, some thread can perform its next one. */
  lemma SomeThreadAdvances(steps: seq<Step>, t: Thread)
    requires Legal(map[], steps) && t in After(map[], steps) && After(map[], steps)[t].script != []
    ensures exists u :: Enabled(After(map[], steps), Advance(u))
  {
    RunKeeps(map[], steps);
    var sys := After(map[], steps);
    var waiting := set u | u in sys && Blocked(sys, u);
    if waiting == {} {
      assert t !in waiting;
      assert Enabled(sys, Advance(t));
    } else {
      OutsideHolder(sys, waiting);
      var w, holder :| w in waiting && holder in sys && holder !in waiting && Wanted(sys, w) in sys[holder].held;
      assert Ordered(sys[holder].held, sys[holder].script);
      assert Enabled(sys, Advance(holder));
    }
  }
}
