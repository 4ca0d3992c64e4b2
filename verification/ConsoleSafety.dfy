/** What holds of a console broker in every state it can reach. */
module ConsoleSafety {
  import opened Wrappers
  import opened Console

  // ---- Each step keeps the invariant ----

  lemma FanBeginKeeps(b: Broker, data: seq<Byte>)
    requires Inv(b) && Enabled(b, FanBegin(data))
    ensures Inv(Next(b, FanBegin(data)))
  {
    if !b.closed {
      var b' := Next(b, FanBegin(data));
      TailExtends(b.stream, data);
      forall id | id in b'.clients ensures ClientOk(b'.clients[id], b'.since[id], b'.stream) {
        ClientOkLater(b.clients[id], b.since[id], b.stream, data);
      }
      assert b'.stream[..|b'.stream| - |data|] == b.stream;
    }
  }

  /** Data taken extends what the client was handed from the old end of the stream to the new one. */
  lemma ServedIsUpToDate(c: Client, since: nat, before: seq<Byte>, data: seq<Byte>)
    requires ClientOk(c, since, before + data) && UpToDate(c, since, before)
    ensures var r := Enqueue(c, data);
      ClientOk(r.0, since, before + data) && (r.1 ==> UpToDate(r.0, since, before + data))
  {
    hide Enqueue, QueueOk, CountOk, Handed, From;
    EnqueueKeeps(c, data);
    FromIsBelow(since);
    assert (before + data)[From(since)..] == before[From(since)..] + data;
  }

  lemma FromIsBelow(since: nat)
    ensures From(since) <= since
  {
  }

  lemma FanEnqueueKeeps(b: Broker, id: Id)
    requires Inv(b) && Enabled(b, FanEnqueue(id))
    ensures Inv(Next(b, FanEnqueue(id)))
  {
    hide ClientOk, UpToDate, Enqueue, Tail;
    var fan := b.fan.value;
    var b', before := Next(b, FanEnqueue(id)), b.stream[..|b.stream| - |fan.data|];
    assert before + fan.data == b.stream;
    assert ClientOk(b.clients[id], b.since[id], b.stream);
    ServedIsUpToDate(b.clients[id], b.since[id], before, fan.data);
    assert ClientsOk(b');
    assert FanOk(b', b'.fan.value);
  }

  lemma FanEndKeeps(b: Broker)
    requires Inv(b) && Enabled(b, FanEnd)
    ensures Inv(Next(b, FanEnd))
  {
  }

  /** A new client's replay always fits, and brings it up to date. */
  lemma ReplayFits(stream: seq<Byte>)
    ensures var r := Enqueue(NEW_CLIENT, Tail(stream));
      r.1 && ClientOk(r.0, |stream|, stream) && UpToDate(r.0, |stream|, stream)
  {
    EnqueueKeeps(NEW_CLIENT, Tail(stream));
    assert Handed(NEW_CLIENT) == [];
  }

  lemma AttachKeeps(b: Broker, id: Id)
    requires Inv(b) && Enabled(b, Attach(id))
    ensures Inv(Next(b, Attach(id)))
  {
    if !b.closed {
      ReplayFits(b.stream);
    }
  }

  lemma ActedIsOk(c: Client, act: Act, since: nat, stream: seq<Byte>)
    requires ClientOk(c, since, stream) && CanAct(c, act)
    ensures ClientOk(Acted(c, act), since, stream)
    ensures forall s :: UpToDate(c, since, s) ==> UpToDate(Acted(c, act), since, s)
  {
    ActKeeps(c, act);
  }

  lemma ActsKeep(b: Broker, id: Id, act: Act)
    requires Inv(b) && Enabled(b, Acts(id, act))
    ensures Inv(Next(b, Acts(id, act)))
  {
    hide ClientOk, UpToDate, Acted, CanAct, Tail;
    var c := b.clients[id];
    var b' := b.(clients := b.clients[id := Acted(c, act)]);
    assert Next(b, Acts(id, act)) == b';
    ActedIsOk(c, act, b.since[id], b.stream);
    assert b'.clients.Keys == b.clients.Keys;
    assert ClientsOk(b') && DescriptorOk(b') && LifeOk(b');
    if b.fan.Some? { assert FanOk(b', b.fan.value); }
  }

  lemma DetachKeeps(b: Broker, id: Id)
    requires Inv(b) && Enabled(b, Detach(id))
    ensures Inv(Next(b, Detach(id)))
  {
  }

  lemma CloseKeeps(b: Broker)
    requires Inv(b) && Enabled(b, Close)
    ensures Inv(Next(b, Close))
  {
  }

  /** The steps that concern only the terminal. */
  lemma TerminalKeeps(b: Broker, s: Step)
    requires Inv(b) && Enabled(b, s) && (s.GiveUp? || s.Spawn? || s.Install? || s.Release?)
    ensures Inv(Next(b, s))
  {
    hide ClientOk, UpToDate, Tail, Enqueue, Acted, CanAct;
  }

  lemma StepKeeps(b: Broker, s: Step)
    requires Inv(b) && Enabled(b, s)
    ensures Inv(Next(b, s))
  {
    hide Inv, Enabled, Next;
    match s
    case FanBegin(data) => FanBeginKeeps(b, data);
    case FanEnqueue(id) => FanEnqueueKeeps(b, id);
    case FanEnd => FanEndKeeps(b);
    case Attach(id) => AttachKeeps(b, id);
    case Acts(id, act) => ActsKeep(b, id, act);
    case Detach(id) => DetachKeeps(b, id);
    case Close => CloseKeeps(b);
    case GiveUp => TerminalKeeps(b, s);
    case Spawn => TerminalKeeps(b, s);
    case Install => TerminalKeeps(b, s);
    case Release => TerminalKeeps(b, s);
  }

  lemma {:induction false} RunKeeps(b: Broker, steps: seq<Step>)
    requires Inv(b) && Legal(b, steps)
    ensures Inv(After(b, steps))
    ensures b.closed ==> After(b, steps).closed
    decreases steps
  {
    if steps != [] {
      StepKeeps(b, steps[0]);
      RunKeeps(Next(b, steps[0]), steps[1..]);
    }
  }

  lemma EmptyTail()
    ensures Tail([]) == []
  {
  }

  lemma NewBrokerHistory()
    ensures SubscribersOk(NewBroker())
  {
    hide Tail, UpToDate, FanOk;
    EmptyTail();
  }

  lemma NewBrokerOk()
    ensures Inv(NewBroker())
  {
    hide SubscribersOk, ClientOk;
    NewBrokerHistory();
    assert ClientsOk(NewBroker());
    assert LifeOk(NewBroker()) && DescriptorOk(NewBroker());
    hide NewBroker, ClientsOk, LifeOk, DescriptorOk;
  }

  // ---- The theorems, for every interleaving ----

  /** The output from 64 KiB before so much of it, or from its start. */
  ghost function Seen(stream: seq<Byte>, since: nat): seq<Byte>
    requires since <= |stream|
  {
    stream[if since <= 65536 then 0 else since - 65536..]
  }

  /** The bytes queued to a client are one contiguous piece of the upstream output, beginning at most 64 KiB
      before it attached and at the start if there was less; what it received is a prefix of that piece.  A client
      that is still subscribed has been handed everything up to the end of the output, and one whose sender
      stopped without a socket error has received everything it was handed. */
  lemma ClientsSeeTheStream(steps: seq<Step>, id: Id)
    requires Legal(NewBroker(), steps) && id in After(NewBroker(), steps).clients
    ensures var b := After(NewBroker(), steps);
      var c := b.clients[id];
      && id in b.since && b.since[id] <= |b.stream|
      && Handed(c) <= Seen(b.stream, b.since[id])
      && c.delivered <= Handed(c)
      && (id in b.subscribers && b.fan.None? ==> Handed(c) == Seen(b.stream, b.since[id]))
      && (c.ended && c.flight.None? ==> c.delivered == Handed(c))
  {
    hide *;
    NewBrokerOk();
    RunKeeps(NewBroker(), steps);
    ClientSees(After(NewBroker(), steps), id);
  }

  lemma ClientSees(b: Broker, id: Id)
    requires Inv(b) && id in b.clients
    ensures var c := b.clients[id];
      && id in b.since && b.since[id] <= |b.stream|
      && Handed(c) <= Seen(b.stream, b.since[id])
      && c.delivered <= Handed(c)
      && (id in b.subscribers && b.fan.None? ==> Handed(c) == Seen(b.stream, b.since[id]))
      && (c.ended && c.flight.None? ==> c.delivered == Handed(c))
  {
    assert ClientOk(b.clients[id], b.since[id], b.stream);
  }

  /** What a step does to the set of subscribers: it is joined by a client that attaches to an open broker, and left by
      one that detaches, by those that a fan-out found too slow, and by all when the broker closes.  A fan-out asks
      everyone subscribed, and finds a client too slow exactly if it has no room for the data. */
  ghost predicate Reckoned(b: Broker, s: Step, e: Broker, id: Id) {
    && (id in e.subscribers <==>
          || (s == Attach(id) && !b.closed)
          || (id in b.subscribers && s != Detach(id) && !s.Close? && !(s.FanEnd? && b.fan.Some? && id in b.fan.value.slow)))
    && (s.FanBegin? && !b.closed ==> e.fan == Some(Fan(s.data, b.subscribers, {})) && e.stream == b.stream + s.data)
    && (s.FanEnqueue? && b.fan.Some? && s.id in b.clients && s.id in e.clients ==>
          var c, data := b.clients[s.id], b.fan.value.data;
          && e.fan == Some(Fan(data, b.fan.value.todo - {s.id}, b.fan.value.slow + if Room(c, data) then {} else {s.id}))
          && Handed(e.clients[s.id]) == (if Room(c, data) then Handed(c) + data else Handed(c)))
  }

  lemma SubscribersExactly(steps: seq<Step>, s: Step, id: Id)
    requires Legal(NewBroker(), steps) && Enabled(After(NewBroker(), steps), s)
    ensures Reckoned(After(NewBroker(), steps), s, Next(After(NewBroker(), steps), s), id)
  {
    hide *;
    NewBrokerOk();
    RunKeeps(NewBroker(), steps);
    StepReckoned(After(NewBroker(), steps), s, id);
  }

  lemma ServingReckoned(b: Broker, i: Id, id: Id)
    requires Inv(b) && Enabled(b, FanEnqueue(i))
    ensures Reckoned(b, FanEnqueue(i), Next(b, FanEnqueue(i)), id)
  {
    var c, data := b.clients[i], b.fan.value.data;
    assert ClientOk(c, b.since[i], b.stream);
    EnqueueKeeps(c, data);
    hide Inv, Handed, Enqueue, Room;
    var slow := b.fan.value.slow;
    assert slow + {} == slow;
  }

  lemma AttachReckoned(b: Broker, i: Id, id: Id)
    requires Inv(b) && Enabled(b, Attach(i))
    ensures Reckoned(b, Attach(i), Next(b, Attach(i)), id)
  {
    ReplayFits(b.stream);
    hide Tail, Enqueue, ClientOk, UpToDate, Room, Handed;
  }

  lemma StepReckoned(b: Broker, s: Step, id: Id)
    requires Inv(b) && Enabled(b, s)
    ensures Reckoned(b, s, Next(b, s), id)
  {
    hide Acted, CanAct, Tail, UpToDate, FanOk, Handed, Enqueue, Room, ClientOk, DescriptorOk;
    match s
    case Attach(i) => AttachReckoned(b, i, id);
    case FanEnqueue(i) => ServingReckoned(b, i, id);
    case FanBegin(_) =>
    case FanEnd =>
    case Detach(_) =>
    case Close =>
    case _ =>
  }

  /** The history is the last 64 KiB of the output, every client's counter is exactly its uncounted bytes and
      within 256 KiB, and so a client that attaches now would never be refused its replay. */
  lemma BuffersAreExact(steps: seq<Step>, id: Id)
    requires Legal(NewBroker(), steps)
    ensures var b := After(NewBroker(), steps);
      && |b.history| == (if |b.stream| <= 65536 then |b.stream| else 65536)
      && b.history == b.stream[|b.stream| - |b.history|..]
      && (id in b.clients ==> b.clients[id].queued == Uncounted(b.clients[id]) <= 262144)
      && Enqueue(NEW_CLIENT, b.history).1
      && (Enabled(b, Attach(id)) && !b.closed ==> id in Next(b, Attach(id)).subscribers)
  {
    hide *;
    NewBrokerOk();
    RunKeeps(NewBroker(), steps);
    BufferFacts(After(NewBroker(), steps), id);
  }

  lemma BufferFacts(b: Broker, id: Id)
    requires Inv(b)
    ensures |b.history| == (if |b.stream| <= 65536 then |b.stream| else 65536)
    ensures b.history == b.stream[|b.stream| - |b.history|..]
    ensures id in b.clients ==> b.clients[id].queued == Uncounted(b.clients[id]) <= 262144
    ensures Enqueue(NEW_CLIENT, b.history).1
    ensures Enabled(b, Attach(id)) && !b.closed ==> id in Next(b, Attach(id)).subscribers
  {
    ReplayFits(b.stream);
    TailLength(b.stream);
    assert id in b.clients ==> ClientOk(b.clients[id], b.since[id], b.stream);
    hide Enqueue, ClientOk, UpToDate, Tail, FanOk;
  }

  lemma TailLength(s: seq<Byte>)
    ensures |Tail(s)| == (if |s| <= 65536 then |s| else 65536)
    ensures Tail(s) == s[|s| - |Tail(s)|..]
  {
  }

  /** While the broker is open, having clients means no grace timer and having lost the last client means one.
      From the moment it is closed it stays closed, with no clients, timer, process or descriptor, whatever was
      in flight; and once no start or release is under way the terminal is closed too. */
  lemma ClosedIsFinal(steps: seq<Step>, more: seq<Step>)
    requires Legal(NewBroker(), steps) && Legal(After(NewBroker(), steps), more)
    ensures var b := After(NewBroker(), steps);
      && (!b.closed && b.subscribers != {} ==> !b.graceTimer)
      && (!b.closed && b.subscribers == {} && b.clients != map[] ==> b.graceTimer)
      && (b.closed ==>
           var e := After(b, more);
           && e.closed && e.subscribers == {} && !e.graceTimer && !e.proc && !e.masterFd
           && (!e.start.Spawned? && !e.releasing ==> !e.descriptorOpen))
  {
    hide After, Legal, Next, ClientsOk, SubscribersOk;
    NewBrokerOk();
    RunKeeps(NewBroker(), steps);
    RunKeeps(After(NewBroker(), steps), more);
  }

  /** A closed broker neither takes new output nor serves new clients. */
  lemma ClosedIsInert(b: Broker, s: Step)
    requires Inv(b) && b.closed && Enabled(b, s)
    ensures var e := Next(b, s);
      e.stream == b.stream && e.history == b.history && e.clients.Keys == b.clients.Keys
      && forall id :: id in b.clients ==> Handed(e.clients[id]) == Handed(b.clients[id])
  {
    if s.Acts? {
      assert ClientOk(b.clients[s.id], b.since[s.id], b.stream);
      ActKeeps(b.clients[s.id], s.act);
    }
  }
}
