/** The classes of runtime-relay/relay.py, each method shown to take a legal path of the protocol. */
module ConsoleBroker {
  import opened Wrappers
  import opened Console

  lemma {:induction false} OneMore(b: Broker, steps: seq<Step>, s: Step)
    requires Legal(b, steps) && Enabled(After(b, steps), s)
    ensures Legal(b, steps + [s]) && After(b, steps + [s]) == Next(After(b, steps), s)
    decreases steps
  {
    if steps == [] {
      assert steps + [s] == [s] && [s][1..] == [];
    } else {
      assert (steps + [s])[1..] == steps[1..] + [s];
      OneMore(Next(b, steps[0]), steps[1..], s);
    }
  }

  lemma OneStep(b: Broker, s: Step)
    requires Enabled(b, s)
    ensures Legal(b, [s]) && After(b, [s]) == Next(b, s)
  {
    assert [s][1..] == [];
  }

  class Subscriber {
    var queue: seq<Item>
    var queuedBytes: int
    var closed: bool
    var flight: Option<Flight>
    var ended: bool
    ghost var delivered: seq<Byte>

    ghost function View(): Client
      reads this
    {
      Client(queue, queuedBytes, closed, flight, ended, delivered)
    }

    constructor ()
      ensures View() == NEW_CLIENT
    {
      queue, queuedBytes, closed, flight, ended := [], 0, false, None, false;
      delivered := [];
    }

    method Enqueue(data: seq<Byte>) returns (taken: bool)
      modifies this
      ensures (View(), taken) == Console.Enqueue(old(View()), data)
      ensures taken <==> data == [] || (!old(closed) && old(queuedBytes) + |data| <= 262144)
      ensures queue == old(queue) + (if taken && data != [] then [Chunk(data)] else [])
      ensures queuedBytes == old(queuedBytes) + (if taken then |data| else 0) && closed == old(closed)
    {
      if data == [] {
        return true;
      }
      if closed || queuedBytes + |data| > CLIENT_QUEUE_BYTES {
        return false;
      }
      queuedBytes := queuedBytes + |data|;
      queue := queue + [Chunk(data)];
      return true;
    }

    method Close()
      modifies this
      ensures View() == Closed(old(View()))
    {
      if !closed {
        closed := true;
        queue := queue + [Stop];
      }
    }

    /** One turn of `_send_loop`; `sent` is how much `sendall` wrote and `fails` whether it raised.
        The turn is made of actions of the client, between any two of which other threads may run. */
    method SendTurn(sent: nat, fails: bool)
      requires !ended && flight.None? && queue != []
      requires queue[0].Chunk? ==> sent <= |queue[0].data| && (!fails ==> sent == |queue[0].data|)
      modifies this
      ensures old(queue[0]).Stop? ==> View() == Acted(old(View()), Take)
      ensures old(queue[0]).Chunk? ==>
        TakesThreeActs(old(View()), Take, Send(sent), if fails then SendFails else CountSent, View())
    {
      var item := queue[0];
      queue := queue[1..];
      if item.Stop? {
        ended := true;
        Close();
        return;
      }
      flight := Some(Flight(item.data, 0));
      assert View() == Acted(old(View()), Take);
      ghost var taken := View();
      flight := Some(Flight(item.data, sent));
      delivered := delivered + item.data[..sent];
      assert View() == Acted(taken, Send(sent));
      if fails {
        ended := true;
        Close();
      } else {
        queuedBytes := queuedBytes - |item.data|;
        flight := None;
      }
    }
  }

  ghost predicate TakesThreeActs(c: Client, a0: Act, a1: Act, a2: Act, r: Client) {
    && CanAct(c, a0) && CanAct(Acted(c, a0), a1) && CanAct(Acted(Acted(c, a0), a1), a2)
    && r == Acted(Acted(Acted(c, a0), a1), a2)
  }

  /** The client after a fan-out has served it, and whether it was found too slow. */
  ghost predicate Served(before: Client, after: Client, data: seq<Byte>, slow: bool) {
    (after, !slow) == Enqueue(before, data)
  }

  /** What that means for a client whose queue is in order. */
  ghost predicate FannedOut(before: Client, after: Client, data: seq<Byte>, slow: bool) {
    QueueOk(before) && CountOk(before) ==>
      && (slow <==> !Room(before, data)) && (slow ==> after == before)
      && (!slow ==> Handed(after) == Handed(before) + data && after.closed == before.closed)
  }

  lemma ServedMeans(before: Client, after: Client, data: seq<Byte>, slow: bool)
    requires Served(before, after, data, slow)
    ensures FannedOut(before, after, data, slow)
  {
    hide Handed, Room;
    if QueueOk(before) && CountOk(before) {
      EnqueueKeeps(before, data);
    }
  }

  /** The broker.  `clients` holds every client ever attached, so that clients already dropped stay in view;
      `fan` is the fan-out that holds the lock, if any. */
  class ConsoleBroker {
    var clients: map<Id, Client>
    var subscribers: set<Id>
    var history: seq<Byte>
    var graceTimer: bool
    var closed: bool
    var masterFd: bool
    var proc: bool
    ghost var stream: seq<Byte>
    ghost var since: map<Id, nat>
    ghost var fan: Option<Fan>
    ghost var start: Start
    ghost var releasing: bool
    ghost var descriptorOpen: bool

    ghost function View(): Broker
      reads this
    {
      Broker(stream, history, clients, since, subscribers, graceTimer, closed, fan, start, masterFd, proc, releasing, descriptorOpen)
    }

    constructor ()
      ensures View() == NewBroker()
    {
      clients, subscribers, history, graceTimer, closed := map[], {}, [], false, false;
      masterFd, proc := false, false;
      stream, since, fan, start, releasing, descriptorOpen := [], map[], None, Waiting, false, false;
    }

    /** The locked part of `attach`; `id` names the new client and `ok` is false for either of its refusals. */
    method Attach(id: Id) returns (ok: bool)
      requires Enabled(View(), Step.Attach(id)) && id !in subscribers
      modifies this
      ensures View() == Next(old(View()), Step.Attach(id))
      ensures ok <==> !old(closed) && id in subscribers
    {
      if closed {
        return false;
      }
      if graceTimer {
        graceTimer := false;
      }
      subscribers := subscribers + {id};
      var replay := Enqueue(NEW_CLIENT, history);
      clients := clients[id := replay.0];
      since := since[id := |stream|];
      if !replay.1 {
        subscribers := subscribers - {id};
        return false;
      }
      return true;
    }

    /** `subscriber.close()`, outside the broker lock. */
    method HangUpClient(id: Id)
      requires id in clients
      modifies `clients
      ensures Enabled(old(View()), Acts(id, HangUp)) && View() == Next(old(View()), Acts(id, HangUp))
      ensures clients.Keys == old(clients.Keys) && clients[id] == Closed(old(clients)[id])
      ensures forall i :: i in clients && i != id ==> clients[i] == old(clients)[i]
    {
      clients := clients[id := Closed(clients[id])];
    }

    /** `detach`: close the client, then, under the lock, drop it and perhaps start the grace timer. */
    method Detach(id: Id)
      requires id in clients && fan.None?
      modifies this
      ensures var steps := [Acts(id, HangUp), Step.Detach(id)];
        Legal(old(View()), steps) && View() == After(old(View()), steps)
    {
      ghost var b := View();
      HangUpClient(id);
      ghost var hung := View();
      subscribers := subscribers - {id};
      if !closed && subscribers == {} && !graceTimer {
        graceTimer := true;
      }
      assert View() == Next(hung, Step.Detach(id));
      hide Next;
      OneStep(b, Acts(id, HangUp));
      OneMore(b, [Acts(id, HangUp)], Step.Detach(id));
      assert [Acts(id, HangUp)] + [Step.Detach(id)] == [Acts(id, HangUp), Step.Detach(id)];
    }

    /** The start of a fan-out: extend the history and trim it to its limit. */
    method Remember(data: seq<Byte>)
      requires fan.None? && !closed
      modifies this
      ensures View() == Next(old(View()), FanBegin(data))
      ensures fan == Some(Fan(data, subscribers, {})) && subscribers == old(subscribers) && clients == old(clients)
    {
      stream := stream + data;
      history := history + data;
      var overflow := |history| - HISTORY_BYTES;
      if overflow > 0 {
        history := history[overflow..];
      }
      assert history == Tail(old(history) + data);
      fan := Some(Fan(data, subscribers, {}));
    }

    method EnqueueTo(id: Id, data: seq<Byte>) returns (taken: bool)
      requires Enabled(View(), FanEnqueue(id)) && fan.value.data == data
      modifies `fan, `clients
      ensures View() == Next(old(View()), FanEnqueue(id))
      ensures id in clients && clients == old(clients)[id := clients[id]] && Served(old(clients)[id], clients[id], data, !taken)
      ensures fan == Some(Fan(data, old(fan).value.todo - {id},
                              if taken then old(fan).value.slow else old(fan).value.slow + {id}))
    {
      var r := Enqueue(clients[id], data);
      clients, taken := clients[id := r.0], r.1;
      fan := Some(Fan(data, fan.value.todo - {id}, if taken then fan.value.slow else fan.value.slow + {id}));
    }

    /** One turn of the loop of a fan-out that has taken these steps. */
    method ServeOne(id: Id, data: seq<Byte>, ghost b: Broker, ghost steps: seq<Step>) returns (taken: bool)
      requires Legal(b, steps) && View() == After(b, steps) && Enabled(View(), FanEnqueue(id)) && fan.value.data == data
      modifies `fan, `clients
      ensures id in clients && clients == old(clients)[id := clients[id]] && Served(old(clients)[id], clients[id], data, !taken)
      ensures fan == Some(Fan(data, old(fan).value.todo - {id},
                              if taken then old(fan).value.slow else old(fan).value.slow + {id}))
      ensures Legal(b, steps + [FanEnqueue(id)]) && View() == After(b, steps + [FanEnqueue(id)])
    {
      hide After, Legal, Served, Next;
      OneMore(b, steps, FanEnqueue(id));
      taken := EnqueueTo(id, data);
    }

    /** The loop of a fan-out over the subscribers, in some order. */
    method Serve(data: seq<Byte>) returns (slow: set<Id>, ghost steps: seq<Step>)
      requires fan == Some(Fan(data, subscribers, {})) && subscribers <= clients.Keys
      modifies `fan, `clients
      ensures fan == Some(Fan(data, {}, slow)) && slow <= subscribers && clients.Keys == old(clients.Keys)
      ensures forall id :: id in subscribers ==> Served(old(clients)[id], clients[id], data, id in slow)
      ensures forall id :: id in clients && id !in subscribers ==> clients[id] == old(clients)[id]
      ensures Legal(old(View()), steps) && View() == After(old(View()), steps)
      ensures forall i :: 0 <= i < |steps| ==> steps[i].FanEnqueue?
      ensures forall id :: id in subscribers ==> FanEnqueue(id) in steps
    {
      var todo: set<Id>;
      todo, slow, steps := subscribers, {}, [];
      while todo != {}
        invariant todo <= subscribers && slow <= subscribers && fan == Some(Fan(data, todo, slow))
        invariant clients.Keys == old(clients.Keys)
        invariant forall id :: id in subscribers && id !in todo ==> Served(old(clients)[id], clients[id], data, id in slow)
        invariant forall id :: id in clients && (id !in subscribers || id in todo) ==> clients[id] == old(clients)[id] && id !in slow
        invariant Legal(old(View()), steps) && View() == After(old(View()), steps)
        invariant forall i :: 0 <= i < |steps| ==> steps[i].FanEnqueue?
        invariant forall id :: id in subscribers && id !in todo ==> FanEnqueue(id) in steps
      {
        hide After, Legal, Served;
        var id :| id in todo;
        var taken := ServeOne(id, data, old(View()), steps);
        if !taken {
          slow := slow + {id};
        }
        todo := todo - {id};
        steps := steps + [FanEnqueue(id)];
      }
    }

    /** The end of a fan-out: drop the slow clients and start the grace timer if none is left. */
    method DropSlow(slow: set<Id>)
      requires Enabled(View(), FanEnd) && fan.value.slow == slow
      modifies this
      ensures View() == Next(old(View()), FanEnd) && clients == old(clients) && subscribers == old(subscribers) - slow
    {
      subscribers := subscribers - slow;
      if slow != {} && subscribers == {} && !graceTimer {
        graceTimer := true;
      }
      fan := None;
    }

    /** The locked part of `_fan_out`, on an open broker: which clients were too slow. */
    method FanLocked(data: seq<Byte>) returns (slow: set<Id>, ghost steps: seq<Step>)
      requires fan.None? && !closed && subscribers <= clients.Keys
      modifies this
      ensures Legal(old(View()), steps) && View() == After(old(View()), steps)
      ensures steps != [] && steps[0] == FanBegin(data) && FanEnd in steps
      ensures forall i :: 0 < i < |steps| ==> steps[i].FanEnqueue? || steps[i].FanEnd?
      ensures clients.Keys == old(clients.Keys) && slow <= old(subscribers) && subscribers == old(subscribers) - slow
      ensures forall id :: id in old(subscribers) ==> FanEnqueue(id) in steps && Served(old(clients)[id], clients[id], data, id in slow)
      ensures forall id :: id in clients && id !in old(subscribers) ==> clients[id] == old(clients)[id]
    {
      ghost var b := View();
      OneStep(b, FanBegin(data));
      hide Next, After, Legal, Served;
      Remember(data);
      ghost var served;
      slow, served := Serve(data);
      Joined(b, [FanBegin(data)], served);
      OneMore(b, [FanBegin(data)] + served, FanEnd);
      DropSlow(slow);
      steps := [FanBegin(data)] + served + [FanEnd];
    }

    /** `_fan_out`: the locked part, and then, outside the lock, the slow clients are closed.  A subscriber that takes
        the data stays subscribed with it; one that does not ends dropped and closed. */
    method FanOut(data: seq<Byte>) returns (ghost steps: seq<Step>)
      requires fan.None? && subscribers <= clients.Keys
      modifies this
      ensures Legal(old(View()), steps) && View() == After(old(View()), steps)
      ensures steps != [] && steps[0] == FanBegin(data)
      ensures forall i :: 0 < i < |steps| ==> steps[i].FanEnqueue? || steps[i].FanEnd? || (steps[i].Acts? && steps[i].act.HangUp?)
      ensures !old(closed) ==> FanEnd in steps && forall id :: id in old(subscribers) ==> FanEnqueue(id) in steps
      ensures clients.Keys == old(clients.Keys) && subscribers <= old(subscribers)
      ensures !old(closed) ==> forall id :: id in old(subscribers) && QueueOk(old(clients)[id]) && CountOk(old(clients)[id]) ==>
        if Room(old(clients)[id], data)
        then id in subscribers && clients[id].closed == old(clients)[id].closed && Handed(clients[id]) == Handed(old(clients)[id]) + data
        else id !in subscribers && clients[id] == Closed(old(clients)[id])
      ensures forall id :: id in clients && id !in old(subscribers) ==> clients[id] == old(clients)[id]
    {
      ghost var b := View();
      if closed {
        OneStep(b, FanBegin(data));
        return [FanBegin(data)];
      }
      hide Next, After, Legal, Enqueue;
      var slow;
      slow, steps := FanLocked(data);
      forall id | id in old(subscribers)
        ensures FannedOut(old(clients)[id], clients[id], data, id in slow)
      {
        ServedMeans(old(clients)[id], clients[id], data, id in slow);
      }
      ghost var more := CloseClients(slow);
      hide Room, QueueOk, CountOk, Handed, Closed;
      Joined(b, steps, more);
      steps := steps + more;
    }

    /** `for subscriber in ...: subscriber.close()`, outside the lock. */
    method CloseClients(ids: set<Id>) returns (ghost steps: seq<Step>)
      requires ids <= clients.Keys
      modifies `clients
      ensures Legal(old(View()), steps) && View() == After(old(View()), steps)
      ensures forall i :: 0 <= i < |steps| ==> steps[i].Acts? && steps[i].act.HangUp?
      ensures clients.Keys == old(clients.Keys) && forall id :: id in ids ==> clients[id] == Closed(old(clients)[id])
      ensures forall id :: id in clients && id !in ids ==> clients[id] == old(clients)[id]
    {
      var todo := ids;
      steps := [];
      hide Next;
      while todo != {}
        invariant todo <= ids && clients.Keys == old(clients.Keys)
        invariant Legal(old(View()), steps) && View() == After(old(View()), steps)
        invariant forall i :: 0 <= i < |steps| ==> steps[i].Acts? && steps[i].act.HangUp?
        invariant forall id :: id in ids && id !in todo ==> clients[id] == Closed(old(clients)[id])
        invariant forall id :: id in clients && (id !in ids || id in todo) ==> clients[id] == old(clients)[id]
      {
        hide After, Legal;
        var id :| id in todo;
        OneMore(old(View()), steps, Acts(id, HangUp));
        HangUpClient(id);
        todo := todo - {id};
        steps := steps + [Acts(id, HangUp)];
      }
    }

    /** The locked part of `close`, on an open broker. */
    method Shut() returns (dropped: set<Id>, fd: bool)
      requires fan.None? && !closed
      modifies this
      ensures View() == ShutDown(old(View())) && clients == old(clients)
      ensures dropped == old(subscribers) && fd == old(masterFd) == releasing && fan.None?
    {
      dropped, fd := subscribers, masterFd;
      closed, graceTimer, subscribers, masterFd, proc, releasing := true, false, {}, false, false, fd;
    }

    /** `close`: the locked part, the clients, and the release of the terminal. */
    method Close() returns (ghost steps: seq<Step>)
      requires fan.None? && subscribers <= clients.Keys
      modifies this
      ensures Legal(old(View()), steps) && View() == After(old(View()), steps)
      ensures steps != [] && steps[0] == Step.Close && closed
      ensures !old(closed) ==> clients.Keys == old(clients.Keys) && forall id :: id in old(subscribers) ==> clients[id] == Closed(old(clients)[id])
      ensures !old(closed) && old(masterFd) ==> !descriptorOpen
    {
      ghost var b := View();
      OneStep(b, Step.Close);
      steps := [Step.Close];
      if closed {
        return;
      }
      assert Next(b, Step.Close) == ShutDown(b);
      hide Next;
      var dropped, fd := Shut();
      ghost var more := CloseClients(dropped);
      Joined(b, steps, more);
      steps := steps + more;
      if fd {
        OneMore(b, steps, Release);
        releasing, descriptorOpen := false, false;
        steps := steps + [Release];
      }
    }

    /** The locked part of `_start_upstream`, after the terminal was opened. */
    method Install() returns (live: bool)
      requires Enabled(View(), Step.Install)
      modifies this
      ensures View() == Next(old(View()), Step.Install)
      ensures live == !old(closed)
      ensures LifeOk(old(View())) && DescriptorOk(old(View())) ==> live == masterFd && live == proc && live == descriptorOpen
    {
      if closed {
        start, descriptorOpen := Abandoned, false;
        return false;
      }
      masterFd, proc, start := true, true, Installed;
      return true;
    }
  }

  lemma {:induction false} Joined(b: Broker, steps: seq<Step>, more: seq<Step>)
    requires Legal(b, steps) && Legal(After(b, steps), more)
    ensures Legal(b, steps + more) && After(b, steps + more) == After(After(b, steps), more)
    decreases more
  {
    if more == [] {
      assert steps + more == steps;
    } else {
      OneMore(b, steps, more[0]);
      Joined(b, steps + [more[0]], more[1..]);
      assert steps + [more[0]] + more[1..] == steps + more;
    }
  }
}
