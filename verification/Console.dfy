/** The shared console broker of runtime-relay/relay.py: one upstream byte stream fanned out to bounded clients.
    Every step is one section that the source runs under a lock, or one action of a sender thread. */
module Console {
  import opened Wrappers

  const HISTORY_BYTES: nat := 64 * 1024
  const CLIENT_QUEUE_BYTES: nat := 256 * 1024

  type Byte = x: int | 0 <= x < 256
  type Id = nat

  // ---- One downstream client ----

  /** What the client's queue holds; `Stop` is the sentinel that ends the sender. */
  datatype Item = Chunk(data: seq<Byte>) | Stop

  datatype Flight = Flight(data: seq<Byte>, sent: nat)

  /** `flight` is the chunk the sender has taken from the queue and not yet counted as sent, `ended` says that
      the sender thread is over, and `delivered` is what reached the socket. */
  datatype Client = Client(queue: seq<Item>, queued: int, closed: bool,
                           flight: Option<Flight>, ended: bool, delivered: seq<Byte>)

  const NEW_CLIENT: Client := Client([], 0, false, None, false, [])

  /** `_ConsoleSubscriber.enqueue`: the client afterwards, and whether the data was taken. */
  function Enqueue(c: Client, data: seq<Byte>): (Client, bool) {
    if data == [] then (c, true)
    else if c.closed then (c, false)
    else if c.queued + |data| > CLIENT_QUEUE_BYTES then (c, false)
    else (c.(queued := c.queued + |data|, queue := c.queue + [Chunk(data)]), true)
  }

  /** `_ConsoleSubscriber.close`. */
  function Closed(c: Client): Client {
    if c.closed then c else c.(closed := true, queue := c.queue + [Stop])
  }

  /** What happens to a client without the broker lock: `close`, and the turns of `_send_loop`. */
  datatype Act = HangUp | Take | Send(count: nat) | CountSent | SendFails

  predicate CanAct(c: Client, act: Act) {
    match act
    case HangUp => true
    case Take => !c.ended && c.flight.None? && c.queue != []
    case Send(count) => !c.ended && c.flight.Some? && c.flight.value.sent + count <= |c.flight.value.data|
    case CountSent => !c.ended && c.flight.Some? && c.flight.value.sent == |c.flight.value.data|
    case SendFails => !c.ended && c.flight.Some?
  }

  function Acted(c: Client, act: Act): Client
    requires CanAct(c, act)
  {
    match act
    case HangUp => Closed(c)
    case Take =>
      if c.queue[0].Stop? then Closed(c.(queue := c.queue[1..], ended := true))
      else c.(queue := c.queue[1..], flight := Some(Flight(c.queue[0].data, 0)))
    case Send(count) =>
      var f := c.flight.value;
      c.(flight := Some(Flight(f.data, f.sent + count)), delivered := c.delivered + f.data[f.sent..f.sent + count])
    case CountSent => c.(flight := None, queued := c.queued - |c.flight.value.data|)
    case SendFails => Closed(c.(ended := true))
  }

  function Bytes(queue: seq<Item>): seq<Byte> {
    if queue == [] then [] else (if queue[0].Chunk? then queue[0].data else []) + Bytes(queue[1..])
  }

  function Unsent(f: Option<Flight>): seq<Byte> {
    if f.Some? && f.value.sent <= |f.value.data| then f.value.data[f.value.sent..] else []
  }

  /** Everything ever queued to the client: delivered, being sent, and still waiting. */
  function Handed(c: Client): seq<Byte> {
    c.delivered + Unsent(c.flight) + Bytes(c.queue)
  }

  /** The bytes that still count against the client's limit: queued, or in the chunk being sent. */
  function Uncounted(c: Client): nat {
    |Bytes(c.queue)| + if c.flight.Some? then |c.flight.value.data| else 0
  }

  /** Where in the upstream output the view of a client begins that attached after so much of it. */
  function From(since: nat): nat {
    if since <= HISTORY_BYTES then 0 else since - HISTORY_BYTES
  }

  // ---- The broker ----

  /** A fan-out that holds the broker lock: clients still to be served, and those found too slow. */
  datatype Fan = Fan(data: seq<Byte>, todo: set<Id>, slow: set<Id>)

  /** How far the thread that opens the upstream has come; it gives up before opening, or drops what it opened. */
  datatype Start = Waiting | Spawned | Installed | Abandoned

  /** `stream` is all upstream output so far, `clients` every client ever attached, and `since` how much output there
      had been when it attached.  `start`, `releasing` and `descriptorOpen` follow the one terminal descriptor:
      spawned by the starting thread, installed in the broker as `masterFd`, and handed to `close`, which releases
      it. */
  datatype Broker = Broker(
    stream: seq<Byte>, history: seq<Byte>, clients: map<Id, Client>, since: map<Id, nat>, subscribers: set<Id>,
    graceTimer: bool, closed: bool, fan: Option<Fan>,
    start: Start, masterFd: bool, proc: bool, releasing: bool, descriptorOpen: bool)

  function NewBroker(): Broker {
    Broker([], [], map[], map[], {}, false, false, None, Waiting, false, false, false, false)
  }

  /** The last bytes that fit the history buffer. */
  function Tail(s: seq<Byte>): seq<Byte> {
    s[From(|s|)..]
  }

  /** What `close` does under the lock to an open broker. */
  function ShutDown(b: Broker): Broker {
    b.(closed := true, graceTimer := false, subscribers := {}, releasing := b.masterFd, masterFd := false, proc := false)
  }

  datatype Step =
    | FanBegin(data: seq<Byte>) | FanEnqueue(id: Id) | FanEnd
    | Attach(id: Id) | Acts(id: Id, act: Act) | Detach(id: Id)
    | GiveUp | Spawn | Install | Close | Release

  /** Which steps can happen.  `fan` being under way means that the broker lock is taken. */
  predicate Enabled(b: Broker, s: Step) {
    match s
    case FanBegin(_) => b.fan.None?
    case FanEnqueue(id) => b.fan.Some? && id in b.fan.value.todo && id in b.clients
    case FanEnd => b.fan.Some? && b.fan.value.todo == {}
    case Attach(id) => b.fan.None? && id !in b.clients
    case Acts(id, act) => id in b.clients && CanAct(b.clients[id], act)
    case Detach(id) => b.fan.None? && id in b.clients && b.clients[id].closed
    case GiveUp => b.start.Waiting?
    case Spawn => b.start.Waiting?
    case Install => b.fan.None? && b.start.Spawned?
    case Close => b.fan.None?
    case Release => b.releasing
  }

  function Next(b: Broker, s: Step): Broker
    requires Enabled(b, s)
  {
    match s
    case FanBegin(data) =>
      if b.closed then b
      else b.(stream := b.stream + data, history := Tail(b.history + data), fan := Some(Fan(data, b.subscribers, {})))
    case FanEnqueue(id) =>
      var (fan, r) := (b.fan.value, Enqueue(b.clients[id], b.fan.value.data));
      b.(clients := b.clients[id := r.0],
         fan := Some(Fan(fan.data, fan.todo - {id}, if r.1 then fan.slow else fan.slow + {id})))
    case FanEnd =>
      var slow := b.fan.value.slow;
      var left := b.subscribers - slow;
      b.(subscribers := left, graceTimer := b.graceTimer || (slow != {} && left == {}), fan := None)
    case Attach(id) =>
      if b.closed then b
      else
        var r := Enqueue(NEW_CLIENT, b.history);
        b.(graceTimer := false, clients := b.clients[id := r.0], since := b.since[id := |b.stream|],
           subscribers := if r.1 then b.subscribers + {id} else b.subscribers)
    case Acts(id, act) => b.(clients := b.clients[id := Acted(b.clients[id], act)])
    case Detach(id) =>
      var left := b.subscribers - {id};
      b.(subscribers := left, graceTimer := b.graceTimer || (!b.closed && left == {}))
    case GiveUp => b.(start := Abandoned)
    case Spawn => b.(start := Spawned, descriptorOpen := true)
    case Install =>
      if b.closed then b.(start := Abandoned, descriptorOpen := false)
      else b.(start := Installed, masterFd := true, proc := true)
    case Close =>
      if b.closed then b else ShutDown(b)
    case Release => b.(releasing := false, descriptorOpen := false)
  }

  ghost predicate Legal(b: Broker, steps: seq<Step>)
    decreases steps
  {
    steps == [] || (Enabled(b, steps[0]) && Legal(Next(b, steps[0]), steps[1..]))
  }

  ghost function After(b: Broker, steps: seq<Step>): Broker
    requires Legal(b, steps)
    decreases steps
  {
    if steps == [] then b else After(Next(b, steps[0]), steps[1..])
  }

  // ---- What every step keeps ----

  /** The queue holds data, and the sentinel at most once and last, exactly when `close` has put it there. */
  ghost predicate QueueOk(c: Client) {
    && (forall i :: 0 <= i < |c.queue| - 1 ==> c.queue[i].Chunk?)
    && (c.closed <==> c.ended || (c.queue != [] && c.queue[|c.queue| - 1].Stop?))
    && (c.ended && c.flight.None? ==> c.queue == [])
    && (c.flight.Some? ==> c.flight.value.sent <= |c.flight.value.data|)
  }

  /** The limit is respected and the counter is exact. */
  ghost predicate CountOk(c: Client) {
    c.queued == Uncounted(c) <= CLIENT_QUEUE_BYTES
  }

  ghost predicate ClientOk(c: Client, since: nat, stream: seq<Byte>) {
    && QueueOk(c) && CountOk(c)
    && since <= |stream| && Handed(c) <= stream[From(since)..]
  }

  /** The client has been handed the stream up to its end. */
  ghost predicate UpToDate(c: Client, since: nat, stream: seq<Byte>) {
    since <= |stream| && Handed(c) == stream[From(since)..]
  }

  ghost predicate ClientsOk(b: Broker) {
    && b.since.Keys == b.clients.Keys
    && forall id :: id in b.clients ==> ClientOk(b.clients[id], b.since[id], b.stream)
  }

  ghost predicate SubscribersOk(b: Broker) {
    && b.subscribers <= b.clients.Keys == b.since.Keys
    && b.history == Tail(b.stream)
    && match b.fan
       case None => forall id :: id in b.subscribers ==> UpToDate(b.clients[id], b.since[id], b.stream)
       case Some(fan) => FanOk(b, fan)
  }

  /** During a fan-out: the clients still to be served are up to date with the output before it, the others
      that were not too slow with all of it. */
  ghost predicate FanOk(b: Broker, fan: Fan)
    requires b.subscribers <= b.clients.Keys == b.since.Keys
  {
    && fan.todo <= b.subscribers && fan.slow <= b.subscribers && fan.todo !! fan.slow
    && |fan.data| <= |b.stream| && b.stream[|b.stream| - |fan.data|..] == fan.data
    && (forall id :: id in fan.todo ==> UpToDate(b.clients[id], b.since[id], b.stream[..|b.stream| - |fan.data|]))
    && (forall id :: id in b.subscribers && id !in fan.todo && id !in fan.slow ==> UpToDate(b.clients[id], b.since[id], b.stream))
  }

  /** While open: clients exclude the grace timer, and having lost them all implies it.  Once closed: nothing. */
  ghost predicate LifeOk(b: Broker) {
    && (b.subscribers != {} ==> !b.graceTimer)
    && (!b.closed && b.subscribers == {} && b.clients != map[] ==> b.graceTimer)
    && (b.closed ==> b.subscribers == {} && !b.graceTimer && !b.masterFd && !b.proc && b.fan.None?)
  }

  /** The terminal descriptor has exactly one owner while it is open. */
  ghost predicate DescriptorOk(b: Broker) {
    && (b.descriptorOpen <==> b.start.Spawned? || b.masterFd || b.releasing)
    && b.masterFd == b.proc && !(b.masterFd && b.releasing)
    && (b.masterFd || b.releasing ==> b.start.Installed?)
    && (b.releasing ==> b.closed)
  }

  ghost predicate Inv(b: Broker) {
    ClientsOk(b) && SubscribersOk(b) && LifeOk(b) && DescriptorOk(b)
  }

  lemma {:induction false} BytesAppend(a: seq<Item>, b: seq<Item>)
    ensures Bytes(a + b) == Bytes(a) + Bytes(b)
  {
    if a == [] {
      assert a + b == b;
    } else {
      assert (a + b)[1..] == a[1..] + b;
      BytesAppend(a[1..], b);
    }
  }

  lemma BytesOne(x: Item)
    ensures Bytes([x]) == if x.Chunk? then x.data else []
  {
    assert [x][1..] == [];
  }

  lemma ClosedKeeps(c: Client)
    ensures Handed(Closed(c)) == Handed(c) && Uncounted(Closed(c)) == Uncounted(c) && Closed(c).closed
  {
    BytesAppend(c.queue, [Stop]);
    BytesOne(Stop);
  }

  /** A client's own actions move bytes from the queue to the socket in order, and lose or repeat none. */
  lemma ActKeeps(c: Client, act: Act)
    requires QueueOk(c) && CountOk(c) && CanAct(c, act)
    ensures QueueOk(Acted(c, act)) && CountOk(Acted(c, act))
    ensures Handed(Acted(c, act)) == Handed(c) && (c.closed ==> Acted(c, act).closed)
    ensures Acted(c, act).delivered == Handed(c)[..|c.delivered| + if act.Send? then act.count else 0]
  {
    DeliveredIsPrefix(Acted(c, act));
    match act
    case HangUp => HangUpKeeps(c, act);
    case Take => TakeKeeps(c);
    case Send(count) => SendKeeps(c, count);
    case CountSent => CountKeeps(c);
    case SendFails => HangUpKeeps(c, act);
  }

  lemma DeliveredIsPrefix(c: Client)
    ensures c.delivered == Handed(c)[..|c.delivered|]
  {
  }

  lemma HangUpKeeps(c: Client, act: Act)
    requires QueueOk(c) && CountOk(c) && CanAct(c, act) && (act.HangUp? || act.SendFails?)
    ensures var r := Acted(c, act);
      QueueOk(r) && CountOk(r) && Handed(r) == Handed(c) && r.closed && r.delivered == c.delivered
  {
    ClosedKeeps(if act.HangUp? then c else c.(ended := true));
    hide Bytes;
  }

  lemma CountKeeps(c: Client)
    requires QueueOk(c) && CountOk(c) && CanAct(c, CountSent)
    ensures var r := Acted(c, CountSent);
      QueueOk(r) && CountOk(r) && Handed(r) == Handed(c) && r.closed == c.closed && r.delivered == c.delivered
  {
    assert Unsent(c.flight) == [];
    hide Bytes;
  }

  lemma TakeKeeps(c: Client)
    requires QueueOk(c) && CountOk(c) && CanAct(c, Take)
    ensures var r := Acted(c, Take);
      QueueOk(r) && CountOk(r) && Handed(r) == Handed(c) && (c.closed ==> r.closed) && r.delivered == c.delivered
  {
    var x := c.queue[0];
    if x.Chunk? {
      var r := Acted(c, Take);
      assert Unsent(r.flight) == x.data;
      assert Handed(c) == c.delivered + (x.data + Bytes(c.queue[1..])) by { assert Unsent(c.flight) == []; }
    } else {
      assert c.queue[1..] == [];
    }
  }

  lemma SendKeeps(c: Client, count: nat)
    requires QueueOk(c) && CountOk(c) && CanAct(c, Send(count))
    ensures var r := Acted(c, Send(count));
      QueueOk(r) && CountOk(r) && Handed(r) == Handed(c) && r.closed == c.closed && |r.delivered| == |c.delivered| + count
  {
    var f := c.flight.value;
    assert f.data[f.sent..] == f.data[f.sent..f.sent + count] + f.data[f.sent + count..];
  }

  /** The client is open and the data fits with all that is not counted as sent, or there is no data. */
  ghost predicate Room(c: Client, data: seq<Byte>) {
    data == [] || (!c.closed && Uncounted(c) + |data| <= 262144)
  }

  /** Queueing appends the data exactly if there is room for it within 256 KiB, and otherwise changes nothing. */
  lemma EnqueueKeeps(c: Client, data: seq<Byte>)
    requires QueueOk(c) && CountOk(c)
    ensures var r := Enqueue(c, data);
      && QueueOk(r.0) && CountOk(r.0) && (c.closed <==> r.0.closed)
      && (r.1 <==> Room(c, data)) && (!Room(c, data) ==> r.0 == c)
      && Handed(r.0) == (if Room(c, data) then Handed(c) + data else Handed(c))
  {
    if Enqueue(c, data).1 && data != [] {
      QueuedHanded(c, data);
      hide Bytes, Handed;
    }
  }

  lemma QueuedHanded(c: Client, data: seq<Byte>)
    ensures var r := c.(queue := c.queue + [Chunk(data)]);
      Handed(r) == Handed(c) + data && Uncounted(r) == Uncounted(c) + |data|
  {
    BytesAppend(c.queue, [Chunk(data)]);
    BytesOne(Chunk(data));
    hide Bytes;
  }

  /** More upstream output leaves what a client has been handed a piece of it. */
  lemma ClientOkLater(c: Client, since: nat, stream: seq<Byte>, data: seq<Byte>)
    requires ClientOk(c, since, stream)
    ensures ClientOk(c, since, stream + data)
  {
    assert (stream + data)[From(since)..] == stream[From(since)..] + data;
  }

  lemma TailExtends(stream: seq<Byte>, data: seq<Byte>)
    ensures Tail(Tail(stream) + data) == Tail(stream + data)
  {
    var s := stream + data;
    var t := Tail(stream) + data;
    assert t == s[From(|stream|)..];
    assert Tail(t) == s[From(|s|)..];
  }
}
