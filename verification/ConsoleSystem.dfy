/** The brokers of all containers together with their registry: when two terminals of a container can be open. */
module ConsoleSystem {
  import opened Wrappers
  import C = Console
  import S = ConsoleSafety
  import R = ConsoleRegistry

  type BrokerId = R.BrokerId
  type Container = R.Container

  datatype System = System(registry: R.Registry, brokers: map<BrokerId, C.Broker>)

  const EMPTY := System(R.EMPTY, map[])

  /** `Look` is one turn of `_get_console_broker`, which may make the broker `id`.  `Inside` is a step of one broker;
      when it is the close of an open one, the registry sees the flag from then on.  The rest are the ends of `close`:
      the telnet cleanup is over, the broker removes itself, and it signals. */
  datatype Step =
    | Look(container: Container, id: BrokerId)
    | Inside(id: BrokerId, step: C.Step)
    | CleanupEnds(id: BrokerId) | RemoveSelf(id: BrokerId) | SignalDone(id: BrokerId)

  /** The registry's part of a step, if it has one. */
  function Seen(w: System, s: Step): Option<R.Step>
    requires s.Inside? ==> s.id in w.brokers
  {
    match s
    case Look(container, id) => Some(R.Get(container, id))
    case Inside(id, step) => if step.Close? && !w.brokers[id].closed then Some(R.BeginClose(id)) else None
    case CleanupEnds(id) => Some(R.CleanupEnds(id))
    case RemoveSelf(id) => Some(R.RemoveSelf(id))
    case SignalDone(id) => Some(R.SignalDone(id))
  }

  /** `close` releases the terminal before the telnet cleanup. */
  predicate Enabled(w: System, s: Step) {
    && (s.Inside? ==> s.id in w.brokers && C.Enabled(w.brokers[s.id], s.step))
    && (s.CleanupEnds? ==> s.id in w.brokers && !w.brokers[s.id].releasing)
    && (Seen(w, s).Some? ==> R.Enabled(w.registry, Seen(w, s).value))
  }

  function Next(w: System, s: Step): System
    requires Enabled(w, s)
  {
    var registry := if Seen(w, s).Some? then R.Next(w.registry, Seen(w, s).value) else w.registry;
    var brokers :=
      match s
      case Look(container, id) => if container in w.registry.registered then w.brokers else w.brokers[id := C.NewBroker()]
      case Inside(id, step) => w.brokers[id := C.Next(w.brokers[id], step)]
      case _ => w.brokers;
    System(registry, brokers)
  }

  ghost predicate Legal(w: System, steps: seq<Step>)
    decreases steps
  {
    steps == [] || (Enabled(w, steps[0]) && Legal(Next(w, steps[0]), steps[1..]))
  }

  ghost function After(w: System, steps: seq<Step>): System
    requires Legal(w, steps)
    decreases steps
  {
    if steps == [] then w else After(Next(w, steps[0]), steps[1..])
  }

  // ---- What every step keeps ----

  /** The two views of a broker's life agree: the flag, and the release of the terminal before the cleanup ends. */
  ghost predicate Fits(e: R.Entry, b: C.Broker) {
    && (b.closed <==> !e.stage.Open?)
    && (e.stage.Cleaned? || e.stage.Removed? || e.stage.Finished? ==> !b.releasing)
  }

  ghost predicate Inv(w: System) {
    && R.Inv(w.registry) && w.registry.brokers.Keys == w.brokers.Keys
    && (forall id :: id in w.brokers ==> C.Inv(w.brokers[id]) && Fits(w.registry.brokers[id], w.brokers[id]))
  }

  /** What a broker's own step does to the two flags. */
  lemma InsideFits(b: C.Broker, step: C.Step, e: R.Entry)
    requires C.Inv(b) && C.Enabled(b, step) && Fits(e, b)
    ensures var after := C.Next(b, step);
      && C.Inv(after)
      && Fits(if step.Close? && !b.closed then e.(stage := R.Closing) else e, after)
  {
    hide C.Inv, C.Next, C.Enabled;
    S.StepKeeps(b, step);
    InsideFlags(b, step);
  }

  lemma InsideFlags(b: C.Broker, step: C.Step)
    requires C.Enabled(b, step)
    ensures var after := C.Next(b, step);
      && (after.closed <==> b.closed || step.Close?)
      && (after.releasing ==> b.releasing || (step.Close? && !b.closed))
  {
    hide C.Enqueue, C.Acted, C.CanAct, C.Tail;
    match step
    case Close =>
    case Release =>
    case Install =>
    case Attach(_) =>
    case FanEnqueue(_) =>
    case FanEnd =>
    case _ =>
  }

  lemma RegistryKeeps(w: System, s: Step)
    requires Inv(w) && Enabled(w, s)
    ensures R.Inv(Next(w, s).registry)
  {
    hide C.Inv, R.Inv, R.Next, R.Enabled, C.Next, C.Enabled, Fits, C.NewBroker;
    if Seen(w, s).Some? {
      R.StepKeeps(w.registry, Seen(w, s).value);
    }
  }

  lemma KeysKeep(w: System, s: Step)
    requires Inv(w) && Enabled(w, s)
    ensures Next(w, s).registry.brokers.Keys == Next(w, s).brokers.Keys
  {
    hide C.Inv, R.Inv, C.Next, C.Enabled, Fits, C.NewBroker;
  }

  lemma BrokerKeeps(w: System, s: Step, id: BrokerId)
    requires Inv(w) && Enabled(w, s) && id in Next(w, s).brokers && id in Next(w, s).registry.brokers
    ensures C.Inv(Next(w, s).brokers[id]) && Fits(Next(w, s).registry.brokers[id], Next(w, s).brokers[id])
  {
    hide C.Inv, R.Inv, C.Next, C.Enabled;
    if s.Inside? {
      InsideFits(w.brokers[s.id], s.step, w.registry.brokers[s.id]);
    } else if s.Look? {
      S.NewBrokerOk();
    }
  }

  lemma StepKeeps(w: System, s: Step)
    requires Inv(w) && Enabled(w, s)
    ensures Inv(Next(w, s))
  {
    hide Enabled, Next, C.Inv, R.Inv, Fits;
    RegistryKeeps(w, s);
    KeysKeep(w, s);
    forall id | id in Next(w, s).brokers
      ensures C.Inv(Next(w, s).brokers[id]) && Fits(Next(w, s).registry.brokers[id], Next(w, s).brokers[id])
    {
      BrokerKeeps(w, s, id);
    }
  }

  lemma {:induction false} RunKeeps(w: System, steps: seq<Step>)
    requires Inv(w) && Legal(w, steps)
    ensures Inv(After(w, steps))
    decreases steps
  {
    hide Inv, Next, Enabled;
    if steps != [] {
      StepKeeps(w, steps[0]);
      RunKeeps(Next(w, steps[0]), steps[1..]);
    }
  }

  lemma Reachable(steps: seq<Step>)
    requires Legal(EMPTY, steps)
    ensures Inv(After(EMPTY, steps))
  {
    RunKeeps(EMPTY, steps);
  }

  // ---- Terminals of one container ----

  /** Two different brokers of one container. */
  ghost predicate Siblings(w: System, a: BrokerId, b: BrokerId) {
    && a != b && a in w.brokers && b in w.brokers && a in w.registry.brokers && b in w.registry.brokers
    && w.registry.brokers[a].container == w.registry.brokers[b].container
  }

  ghost predicate BothOpen(w: System, a: BrokerId, b: BrokerId) {
    Siblings(w, a, b) && w.brokers[a].descriptorOpen && w.brokers[b].descriptorOpen
  }

  /** The broker has or is releasing a terminal that its starting thread installed. */
  predicate Serving(b: C.Broker) {
    b.masterFd || b.releasing
  }

  /** The starting thread neither holds a terminal nor can open one any more. */
  predicate Settled(b: C.Broker) {
    b.start.Installed? || b.start.Abandoned?
  }

  /** The cleanup of the broker is over, but its start is in flight with a terminal of its own. */
  ghost predicate Stale(w: System, id: BrokerId)
    requires id in w.brokers && id in w.registry.brokers
  {
    !R.Unfinished(w.registry.brokers[id]) && w.brokers[id].start.Spawned?
  }

  /** In every reachable state at most one broker of a container has an installed terminal; and if the terminals of
      two are open, one of them is that of a start still in flight in a broker whose cleanup is over. */
  lemma OneServingTerminal(steps: seq<Step>, a: BrokerId, b: BrokerId)
    requires Legal(EMPTY, steps) && Siblings(After(EMPTY, steps), a, b)
    ensures var w := After(EMPTY, steps);
      && !(Serving(w.brokers[a]) && Serving(w.brokers[b]))
      && (BothOpen(w, a, b) ==> Stale(w, a) || Stale(w, b))
  {
    Reachable(steps);
    hide Legal, After, C.ClientsOk, C.SubscribersOk;
  }

  /** Every cleanup of the run ends only when the broker's start is settled. */
  ghost predicate Patient(w: System, steps: seq<Step>)
    requires Legal(w, steps)
    decreases steps
  {
    steps != [] ==>
      (steps[0].CleanupEnds? ==> Settled(w.brokers[steps[0].id])) && Patient(Next(w, steps[0]), steps[1..])
  }

  /** The broker is open or its cleanup has not ended yet. */
  predicate InUse(e: R.Entry) {
    e.stage.Open? || e.stage.Closing?
  }

  /** After a cleanup has ended, the start is settled. */
  ghost predicate Quiet(w: System) {
    forall id :: id in w.brokers && id in w.registry.brokers && !InUse(w.registry.brokers[id]) ==> Settled(w.brokers[id])
  }

  lemma QuietStep(w: System, s: Step)
    requires Inv(w) && Quiet(w) && Enabled(w, s) && (s.CleanupEnds? ==> Settled(w.brokers[s.id]))
    ensures Quiet(Next(w, s))
  {
    hide C.Inv, R.Inv, C.NewBroker;
    if s.Inside? {
      SettledStays(w.brokers[s.id], s.step);
    }
    hide C.Next, C.Enabled;
  }

  lemma SettledStays(b: C.Broker, step: C.Step)
    requires C.Enabled(b, step)
    ensures Settled(b) ==> Settled(C.Next(b, step))
  {
  }

  lemma {:induction false} PatientRuns(w: System, steps: seq<Step>)
    requires Inv(w) && Quiet(w) && Legal(w, steps) && Patient(w, steps)
    ensures Inv(After(w, steps)) && Quiet(After(w, steps))
    decreases steps
  {
    hide Inv, Quiet, Next, Enabled;
    if steps != [] {
      StepKeeps(w, steps[0]);
      QuietStep(w, steps[0]);
      PatientRuns(Next(w, steps[0]), steps[1..]);
    }
  }

  /** If every cleanup ended with the start settled, no two terminals of a container are ever open together. */
  lemma OneOpenTerminal(steps: seq<Step>, a: BrokerId, b: BrokerId)
    requires Legal(EMPTY, steps) && Patient(EMPTY, steps)
    ensures !BothOpen(After(EMPTY, steps), a, b)
  {
    assert Inv(EMPTY) && Quiet(EMPTY);
    hide *;
    PatientRuns(EMPTY, steps);
    QuietIsAlone(After(EMPTY, steps), a, b);
  }

  lemma QuietIsAlone(w: System, a: BrokerId, b: BrokerId)
    requires Inv(w) && Quiet(w)
    ensures !BothOpen(w, a, b)
  {
    hide C.ClientsOk, C.SubscribersOk;
  }

  /** And once a cleanup has ended otherwise, and the broker is out of the registry, the next broker made for the
      container can have its terminal open together with the old one's. */
  lemma LateStartOverlaps(steps: seq<Step>, id: BrokerId, next: BrokerId)
    requires Legal(EMPTY, steps) && LeftBehind(After(EMPTY, steps), id) && next !in After(EMPTY, steps).registry.brokers
    ensures exists more :: Legal(After(EMPTY, steps), more) && BothOpen(After(After(EMPTY, steps), more), id, next)
  {
    hide *;
    Reachable(steps);
    LeftBehindOverlaps(After(EMPTY, steps), id, next);
  }

  lemma LeftBehindOverlaps(w: System, id: BrokerId, next: BrokerId)
    requires Inv(w) && LeftBehind(w, id) && next !in w.registry.brokers
    ensures exists more :: Legal(w, more) && BothOpen(After(w, more), id, next)
  {
    hide Legal, After, Next, Enabled, Inv, BothOpen;
    if w.brokers[id].start.Waiting? {
      var late := Inside(id, C.Spawn);
      SpawnStep(w, id);
      StepKeeps(w, late);
      var more := NextBrokerOverlaps(Next(w, late), id, next);
      hide *;
      Before(w, late, more);
    } else {
      var more := NextBrokerOverlaps(w, id, next);
    }
  }

  /** The broker has removed itself while its start is still going, and no other has taken its place. */
  ghost predicate LeftBehind(w: System, id: BrokerId) {
    && id in w.brokers && id in w.registry.brokers && !Settled(w.brokers[id])
    && w.registry.brokers[id].container !in w.registry.registered
  }

  lemma SpawnStep(w: System, id: BrokerId)
    requires id in w.brokers && w.brokers[id].start.Waiting?
    ensures Enabled(w, Inside(id, C.Spawn))
    ensures Next(w, Inside(id, C.Spawn)) ==
      w.(brokers := w.brokers[id := w.brokers[id].(start := C.Spawned, descriptorOpen := true)])
  {
  }

  lemma LookStep(w: System, container: Container, id: BrokerId)
    requires container !in w.registry.registered && id !in w.registry.brokers
    ensures Enabled(w, Look(container, id))
    ensures var r := w.registry;
      Next(w, Look(container, id)) == System(
        R.Registry(r.registered[container := id], r.brokers[id := R.Entry(container, R.Open)]), w.brokers[id := C.NewBroker()])
    ensures C.NewBroker().start.Waiting?
  {
  }

  lemma OpenWhenSpawned(w: System, id: BrokerId)
    requires Inv(w) && id in w.brokers && w.brokers[id].start.Spawned?
    ensures w.brokers[id].descriptorOpen
  {
  }

  lemma NextBrokerOverlaps(w: System, id: BrokerId, next: BrokerId) returns (more: seq<Step>)
    requires Inv(w) && LeftBehind(w, id) && next !in w.registry.brokers && w.brokers[id].start.Spawned?
    ensures Legal(w, more) && BothOpen(After(w, more), id, next)
  {
    var look, spawn := Look(w.registry.brokers[id].container, next), Inside(next, C.Spawn);
    NextBrokerOpens(w, id, next);
    hide *;
    var w' := Next(w, look);
    Before(w', spawn, []);
    Before(w, look, [spawn] + []);
    Ends(Next(w', spawn));
    more := [look] + ([spawn] + []);
  }

  lemma NextBrokerOpens(w: System, id: BrokerId, next: BrokerId)
    requires Inv(w) && LeftBehind(w, id) && next !in w.registry.brokers && w.brokers[id].start.Spawned?
    ensures var look, spawn := Look(w.registry.brokers[id].container, next), Inside(next, C.Spawn);
      && Enabled(w, look) && Enabled(Next(w, look), spawn) && BothOpen(Next(Next(w, look), spawn), id, next)
  {
    hide Next, Enabled, Inv, C.NewBroker;
    var look := Look(w.registry.brokers[id].container, next);
    OpenWhenSpawned(w, id);
    LookStep(w, look.container, next);
    SpawnStep(Next(w, look), next);
  }

  lemma Ends(w: System)
    ensures Legal(w, []) && After(w, []) == w
  {
  }

  lemma Before(w: System, s: Step, rest: seq<Step>)
    requires Enabled(w, s)
    ensures Legal(w, [s] + rest) <==> Legal(Next(w, s), rest)
    ensures Legal(w, [s] + rest) ==> After(w, [s] + rest) == After(Next(w, s), rest)
  {
    hide Next, Enabled;
    assert ([s] + rest)[1..] == rest;
  }

  /** Such a broker is reached: it is closed between the opening of its terminal and its installation. */
  lemma LeftBehindHappens(container: Container)
    ensures var steps := [Look(container, 0), Inside(0, C.Spawn), Inside(0, C.Close), CleanupEnds(0), RemoveSelf(0)];
      Legal(EMPTY, steps) && LeftBehind(After(EMPTY, steps), 0) && 1 !in After(EMPTY, steps).registry.brokers
  {
    var s0, s1, s2, s3, s4 := Look(container, 0), Inside(0, C.Spawn), Inside(0, C.Close), CleanupEnds(0), RemoveSelf(0);
    var w1 := Next(EMPTY, s0);
    var w2 := Next(w1, s1);
    var w3 := Next(w2, s2);
    var w4 := Next(w3, s3);
    var w5 := Next(w4, s4);
    assert LeftBehind(w5, 0) && 1 !in w5.registry.brokers;
    hide *;
    Ends(w5);
    Before(w4, s4, []);
    Before(w3, s3, [s4] + []);
    Before(w2, s2, [s3] + ([s4] + []));
    Before(w1, s1, [s2] + ([s3] + ([s4] + [])));
    Before(EMPTY, s0, [s1] + ([s2] + ([s3] + ([s4] + []))));
    assert [s0] + ([s1] + ([s2] + ([s3] + ([s4] + [])))) == [s0, s1, s2, s3, s4];
  }
}
