/** The registry of one console broker per container (`_get_console_broker`, `_remove_console_broker`). */
module ConsoleRegistry {
  import opened Wrappers

  type Container = string
  type BrokerId = nat

  /** A broker's life as the registry sees it: open; `close` has set the flag and telnet cleanup is under way;
      that cleanup has ended; the broker has removed itself; and it has signalled `_cleanup_done`. */
  datatype Stage = Open | Closing | Cleaned | Removed | Finished

  datatype Entry = Entry(container: Container, stage: Stage)

  /** `registered` is `_CONSOLE_BROKERS`; `brokers` is every broker ever made. */
  datatype Registry = Registry(registered: map<Container, BrokerId>, brokers: map<BrokerId, Entry>)

  const EMPTY := Registry(map[], map[])

  /** `Get` is one turn of the loop of `_get_console_broker`; `id` names the broker it makes, if it makes one. */
  datatype Step =
    | Get(container: Container, id: BrokerId)
    | BeginClose(id: BrokerId) | CleanupEnds(id: BrokerId) | RemoveSelf(id: BrokerId) | SignalDone(id: BrokerId)

  predicate Enabled(r: Registry, s: Step) {
    match s
    case Get(_, id) => id !in r.brokers
    case BeginClose(id) => id in r.brokers && r.brokers[id].stage.Open?
    case CleanupEnds(id) => id in r.brokers && r.brokers[id].stage.Closing?
    case RemoveSelf(id) => id in r.brokers && r.brokers[id].stage.Cleaned?
    case SignalDone(id) => id in r.brokers && r.brokers[id].stage.Removed?
  }

  /** `_remove_console_broker`: the entry goes only if it is this very broker. */
  function Unregister(registered: map<Container, BrokerId>, container: Container, id: BrokerId): map<Container, BrokerId> {
    if container in registered && registered[container] == id then registered - {container} else registered
  }

  function AtStage(r: Registry, id: BrokerId, stage: Stage): Registry
    requires id in r.brokers
  {
    r.(brokers := r.brokers[id := r.brokers[id].(stage := stage)])
  }

  function Next(r: Registry, s: Step): Registry
    requires Enabled(r, s)
  {
    match s
    case Get(container, id) =>
      if container in r.registered then r
      else Registry(r.registered[container := id], r.brokers[id := Entry(container, Open)])
    case BeginClose(id) => AtStage(r, id, Closing)
    case CleanupEnds(id) => AtStage(r, id, Cleaned)
    case RemoveSelf(id) => AtStage(r.(registered := Unregister(r.registered, r.brokers[id].container, id)), id, Removed)
    case SignalDone(id) => AtStage(r, id, Finished)
  }

  ghost predicate Legal(r: Registry, steps: seq<Step>)
    decreases steps
  {
    steps == [] || (Enabled(r, steps[0]) && Legal(Next(r, steps[0]), steps[1..]))
  }

  ghost function After(r: Registry, steps: seq<Step>): Registry
    requires Legal(r, steps)
    decreases steps
  {
    if steps == [] then r else After(Next(r, steps[0]), steps[1..])
  }

  /** The broker may still be serving, or its cleanup may still be killing processes. */
  predicate Unfinished(e: Entry) {
    e.stage.Open? || e.stage.Closing? || e.stage.Cleaned?
  }

  /** Registered is the same as unfinished. */
  ghost predicate Inv(r: Registry) {
    && (forall c :: c in r.registered ==> r.registered[c] in r.brokers && r.brokers[r.registered[c]].container == c)
    && (forall id :: id in r.brokers ==>
          (Unfinished(r.brokers[id]) <==>
             r.brokers[id].container in r.registered && r.registered[r.brokers[id].container] == id))
  }

  lemma StepKeeps(r: Registry, s: Step)
    requires Inv(r) && Enabled(r, s)
    ensures Inv(Next(r, s))
  {
  }

  lemma {:induction false} RunKeeps(r: Registry, steps: seq<Step>)
    requires Inv(r) && Legal(r, steps)
    ensures Inv(After(r, steps))
    decreases steps
  {
    if steps != [] {
      StepKeeps(r, steps[0]);
      RunKeeps(Next(r, steps[0]), steps[1..]);
    }
  }

  /** In every reachable state at most one broker of a container is unfinished, and the registry names it. */
  lemma OneUnfinishedBroker(steps: seq<Step>, a: BrokerId, b: BrokerId)
    requires Legal(EMPTY, steps)
    requires var r := After(EMPTY, steps); a in r.brokers && b in r.brokers && r.brokers[a].container == r.brokers[b].container
    requires var r := After(EMPTY, steps); Unfinished(r.brokers[a]) && Unfinished(r.brokers[b])
    ensures a == b
  {
    RunKeeps(EMPTY, steps);
  }

  /** A broker is made only when the cleanup of every earlier broker of its container has ended and those
      brokers have removed themselves; until then the asking thread waits. */
  lemma ReplacementWaits(steps: seq<Step>, container: Container, id: BrokerId, earlier: BrokerId)
    requires Legal(EMPTY, steps) && Enabled(After(EMPTY, steps), Get(container, id))
    requires id in Next(After(EMPTY, steps), Get(container, id)).brokers
    requires earlier in After(EMPTY, steps).brokers && After(EMPTY, steps).brokers[earlier].container == container
    ensures !Unfinished(After(EMPTY, steps).brokers[earlier])
  {
    RunKeeps(EMPTY, steps);
  }

  /** However late a broker removes itself, it finds its own entry and takes away no other broker's; and by the
      time it signals, a waiting thread that looks again no longer finds it. */
  lemma RemovalIsExact(steps: seq<Step>, id: BrokerId, other: BrokerId)
    requires Legal(EMPTY, steps)
    ensures var r := After(EMPTY, steps);
      && (Enabled(r, RemoveSelf(id)) ==>
           var e := Next(r, RemoveSelf(id));
           && r.brokers[id].container in r.registered && r.registered[r.brokers[id].container] == id
           && r.brokers[id].container !in e.registered
           && forall c :: c != r.brokers[id].container ==>
                (c in e.registered <==> c in r.registered) && (c in r.registered ==> e.registered[c] == r.registered[c]))
      && (other in r.brokers && r.brokers[other].stage.Finished? ==> forall c :: c in r.registered ==> r.registered[c] != other)
  {
    RunKeeps(EMPTY, steps);
  }

  /** The registry dictionary as the two functions update it. */
  class BrokerRegistry {
    var registered: map<Container, BrokerId>
    var brokers: map<BrokerId, Entry>

    function View(): Registry
      reads this
    {
      Registry(registered, brokers)
    }

    /** One turn of `_get_console_broker` under the registry lock: the broker, or `None` to wait and look again. */
    method Get(container: Container, id: BrokerId) returns (found: Option<BrokerId>)
      requires Inv(View()) && Enabled(View(), Step.Get(container, id))
      modifies this
      ensures Inv(View()) && View() == Next(old(View()), Step.Get(container, id))
      ensures found.Some? ==> found.value in brokers && brokers[found.value] == Entry(container, Open)
      ensures found.None? ==> container in registered && !brokers[registered[container]].stage.Open?
    {
      StepKeeps(View(), Step.Get(container, id));
      if container !in registered {
        registered := registered[container := id];
        brokers := brokers[id := Entry(container, Open)];
      }
      var broker := registered[container];
      if brokers[broker].stage.Open? {
        return Some(broker);
      }
      return None;
    }

    method Remove(id: BrokerId)
      requires Inv(View()) && Enabled(View(), RemoveSelf(id))
      modifies this
      ensures Inv(View()) && View() == Next(old(View()), RemoveSelf(id))
    {
      StepKeeps(View(), RemoveSelf(id));
      var container := brokers[id].container;
      if container in registered && registered[container] == id {
        registered := registered - {container};
      }
      brokers := brokers[id := brokers[id].(stage := Removed)];
    }
  }
}
