/** The deployment state that the device lifecycle keeps (models/state.py), and when its indexes agree. */
module LifecycleState {
  import opened Wrappers
  import opened Ordering
  import opened Selection

  type Node = string
  type Host = string
  type Port = nat
  type Ref = nat

  datatype Phase = Queued | Starting | Reconciling | Running | Stopping | Cancelling | Stopped | Error

  /** A phase that an operation passes through; `queued` is set outside the controller. */
  predicate Transient(p: Phase) {
    p.Starting? || p.Reconciling? || p.Stopping? || p.Cancelling?
  }

  /** `perVd`: the container name carries the prefix of a per-device deployment. */
  datatype Runtime = Runtime(phase: Phase, host: Host, perVd: bool, lastError: string)

  datatype Schedule = Schedule(address: string, vd: seq<Node>, cpu: nat, ram: nat)

  datatype WebUi = WebUi(containerPort: int, hostPort: Port)

  datatype LinkStatus = Down | Up | Partial | Faulty

  datatype Link = Link(ends: set<Node>, status: LinkStatus, lastError: string)

  /** `order` is the insertion order of the runtime table; `links` refers to link records, which are shared. */
  datatype State = State(
    deployed: bool, perVd: bool,
    runtime: map<Node, Runtime>, order: seq<Node>,
    links: seq<Ref>,
    reservations: map<Node, string>,
    scheduling: map<Host, Schedule>,
    webui: map<Node, seq<WebUi>>,
    anchors: set<Host>)

  type Records = map<Ref, Link>

  // ---- Agreement of the indexes ----

  /** The devices whose runtime names the host, in table order. */
  function DevicesOn(order: seq<Node>, runtime: map<Node, Runtime>, h: Host): (r: seq<Node>) {
    if order == [] then []
    else (if order[0] in runtime && runtime[order[0]].host == h then [order[0]] else []) + DevicesOn(order[1..], runtime, h)
  }

  ghost predicate TableOk(s: State) {
    Distinct(s.order) && forall n :: n in s.order <==> n in s.runtime
  }

  /** The host's schedule and anchor exist exactly if devices run there, and the schedule lists exactly those. */
  ghost predicate HostAgrees(s: State, h: Host) {
    var devices := DevicesOn(s.order, s.runtime, h);
    && (h in s.scheduling <==> devices != [])
    && (h in s.scheduling ==> s.scheduling[h].vd == devices)
    && (h in s.anchors <==> devices != [])
  }

  ghost predicate HostsAgree(s: State) {
    forall h :: HostAgrees(s, h)
  }

  ghost predicate PortsDistinct(webui: map<Node, seq<WebUi>>) {
    forall n, i, m, j :: n in webui && m in webui && 0 <= i < |webui[n]| && 0 <= j < |webui[m]| && (n, i) != (m, j) ==>
      webui[n][i].hostPort != webui[m][j].hostPort
  }

  ghost predicate Agree(s: State) {
    && TableOk(s) && HostsAgree(s)
    && s.webui.Keys <= s.runtime.Keys
    && PortsDistinct(s.webui)
  }

  /** No device is in a phase that an operation passes through. */
  ghost predicate Settled(s: State) {
    forall n :: n in s.runtime ==> !Transient(s.runtime[n].phase)
  }

  // ---- How devices are listed ----

  lemma {:induction false} DevicesMember(order: seq<Node>, runtime: map<Node, Runtime>, h: Host, n: Node)
    ensures n in DevicesOn(order, runtime, h) <==> n in order && n in runtime && runtime[n].host == h
  {
    if order != [] {
      DevicesMember(order[1..], runtime, h, n);
    }
  }

  lemma {:induction false} DevicesAppend(order: seq<Node>, more: seq<Node>, runtime: map<Node, Runtime>, h: Host)
    ensures DevicesOn(order + more, runtime, h) == DevicesOn(order, runtime, h) + DevicesOn(more, runtime, h)
  {
    if order == [] {
      assert order + more == more;
    } else {
      assert (order + more)[1..] == order[1..] + more;
      DevicesAppend(order[1..], more, runtime, h);
    }
  }

  ghost predicate SameHosts(order: seq<Node>, a: map<Node, Runtime>, b: map<Node, Runtime>) {
    forall n :: n in order ==> (n in a <==> n in b) && (n in a ==> a[n].host == b[n].host)
  }

  /** Only the hosts of the listed devices matter. */
  lemma {:induction false} DevicesSame(order: seq<Node>, a: map<Node, Runtime>, b: map<Node, Runtime>, h: Host)
    requires SameHosts(order, a, b)
    ensures DevicesOn(order, a, h) == DevicesOn(order, b, h)
  {
    if order != [] {
      DevicesSame(order[1..], a, b, h);
    }
  }

  lemma DevicesCons(m: Node, order: seq<Node>, runtime: map<Node, Runtime>, h: Host)
    ensures DevicesOn([m] + order, runtime, h) ==
      if m in runtime && runtime[m].host == h then [m] + DevicesOn(order, runtime, h) else DevicesOn(order, runtime, h)
  {
    assert ([m] + order)[1..] == order;
  }

  /** Leaving a device out of the table leaves it out of the listing. */
  lemma {:induction false} DevicesWithout(order: seq<Node>, runtime: map<Node, Runtime>, h: Host, n: Node)
    ensures DevicesOn(Without(order, n), runtime - {n}, h) == Without(DevicesOn(order, runtime, h), n)
  {
    if order != [] {
      var m, tail := order[0], order[1..];
      DevicesWithout(tail, runtime, h, n);
      assert order == [m] + tail;
      WithoutCons(m, tail, n);
      WithoutCons(m, DevicesOn(tail, runtime, h), n);
      DevicesCons(m, tail, runtime, h);
      DevicesCons(m, Without(tail, n), runtime - {n}, h);
      assert [] + Without(tail, n) == Without(tail, n);
      assert [] + Without(DevicesOn(tail, runtime, h), n) == Without(DevicesOn(tail, runtime, h), n);
    }
  }

  // ---- Changes that keep the agreement ----

  /** Changing phases and error texts disturbs no index. */
  lemma PhaseKeepsAgree(s: State, s': State)
    requires Agree(s)
    requires s' == s.(runtime := s'.runtime, links := s'.links, reservations := s'.reservations)
    requires s'.runtime.Keys == s.runtime.Keys && forall n :: n in s.runtime ==> s'.runtime[n].host == s.runtime[n].host
    ensures Agree(s')
  {
    forall h ensures HostAgrees(s', h) {
      assert HostAgrees(s, h);
      DevicesSame(s.order, s.runtime, s'.runtime, h);
    }
  }

  /** The table with one more device, at the end. */
  function Added(s: State, n: Node, r: Runtime): State {
    s.(runtime := s.runtime[n := r], order := s.order + [n])
  }

  lemma AddedDevices(s: State, n: Node, r: Runtime, h: Host)
    requires TableOk(s) && n !in s.runtime
    ensures DevicesOn(Added(s, n, r).order, Added(s, n, r).runtime, h) ==
              DevicesOn(s.order, s.runtime, h) + (if h == r.host then [n] else [])
  {
    var s' := Added(s, n, r);
    DevicesAppend(s.order, [n], s'.runtime, h);
    DevicesSame(s.order, s.runtime, s'.runtime, h);
    assert [n][1..] == [];
  }

  // ---- The schedule plan ----

  datatype Assignment = Assignment(vd: seq<Node>, cpu: nat, ram: nat)

  type Plan = map<Host, Assignment>

  /** `_runtime_plan`: what runs where now, with the totals the schedule remembers. */
  function RuntimePlan(hosts: seq<Host>, s: State): Plan {
    map h | h in hosts :: Assignment(DevicesOn(s.order, s.runtime, h),
                                     if h in s.scheduling then s.scheduling[h].cpu else 0,
                                     if h in s.scheduling then s.scheduling[h].ram else 0)
  }

  /** `_plan_with_added_node`. */
  function PlanWith(plan: Plan, n: Node, h: Host, cpu: nat, ram: nat): Plan
    requires h in plan
  {
    plan[h := Assignment(plan[h].vd + [n], plan[h].cpu + cpu, plan[h].ram + ram)]
  }

  /** `_update_scheduling` over the hosts in turn. */
  function Rescheduled(scheduling: map<Host, Schedule>, plan: Plan, addresses: Host -> string, hosts: seq<Host>): map<Host, Schedule>
    requires forall h :: h in hosts ==> h in plan
  {
    if hosts == [] then scheduling
    else
      var last := hosts[|hosts| - 1];
      var before := Rescheduled(scheduling, plan, addresses, hosts[..|hosts| - 1]);
      if plan[last].vd == [] then before - {last}
      else before[last := Schedule(addresses(last), plan[last].vd, plan[last].cpu, plan[last].ram)]
  }

  lemma {:induction false} RescheduledAt(scheduling: map<Host, Schedule>, plan: Plan, addresses: Host -> string, hosts: seq<Host>, h: Host)
    requires forall h :: h in hosts ==> h in plan
    ensures var r := Rescheduled(scheduling, plan, addresses, hosts);
      if h in hosts
      then (h in r <==> plan[h].vd != [])
           && (h in r ==> r[h] == Schedule(addresses(h), plan[h].vd, plan[h].cpu, plan[h].ram))
      else (h in r <==> h in scheduling) && (h in r ==> r[h] == scheduling[h])
  {
    if hosts != [] {
      RescheduledAt(scheduling, plan, addresses, hosts[..|hosts| - 1], h);
      assert hosts == hosts[..|hosts| - 1] + [hosts[|hosts| - 1]];
    }
  }

  /** A device added on a host of the topology, with the schedule and the anchor that go with it, agrees again. */
  lemma AddKeepsAgree(s: State, hosts: seq<Host>, n: Node, r: Runtime, cpu: nat, ram: nat, addresses: Host -> string, s': State)
    requires Agree(s) && n !in s.runtime && r.host in hosts
    requires s'.runtime == Added(s, n, r).runtime && s'.order == Added(s, n, r).order
    requires var plan := PlanWith(RuntimePlan(hosts, s), n, r.host, cpu, ram);
      s'.scheduling == Rescheduled(s.scheduling, plan, addresses, hosts)
    requires s'.anchors == s.anchors + {r.host}
    requires s'.webui.Keys <= s.webui.Keys + {n} && PortsDistinct(s'.webui)
    ensures Agree(s')
  {
    var plan := PlanWith(RuntimePlan(hosts, s), n, r.host, cpu, ram);
    forall h ensures HostAgrees(s', h) {
      assert HostAgrees(s, h);
      AddedDevices(s, n, r, h);
      RescheduledAt(s.scheduling, plan, addresses, hosts, h);
    }
    assert TableOk(s');
  }

  /** What `remove` leaves of the indexes. */
  function Dropped(s: State, n: Node): State
    requires n in s.runtime
  {
    var h := s.runtime[n].host;
    var left := if h in s.scheduling then Without(s.scheduling[h].vd, n) else [];
    var runtime := s.runtime - {n};
    s.(runtime := runtime, order := Without(s.order, n), webui := s.webui - {n},
       scheduling := if h !in s.scheduling then s.scheduling
                     else if left == [] then s.scheduling - {h}
                     else s.scheduling[h := s.scheduling[h].(vd := left)],
       anchors := if exists m | m in runtime :: runtime[m].host == h then s.anchors else s.anchors - {h})
  }

  /** The device is gone from the table, the web ports and the schedule of its host, which goes with its last device;
      every other host and everything else is as before. */
  ghost predicate TakenOut(s: State, s': State, n: Node) {
    n in s.runtime &&
    var home := s.runtime[n].host;
    && s'.deployed == s.deployed && s'.perVd == s.perVd && s'.reservations == s.reservations
    && s'.runtime == s.runtime - {n} && s'.order == Others(s.order, n) && s'.webui == s.webui - {n}
    && (forall h :: h != home ==> SameSchedule(s, s', h) && (h in s'.anchors <==> h in s.anchors))
    && (home in s'.scheduling <==> home in s.scheduling && Others(s.scheduling[home].vd, n) != [])
    && (home in s'.scheduling ==> s'.scheduling[home] == s.scheduling[home].(vd := Others(s.scheduling[home].vd, n)))
  }

  ghost predicate SameSchedule(s: State, s': State, h: Host) {
    (h in s'.scheduling <==> h in s.scheduling) && (h in s.scheduling ==> s'.scheduling[h] == s.scheduling[h])
  }

  ghost function Others(xs: seq<Node>, n: Node): seq<Node> {
    Filter(xs, m => m != n)
  }

  lemma DroppedIsTakenOut(s: State, n: Node, links: seq<Ref>)
    requires n in s.runtime
    ensures TakenOut(s, Dropped(s.(links := links), n), n)
  {
    WithoutIsOthers(s.order, n);
    var h, s1, s' := s.runtime[n].host, s.(links := links), Dropped(s.(links := links), n);
    if h in s.scheduling {
      WithoutIsOthers(s.scheduling[h].vd, n);
    }
    hide Without, Others;
    forall g | g != h ensures SameSchedule(s, s', g) && (g in s'.anchors <==> g in s.anchors) {
      DroppedElsewhere(s1, n, g);
    }
  }

  lemma {:induction false} WithoutIsOthers(xs: seq<Node>, n: Node)
    ensures Without(xs, n) == Others(xs, n)
  {
    if xs != [] {
      WithoutIsOthers(xs[1..], n);
      FilterCons(xs[0], xs[1..], m => m != n);
      assert [xs[0]] + xs[1..] == xs;
    }
  }

  lemma DistinctCons(x: Node, xs: seq<Node>)
    requires Distinct(xs) && x !in xs
    ensures Distinct([x] + xs)
  {
    var ys := [x] + xs;
    forall i, j | 0 <= i < j < |ys| ensures ys[i] != ys[j] {
      assert ys[j] == xs[j - 1];
    }
  }

  lemma {:induction false} WithoutMembers(xs: seq<Node>, n: Node)
    ensures forall m :: m in Without(xs, n) <==> m in xs && m != n
    ensures Distinct(xs) ==> Distinct(Without(xs, n))
    ensures n !in xs ==> Without(xs, n) == xs
  {
    if xs != [] {
      WithoutMembers(xs[1..], n);
      if Distinct(xs) {
        assert xs[0] !in xs[1..];
        DistinctCons(xs[0], Without(xs[1..], n));
      }
    }
  }

  /** The device's own host still agrees once the device is gone. */
  lemma DropAgreesAtHome(s: State, n: Node)
    requires TableOk(s) && n in s.runtime && HostAgrees(s, s.runtime[n].host)
    ensures HostAgrees(Dropped(s, n), s.runtime[n].host)
  {
    var s', h := Dropped(s, n), s.runtime[n].host;
    var devices := DevicesOn(s.order, s.runtime, h);
    DevicesWithout(s.order, s.runtime, h, n);
    DevicesMember(s.order, s.runtime, h, n);
    var left := DevicesOn(s'.order, s'.runtime, h);
    assert left == Without(devices, n) && s'.runtime == s.runtime - {n};
    WithoutMembers(s.order, n);
    assert (exists m | m in s'.runtime :: s'.runtime[m].host == h) <==> left != [] by {
      if left != [] {
        DevicesMember(s'.order, s'.runtime, h, left[0]);
      }
      if m :| m in s'.runtime && s'.runtime[m].host == h {
        DevicesMember(s'.order, s'.runtime, h, m);
      }
    }
  }

  lemma DropAgreesElsewhere(s: State, n: Node, h: Host)
    requires TableOk(s) && n in s.runtime && HostAgrees(s, h) && h != s.runtime[n].host
    ensures HostAgrees(Dropped(s, n), h)
  {
    hide DevicesOn, Without, Dropped;
    DroppedElsewhere(s, n, h);
    DevicesWithout(s.order, s.runtime, h, n);
    DevicesMember(s.order, s.runtime, h, n);
    WithoutMembers(DevicesOn(s.order, s.runtime, h), n);
  }

  lemma DroppedElsewhere(s: State, n: Node, h: Host)
    requires n in s.runtime && h != s.runtime[n].host
    ensures var s' := Dropped(s, n);
      && (h in s'.anchors <==> h in s.anchors)
      && (h in s'.scheduling <==> h in s.scheduling) && (h in s.scheduling ==> s'.scheduling[h] == s.scheduling[h])
      && s'.order == Without(s.order, n) && s'.runtime == s.runtime - {n}
  {
    hide Without;
  }

  lemma DropKeepsAgree(s: State, n: Node)
    requires Agree(s) && n in s.runtime
    ensures Agree(Dropped(s, n))
  {
    hide HostAgrees, DevicesOn;
    var s' := Dropped(s, n);
    forall h ensures HostAgrees(s', h) {
      if h == s.runtime[n].host {
        DropAgreesAtHome(s, n);
      } else {
        DropAgreesElsewhere(s, n, h);
      }
    }
    WithoutMembers(s.order, n);
    assert s'.runtime == s.runtime - {n} && s'.webui == s.webui - {n};
  }

  // ---- Link records ----

  /** The records after `delete_node_links` has gone through the list without a failure. */
  function Detached(records: Records, refs: seq<Ref>, n: Node): Records {
    map r | r in records :: if r in refs && n in records[r].ends then records[r].(status := Down, lastError := "") else records[r]
  }

  lemma DetachedNext(records: Records, refs: seq<Ref>, i: nat, n: Node)
    requires i < |refs|
    ensures var d, r := Detached(records, refs[..i], n), refs[i];
      Detached(records, refs[..i + 1], n) ==
        if r in d && n in d[r].ends then d[r := d[r].(status := Down, lastError := "")] else d
  {
    assert refs[..i + 1] == refs[..i] + [refs[i]];
  }

  ghost predicate AlreadyDown(records: Records, refs: seq<Ref>, n: Node) {
    forall r :: r in refs && r in records && n in records[r].ends ==> records[r].status.Down? && records[r].lastError == ""
  }

  /** Detaching the links of a device changes nothing exactly if they were all down without an error. */
  lemma DetachedSame(records: Records, refs: seq<Ref>, n: Node)
    ensures Detached(records, refs, n) == records <==> AlreadyDown(records, refs, n)
  {
    var d := Detached(records, refs, n);
    if d == records {
      forall r | r in refs && r in records && n in records[r].ends
        ensures records[r].status.Down? && records[r].lastError == "" {
        assert d[r] == records[r];
      }
    }
    if AlreadyDown(records, refs, n) {
      forall r | r in records ensures d[r] == records[r] {}
    }
  }

  // ---- Host ports ----

  function AllPorts(webui: map<Node, seq<WebUi>>): set<Port> {
    set n, i | n in webui && 0 <= i < |webui[n]| :: webui[n][i].hostPort
  }

  /** The container ports a wish list asks for. */
  function Positive(wishes: seq<int>): seq<int> {
    if wishes == [] then []
    else Positive(wishes[..|wishes| - 1]) + if wishes[|wishes| - 1] > 0 then [wishes[|wishes| - 1]] else []
  }

  function ContainerPorts(granted: seq<WebUi>): (r: seq<int>)
    ensures |r| == |granted| && forall i :: 0 <= i < |r| ==> r[i] == granted[i].containerPort
  {
    seq(|granted|, i requires 0 <= i < |granted| => granted[i].containerPort)
  }

  /** The device has a host port for every container port wished for, in order, and no other. */
  ghost predicate WishesMet(webui: map<Node, seq<WebUi>>, n: Node, wishes: seq<int>) {
    (if n in webui then ContainerPorts(webui[n]) else []) == Positive(wishes)
  }

  lemma FreshPortsDistinct(webui: map<Node, seq<WebUi>>, n: Node, more: seq<WebUi>)
    requires PortsDistinct(webui) && n !in webui
    requires forall i :: 0 <= i < |more| ==> more[i].hostPort !in AllPorts(webui)
    requires forall i, j :: 0 <= i < j < |more| ==> more[i].hostPort != more[j].hostPort
    ensures PortsDistinct(webui[n := more])
  {
    var w: map<Node, seq<WebUi>> := webui[n := more];
    forall a: Node, i: int, b: Node, j: int | a in w && b in w && 0 <= i < |w[a]| && 0 <= j < |w[b]| && (a, i) != (b, j)
      ensures w[a][i].hostPort != w[b][j].hostPort
    {
      if a != n && b == n {
        assert webui[a][i].hostPort in AllPorts(webui);
      } else if a == n && b != n {
        assert webui[b][j].hostPort in AllPorts(webui);
      }
    }
  }

  // ---- One device changes ----

  /** At most this device's phase and error text, and the link list, differ. */
  ghost predicate OnlyDevice(s: State, s': State, n: Node) {
    && n in s.runtime && n in s'.runtime
    && s' == s.(runtime := s.runtime[n := s'.runtime[n]], links := s'.links)
    && s'.runtime[n].host == s.runtime[n].host && s'.runtime[n].perVd == s.runtime[n].perVd
  }

  lemma OnlyDeviceTransitive(s: State, s': State, s'': State, n: Node)
    requires OnlyDevice(s, s', n) && OnlyDevice(s', s'', n)
    ensures OnlyDevice(s, s'', n)
  {
    assert s.runtime[n := s'.runtime[n]][n := s''.runtime[n]] == s.runtime[n := s''.runtime[n]];
  }

  lemma ThenTakenOut(s: State, mid: State, s': State, n: Node)
    requires OnlyDevice(s, mid, n) && TakenOut(mid, s', n)
    ensures TakenOut(s, s', n)
  {
    assert s.runtime[n := mid.runtime[n]] - {n} == s.runtime - {n};
    forall h | h != s.runtime[n].host ensures SameSchedule(s, s', h) && (h in s'.anchors <==> h in s.anchors) {
      assert SameSchedule(mid, s', h);
    }
    hide Others;
  }

  lemma OnlyDeviceKeeps(s: State, s': State, n: Node)
    requires OnlyDevice(s, s', n)
    ensures Agree(s) ==> Agree(s')
    ensures Settled(s) && !Transient(s'.runtime[n].phase) ==> Settled(s')
  {
    if Agree(s) { PhaseKeepsAgree(s, s'); }
  }
}
