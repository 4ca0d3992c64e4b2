/** The per-device lifecycle controller (controllers/node.py).  A remote call may fail and a cancel may be
    requested at any moment; both are left to chance, so what is proved holds for every behaviour of the hosts. */
module Lifecycle {
  import opened Wrappers
  import opened Ordering
  import opened Selection
  import opened LifecycleState

  /** The parts of the topology the controller consults. */
  datatype Topology = Topology(nodes: set<Node>, hosts: seq<Host>, address: Host -> string, wishlist: map<Node, seq<int>>)

  datatype Request = StartNode(n: Node) | AddNode(n: Node) | StopNode(n: Node, force: bool) | RemoveNode(n: Node)

  /** How an operation ended: it returned, or it raised an error. */
  datatype Ending = Returned | Raised

  /** How far a hot-add got, and how it left its try block. */
  datatype Exit = Completed | Interrupted | Failed

  datatype Progress = Progress(exit: Exit, host: Host, createdAnchor: bool, hasRuntime: bool, replaced: bool)

  /** The links of the device are all partial. */
  ghost predicate LinksPartial(records: Records, refs: seq<Ref>, n: Node) {
    forall r :: r in refs && r in records && n in records[r].ends ==> records[r].status.Partial?
  }

  /** The links of the device are all partial, with no error text. */
  ghost predicate AllPartial(records: Records, refs: seq<Ref>, n: Node) {
    forall r :: r in refs && r in records && n in records[r].ends ==> records[r].status.Partial? && records[r].lastError == ""
  }

  /** The device is stopped with no error text, and its links are all partial with none. */
  ghost predicate CleanlyStopped(s: State, records: Records, n: Node) {
    n in s.runtime && s.runtime[n].phase.Stopped? && s.runtime[n].lastError == "" && AllPartial(records, s.links, n)
  }

  ghost predicate RefsOk(links: seq<Ref>, records: Records, nextRef: Ref) {
    && (forall r :: r in links ==> r in records)
    && (forall r :: r in records ==> r < nextRef)
  }

  /** Records are only added, and only the listed ones change. */
  ghost predicate Elsewhere(before: Records, after: Records, refs: seq<Ref>) {
    before.Keys <= after.Keys && forall r :: r in before && r !in refs ==> after[r] == before[r]
  }

  /** Of the records only the listed ones of the device change, and no link changes its ends. */
  ghost predicate OnlyItsLinks(before: Records, after: Records, refs: seq<Ref>, n: Node) {
    && before.Keys == after.Keys
    && forall r :: r in before ==>
         after[r].ends == before[r].ends && (r !in refs || n !in before[r].ends ==> after[r] == before[r])
  }

  lemma OnlyItsLinksThen(a: Records, b: Records, c: Records, refs: seq<Ref>, n: Node)
    requires OnlyItsLinks(a, b, refs, n) && OnlyItsLinks(b, c, refs, n)
    ensures OnlyItsLinks(a, c, refs, n)
  {
  }

  /** The listed links of the device have no error text. */
  ghost predicate NoErrorText(records: Records, refs: seq<Ref>, n: Node) {
    forall r :: r in refs && r in records && n in records[r].ends ==> records[r].lastError == ""
  }

  /** What a hot-add has done to the state when it leaves its try block. */
  ghost predicate AddReached(s0: State, s: State, n: Node, p: Progress) {
    && (p.createdAnchor ==> p.host !in s0.anchors)
    && s.anchors == (if p.createdAnchor then s0.anchors + {p.host} else s0.anchors)
    && s.deployed == s0.deployed && s.perVd == s0.perVd
    && (p.replaced ==> p.hasRuntime)
    && (!p.replaced ==> s.links == s0.links)
    && (if p.hasRuntime then n in s.runtime && s.order == s0.order + [n] && s.runtime == s0.runtime[n := s.runtime[n]]
        else s == s0.(anchors := s.anchors, webui := s.webui))
  }

  /** The records there were before a failed hot-add, after its rollback. */
  ghost predicate RolledBack(before: Records, after: Records, links: seq<Ref>, n: Node, p: Progress) {
    var expected := if p.hasRuntime && !p.replaced then Detached(before, links, n) else before;
    before.Keys <= after.Keys && forall r :: r in before ==> after[r] == expected[r]
  }

  /** When a rolled-back hot-add gives back the old link list. */
  lemma LinksRestored(before: Records, after: Records, links: seq<Ref>, n: Node, p: Progress)
    requires RolledBack(before, after, links, n, p) && forall r :: r in links ==> r in before
    ensures (forall r :: r in links ==> after[r] == before[r]) <==>
              !(p.hasRuntime && !p.replaced) || AlreadyDown(before, links, n)
  {
    if p.hasRuntime && !p.replaced {
      var d := Detached(before, links, n);
      forall r | r in links ensures d[r] == before[r] <==>
        (n in before[r].ends ==> before[r].status.Down? && before[r].lastError == "") {}
      if forall r :: r in links ==> after[r] == before[r] {
        forall r | r in links && n in before[r].ends ensures before[r].status.Down? && before[r].lastError == "" {
          assert after[r] == before[r] == d[r];
        }
      }
    }
  }

  /** Whichever step the hot-add failed at, links that were already down without an error come back. */
  lemma AlreadyDownIsRestored(before: Records, after: Records, links: seq<Ref>, n: Node, p: Progress)
    requires RolledBack(before, after, links, n, p) && AlreadyDown(before, links, n)
    requires forall r :: r in links ==> r in before
    ensures forall r :: r in links ==> after[r] == before[r]
  {
    LinksRestored(before, after, links, n, p);
  }

  /** A hot-add that fails after the device entered the table and before the new list replaced the old one: the link
      that waited for the device loses its status and its explanation. */
  lemma PendingLinkIsLost(n: Node, peer: Node, after: Records, p: Progress)
    requires p.hasRuntime && !p.replaced
    requires RolledBack(map[0 := Link({n, peer}, Partial, "endpoint not started: " + n)], after, [0], n, p)
    ensures after[0] == Link({n, peer}, Down, "")
  {
    var waiting := Link({n, peer}, Partial, "endpoint not started: " + n);
    assert Detached(map[0 := waiting], [0], n)[0] == Link({n, peer}, Down, "");
  }

  lemma TableUndone(s0: State, s: State, n: Node, p: Progress)
    requires AddReached(s0, s, n, p) && TableOk(s0) && n !in s0.runtime
    ensures Without(s.order, n) == s0.order && s.runtime - {n} == s0.runtime
  {
    WithoutMembers(s0.order, n);
    WithoutAppend(s0.order, n);
    hide Without;
  }

  lemma AnchorsUndone(s0: State, s: State, n: Node, p: Progress)
    requires AddReached(s0, s, n, p)
    ensures (if p.createdAnchor then s.anchors - {p.host} else s.anchors) == s0.anchors
    ensures s.deployed == s0.deployed && s.perVd == s0.perVd
  {
  }

  /** Undoing a hot-add by hand, as the source does it, gives back the state it began with. */
  lemma UndoneIsBefore(s0: State, s: State, n: Node, p: Progress)
    requires AddReached(s0, s, n, p) && TableOk(s0) && n !in s0.runtime
    ensures s.(runtime := s.runtime - {n}, order := Without(s.order, n), links := s0.links, reservations := s0.reservations,
               scheduling := s0.scheduling, webui := s0.webui,
               anchors := if p.createdAnchor then s.anchors - {p.host} else s.anchors) == s0
  {
    hide Without, TableOk, AddReached;
    TableUndone(s0, s, n, p);
    AnchorsUndone(s0, s, n, p);
  }

  lemma {:induction false} WithoutAppend(xs: seq<Node>, n: Node)
    ensures Without(xs + [n], n) == Without(xs, n)
  {
    if xs == [] {
      assert xs + [n] == [n] && [n][1..] == [];
    } else {
      assert (xs + [n])[1..] == xs[1..] + [n];
      WithoutAppend(xs[1..], n);
    }
  }

  /** The links that do not touch the device. */
  ghost function LinksLeft(links: seq<Ref>, records: Records, n: Node): seq<Ref> {
    Filter(links, r => r in records && n !in records[r].ends)
  }

  lemma LeftNext(links: seq<Ref>, i: nat, records: Records, n: Node)
    requires i < |links| && links[i] in records
    ensures LinksLeft(links[..i + 1], records, n) ==
      LinksLeft(links[..i], records, n) + if n !in records[links[i]].ends then [links[i]] else []
  {
    assert links[..i + 1][..i] == links[..i];
  }

  lemma {:induction false} LeftSameEnds(links: seq<Ref>, a: Records, b: Records, refs: seq<Ref>, n: Node)
    requires OnlyItsLinks(a, b, refs, n)
    ensures LinksLeft(links, a, n) == LinksLeft(links, b, n)
  {
    if links != [] {
      LeftSameEnds(links[..|links| - 1], a, b, refs, n);
    }
  }

  lemma LeftMembers(links: seq<Ref>, records: Records, n: Node)
    ensures forall r :: r in LinksLeft(links, records, n) <==> r in links && r in records && n !in records[r].ends
  {
    forall r ensures r in LinksLeft(links, records, n) <==> r in links && r in records && n !in records[r].ends {
      FilterMembers(links, r => r in records && n !in records[r].ends, r);
    }
  }

  /** Once the device is in the table, changes to it alone leave the rest as the hot-add has set it. */
  lemma StillReached(s0: State, s1: State, s: State, n: Node, p: Progress, replaced: bool)
    requires AddReached(s0, s1, n, p) && p.hasRuntime && !p.replaced && OnlyDevice(s1, s, n)
    requires !replaced ==> s.links == s1.links
    ensures forall x :: AddReached(s0, s, n, p.(replaced := replaced, exit := x))
  {
    assert s0.runtime[n := s1.runtime[n]][n := s.runtime[n]] == s0.runtime[n := s.runtime[n]];
  }

  lemma SameRecords(records: Records)
    ensures Elsewhere(records, records, [])
  {
  }

  lemma SameDevice(s: State, n: Node)
    requires n in s.runtime
    ensures OnlyDevice(s, s, n)
  {
    assert s.runtime[n := s.runtime[n]] == s.runtime;
  }

  function Wishes(t: Topology, n: Node): seq<int> {
    if n in t.wishlist then t.wishlist[n] else []
  }

  /** The device is in the table, on a host of the topology, with the host ports it wishes for. */
  ghost predicate Placed(t: Topology, s: State, n: Node) {
    n in s.runtime && s.runtime[n].host in t.hosts && WishesMet(s.webui, n, Wishes(t, n))
  }

  lemma PreparedReached(s0: State, s: State, n: Node, p: Progress)
    requires s == s0.(anchors := s.anchors, webui := s.webui) && !p.hasRuntime && !p.replaced
    requires p.createdAnchor ==> p.host !in s0.anchors
    requires s.anchors == if p.createdAnchor then s0.anchors + {p.host} else s0.anchors
    ensures AddReached(s0, s, n, p)
  {
  }

  /** The device has entered the state: at the end of the table, in the schedule of its host with what it needs there,
      and with an anchor.  Other devices and their web ports are as before, and the schedules of other hosts are too,
      except that the addresses of hosts of the topology are brought up to date. */
  ghost predicate Entered(t: Topology, s0: State, s: State, n: Node, cpu: nat, ram: nat) {
    && n !in s0.runtime && n in s.runtime && s.runtime[n].host in t.hosts
    && s.deployed == s0.deployed && s.perVd == s0.perVd && s.anchors == s0.anchors + {s.runtime[n].host}
    && s.runtime == s0.runtime[n := s.runtime[n]] && s.order == s0.order + [n]
    && OthersPorts(s0, s) && s.webui.Keys <= s0.webui.Keys + {n}
    && forall h :: Scheduled(t, s0.scheduling, s.scheduling, s.runtime[n].host, n, cpu, ram, h)
  }

  /** The web ports there were are still there. */
  ghost predicate OthersPorts(s: State, s': State) {
    forall m :: m in s.webui ==> m in s'.webui && s'.webui[m] == s.webui[m]
  }

  ghost predicate Scheduled(t: Topology, before: map<Host, Schedule>, after: map<Host, Schedule>, home: Host, n: Node,
                            cpu: nat, ram: nat, h: Host) {
    if h == home then
      h in after && after[h] == Schedule(t.address(h),
                                         if h in before then before[h].vd + [n] else [n],
                                         if h in before then before[h].cpu + cpu else cpu,
                                         if h in before then before[h].ram + ram else ram)
    else
      && (h in after <==> h in before)
      && (h in before ==> after[h] == before[h].(address := if h in t.hosts then t.address(h) else before[h].address))
  }

  ghost predicate HasEntered(t: Topology, s0: State, s: State, n: Node) {
    exists cpu, ram :: Entered(t, s0, s, n, cpu, ram)
  }

  lemma StillEntered(t: Topology, s0: State, s: State, s': State, n: Node)
    requires HasEntered(t, s0, s, n) && OnlyDevice(s, s', n)
    ensures HasEntered(t, s0, s', n)
  {
    var cpu, ram :| Entered(t, s0, s, n, cpu, ram);
    assert s0.runtime[n := s.runtime[n]][n := s'.runtime[n]] == s0.runtime[n := s'.runtime[n]];
    assert Entered(t, s0, s', n, cpu, ram);
  }

  /** The plan with the device, carried out, is its entry. */
  lemma EntersSchedule(t: Topology, s0: State, home: Host, n: Node, cpu: nat, ram: nat, h: Host)
    requires Agree(s0) && home in t.hosts
    ensures var plan := PlanWith(RuntimePlan(t.hosts, s0), n, home, cpu, ram);
      Scheduled(t, s0.scheduling, Rescheduled(s0.scheduling, plan, t.address, t.hosts), home, n, cpu, ram, h)
  {
    var plan := PlanWith(RuntimePlan(t.hosts, s0), n, home, cpu, ram);
    assert HostAgrees(s0, h);
    RescheduledAt(s0.scheduling, plan, t.address, t.hosts, h);
    hide DevicesOn, Rescheduled;
  }

  lemma EntersState(t: Topology, s0: State, s: State, n: Node, cpu: nat, ram: nat)
    requires Agree(s0) && n !in s0.runtime && n in s.runtime && s.runtime[n].host in t.hosts
    requires var plan := PlanWith(RuntimePlan(t.hosts, s0), n, s.runtime[n].host, cpu, ram);
      s.scheduling == Rescheduled(s0.scheduling, plan, t.address, t.hosts)
    requires s.deployed == s0.deployed && s.perVd == s0.perVd && s.anchors == s0.anchors + {s.runtime[n].host}
    requires s.runtime == s0.runtime[n := s.runtime[n]] && s.order == s0.order + [n]
    requires OthersPorts(s0, s) && s.webui.Keys <= s0.webui.Keys + {n}
    ensures HasEntered(t, s0, s, n)
  {
    hide Agree, Rescheduled, PlanWith, RuntimePlan, Scheduled;
    forall h ensures Scheduled(t, s0.scheduling, s.scheduling, s.runtime[n].host, n, cpu, ram, h) {
      EntersSchedule(t, s0, s.runtime[n].host, n, cpu, ram, h);
    }
    assert Entered(t, s0, s, n, cpu, ram);
  }

  /** The state with the device in the table, its reservation, and the plan carried out. */
  ghost function Installed(t: Topology, s1: State, n: Node, h: Host, cpu: nat, ram: nat, reservations: map<Node, string>): State
    requires h in t.hosts
  {
    var plan := PlanWith(RuntimePlan(t.hosts, s1), n, h, cpu, ram);
    Added(s1, n, Runtime(Starting, h, true, "")).(
      reservations := reservations, scheduling := Rescheduled(s1.scheduling, plan, t.address, t.hosts))
  }

  lemma InstalledIs(t: Topology, s0: State, s1: State, n: Node, p: Progress, cpu: nat, ram: nat, reservations: map<Node, string>)
    requires Agree(s0) && n !in s0.runtime && AddReached(s0, s1, n, p) && !p.hasRuntime
    requires p.host in t.hosts && s1.anchors == s0.anchors + {p.host}
    requires s1.webui.Keys <= s0.webui.Keys + {n} && PortsDistinct(s1.webui) && OthersPorts(s0, s1)
    requires WishesMet(s1.webui, n, Wishes(t, n))
    ensures var s := Installed(t, s1, n, p.host, cpu, ram, reservations);
      Placed(t, s, n) && Agree(s) && HasEntered(t, s0, s, n) && AddReached(s0, s, n, p.(hasRuntime := true))
  {
    hide Agree, HasEntered, Rescheduled, PortsDistinct, OthersPorts, WishesMet;
    var s := Installed(t, s1, n, p.host, cpu, ram, reservations);
    assert RuntimePlan(t.hosts, s1) == RuntimePlan(t.hosts, s0);
    hide RuntimePlan;
    AddKeepsAgree(s0, t.hosts, n, s.runtime[n], cpu, ram, t.address, s);
    assert OthersPorts(s0, s) by { SamePorts(s0, s1, s); }
    EntersState(t, s0, s, n, cpu, ram);
  }

  lemma SamePorts(s0: State, s1: State, s: State)
    requires OthersPorts(s0, s1) && s.webui == s1.webui
    ensures OthersPorts(s0, s)
  {
  }

  lemma SettlesAfter(s0: State, s: State, s': State, n: Node, p: Progress)
    requires AddReached(s0, s, n, p) && p.hasRuntime && (s' == s || OnlyDevice(s, s', n))
    ensures n in s'.runtime && (Settled(s0) && !Transient(s'.runtime[n].phase) ==> Settled(s'))
  {
  }

  lemma LinksKept(s0: State, s: State, n: Node, p: Progress)
    requires AddReached(s0, s, n, p)
    ensures (!p.replaced ==> s.links == s0.links) && (p.replaced ==> p.hasRuntime)
  {
  }

  /** The records that were there before, once the rollback has detached the device's links in the current list. */
  lemma RollbackRecords(before: Records, mid: Records, after: Records, links0: seq<Ref>, links: seq<Ref>, n: Node, p: Progress, next: Ref)
    requires Elsewhere(before, mid, []) && (p.replaced ==> p.hasRuntime)
    requires if p.replaced then forall r :: r in links ==> r !in before else links == links0
    requires after == if p.hasRuntime then Detached(mid, links, n) else mid
    requires RefsOk(links, mid, next) && forall r :: r in links0 ==> r in before
    ensures RolledBack(before, after, links0, n, p) && RefsOk(links0, after, next)
  {
  }

  lemma StillPlaced(t: Topology, s: State, s': State, n: Node)
    requires OnlyDevice(s, s', n)
    ensures (Placed(t, s, n) ==> Placed(t, s', n)) && s'.reservations == s.reservations
  {
  }

  class Controller {
    const topo: Topology
    var state: State
    var records: Records
    var nextRef: Ref
    var saved: State
    var cancelled: bool
    /** Some call has failed. */
    ghost var failed: bool

    /** What was so before is so still. */
    ghost predicate Later(wasCancelled: bool, hadFailed: bool)
      reads this
    {
      (wasCancelled ==> cancelled) && (hadFailed ==> failed)
    }

    ghost predicate Valid()
      reads this
    {
      RefsOk(state.links, records, nextRef) && Agree(state) && Agree(saved)
    }

    constructor (t: Topology, s: State, rs: Records, next: Ref)
      requires Agree(s) && RefsOk(s.links, rs, next)
      ensures Valid() && topo == t && state == s && records == rs && saved == s && !cancelled && !failed
    {
      topo, state, records, nextRef, saved, cancelled := t, s, rs, next, s, false;
      failed := false;
    }

    // ---- The environment ----

    /** Time passes, and a cancel may arrive. */
    method Wait()
      modifies `cancelled
      ensures old(cancelled) ==> cancelled
    {
      if * {
        cancelled := true;
      }
    }

    /** A remote call, or any other call that may raise. */
    method Remote() returns (ok: bool)
      modifies `cancelled, `failed
      ensures (old(cancelled) ==> cancelled) && failed == (old(failed) || !ok)
    {
      Wait();
      ok := *;
      failed := failed || !ok;
    }

    /** `_check_cancelled`. */
    method Checkpoint() returns (stop: bool)
      modifies `cancelled
      ensures stop == cancelled && (old(cancelled) ==> cancelled)
    {
      Wait();
      stop := cancelled;
    }

    method SaveState()
      modifies `saved
      ensures saved == state
    {
      saved := state;
    }

    // ---- Steps on one device ----

    /** `_set_phase`, with the error text to go with it; `s0` is the state the operation began in. */
    method SetPhase(ghost s0: State, n: Node, p: Phase, error: string)
      requires n in state.runtime && Agree(state) && OnlyDevice(s0, state, n)
      modifies `state
      ensures n in state.runtime && state.runtime[n] == old(state).runtime[n].(phase := p, lastError := error)
      ensures OnlyDevice(s0, state, n) && Agree(state) && state.links == old(state.links)
      ensures Settled(s0) && !Transient(p) ==> Settled(state)
    {
      state := state.(runtime := state.runtime[n := state.runtime[n].(phase := p, lastError := error)]);
      OnlyDeviceTransitive(s0, old(state), state, n);
      OnlyDeviceKeeps(old(state), state, n);
      OnlyDeviceKeeps(s0, state, n);
    }

    // ---- Link services ----

    /** A link service may leave any status and error text on the listed links. */
    method DisturbLinks(refs: seq<Ref>)
      requires RefsOk(state.links, records, nextRef)
      modifies `records
      ensures records.Keys == old(records.Keys) && Elsewhere(old(records), records, refs)
      ensures RefsOk(state.links, records, nextRef)
    {
      for i := 0 to |refs|
        invariant records.Keys == old(records.Keys) && Elsewhere(old(records), records, refs)
      {
        if refs[i] in records {
          var status: LinkStatus, error: string := *, *;
          records := records[refs[i] := records[refs[i]].(status := status, lastError := error)];
        }
      }
    }

    /** `delete_node_links`, stopping at the first failure. */
    method DeleteNodeLinks(n: Node) returns (ok: bool)
      requires RefsOk(state.links, records, nextRef)
      modifies `records, `cancelled, `failed
      ensures records.Keys == old(records.Keys) && Elsewhere(old(records), records, state.links)
      ensures OnlyItsLinks(old(records), records, state.links, n) && (ok ==> NoErrorText(records, state.links, n))
      ensures RefsOk(state.links, records, nextRef)
      ensures !ok ==> failed
      ensures Later(old(cancelled), old(failed))
    {
      for i := 0 to |state.links|
        invariant OnlyItsLinks(old(records), records, state.links, n) && NoErrorText(records, state.links[..i], n)
        invariant Later(old(cancelled), old(failed))
      {
        var r := state.links[i];
        assert state.links[..i + 1] == state.links[..i] + [r];
        if r in records && n in records[r].ends {
          ok := Remote();
          if !ok {
            var error: string := *;
            records := records[r := records[r].(status := Faulty, lastError := error)];
            return false;
          }
          records := records[r := records[r].(status := Down, lastError := "")];
        }
      }
      assert state.links[..|state.links|] == state.links;
      return true;
    }

    /** `delete_node_links` in a rollback, where it is taken not to raise. */
    method DetachNodeLinks(n: Node)
      modifies `records
      ensures records == Detached(old(records), state.links, n)
    {
      ghost var before := records;
      assert Detached(before, state.links[..0], n) == before;
      hide Detached;
      for i := 0 to |state.links|
        invariant records == Detached(before, state.links[..i], n)
      {
        DetachedNext(before, state.links, i, n);
        var r := state.links[i];
        if r in records && n in records[r].ends {
          records := records[r := records[r].(status := Down, lastError := "")];
        }
      }
      assert state.links[..|state.links|] == state.links;
    }

    /** Rebuild and merge: new records for the whole desired graph. */
    method RebuildLinks() returns (rebuilt: seq<Ref>)
      requires RefsOk(state.links, records, nextRef)
      modifies `records, `nextRef
      ensures RefsOk(state.links, records, nextRef) && RefsOk(rebuilt, records, nextRef)
      ensures Elsewhere(old(records), records, []) && forall r :: r in rebuilt ==> r !in old(records)
    {
      var links: seq<Link> := *;
      rebuilt := [];
      for i := 0 to |links|
        invariant RefsOk(state.links, records, nextRef) && RefsOk(rebuilt, records, nextRef)
        invariant Elsewhere(old(records), records, []) && forall r :: r in rebuilt ==> r !in old(records)
        invariant old(nextRef) <= nextRef
      {
        records := records[nextRef := links[i]];
        rebuilt := rebuilt + [nextRef];
        nextRef := nextRef + 1;
      }
    }

    /** `_refresh_runtime_links`: the list is replaced only if nothing fails. */
    method RefreshLinks(ghost s0: State, n: Node) returns (ok: bool)
      requires RefsOk(state.links, records, nextRef) && Agree(state) && OnlyDevice(s0, state, n)
      modifies `state, `records, `nextRef, `cancelled, `failed
      ensures RefsOk(state.links, records, nextRef) && Agree(state) && OnlyDevice(s0, state, n)
      ensures state.runtime == old(state.runtime)
      ensures if ok then forall r :: r in state.links ==> r !in old(records) else state.links == old(state.links)
      ensures !ok ==> failed
      ensures Later(old(cancelled), old(failed))
    {
      var rebuilt := RebuildLinks();
      DisturbLinks(state.links);
      ok := Remote();
      if ok {
        state := state.(links := rebuilt);
        PhaseKeepsAgree(old(state), state);
      }
    }

    /** The final loop of stop and cancel over the links of the device. */
    method MarkPartial(n: Node, clear: bool)
      requires RefsOk(state.links, records, nextRef)
      modifies `records
      ensures RefsOk(state.links, records, nextRef)
      ensures OnlyItsLinks(old(records), records, state.links, n) && LinksPartial(records, state.links, n)
      ensures clear || NoErrorText(old(records), state.links, n) ==> AllPartial(records, state.links, n)
    {
      for i := 0 to |state.links|
        invariant RefsOk(state.links, records, nextRef) && OnlyItsLinks(old(records), records, state.links, n)
        invariant LinksPartial(records, state.links[..i], n)
        invariant clear ==> NoErrorText(records, state.links[..i], n)
        invariant NoErrorText(old(records), state.links, n) ==> NoErrorText(records, state.links, n)
      {
        var r := state.links[i];
        assert state.links[..i + 1] == state.links[..i] + [r];
        if n in records[r].ends {
          records := records[r := records[r].(status := Partial, lastError := if clear then "" else records[r].lastError)];
        }
      }
      assert state.links[..|state.links|] == state.links;
    }

    // ---- Stop ----

    function PhaseToStop(p: Phase, force: bool): Phase {
      if force && (p.Queued? || p.Starting? || p.Reconciling? || p.Cancelling?) then Cancelling else Stopping
    }

    /** The container is destroyed before the device's links if forced, and after them otherwise. */
    method TakeDown(n: Node, force: bool) returns (ok: bool)
      requires RefsOk(state.links, records, nextRef)
      modifies `records, `cancelled, `failed
      ensures OnlyItsLinks(old(records), records, state.links, n) && (ok ==> NoErrorText(records, state.links, n))
      ensures RefsOk(state.links, records, nextRef)
      ensures !ok ==> failed
      ensures Later(old(cancelled), old(failed))
    {
      if force {
        ok := Remote();
        if ok { ok := DeleteNodeLinks(n); }
      } else {
        ok := DeleteNodeLinks(n);
        if ok { ok := Remote(); }
      }
    }

    /** The try block of `stop`. */
    method StopSteps(n: Node, force: bool) returns (ok: bool)
      requires Valid() && n in state.runtime
      modifies `state, `records, `saved, `cancelled, `failed
      ensures Valid() && OnlyDevice(old(state), state, n) && state.links == old(state.links)
      ensures ok ==> state.runtime[n].phase.Stopped? && state.runtime[n].lastError == "" && saved == state
      ensures ok ==> AllPartial(records, state.links, n)
      ensures OnlyItsLinks(old(records), records, state.links, n)
      ensures !ok ==> failed
      ensures Later(old(cancelled), old(failed))
    {
      ghost var s0 := state;
      SameDevice(s0, n);
      assert OnlyItsLinks(records, records, state.links, n);
      hide Agree, OnlyDevice, RefsOk, Elsewhere, AllPartial, LinksPartial, OnlyItsLinks, NoErrorText;
      ok := Remote();
      if !ok {
        return false;
      }
      SetPhase(s0, n, PhaseToStop(state.runtime[n].phase, force), state.runtime[n].lastError);
      SaveState();
      ok := TakeDown(n, force);
      if !ok {
        return false;
      }
      ghost var down := records;
      FinishStop(s0, n);
      OnlyItsLinksThen(old(records), down, records, state.links, n);
    }

    method FinishStop(ghost s0: State, n: Node)
      requires Valid() && n in state.runtime && OnlyDevice(s0, state, n) && NoErrorText(records, state.links, n)
      modifies `state, `records, `saved
      ensures Valid() && OnlyDevice(s0, state, n) && state.links == old(state.links)
      ensures state.runtime[n].phase.Stopped? && state.runtime[n].lastError == "" && saved == state
      ensures AllPartial(records, state.links, n) && OnlyItsLinks(old(records), records, state.links, n)
    {
      hide Agree, OnlyDevice, RefsOk, AllPartial, LinksPartial, OnlyItsLinks, NoErrorText;
      SetPhase(s0, n, Stopped, "");
      MarkPartial(n, false);
      SaveState();
    }

    /** The guards of `stop` let the operation through. */
    ghost predicate MayStop(n: Node)
      reads this
    {
      n in state.runtime && state.deployed && state.runtime[n].perVd
    }

    /** Stop a device.  Past the guards it returns with the device stopped, its links partial without error text unless
        it was stopped already, or raises with it in error; a guard leaves everything alone. */
    method Stop(n: Node, force: bool) returns (e: Ending)
      requires Valid()
      modifies `state, `records, `saved, `cancelled, `failed
      ensures Valid() && RefsOk(state.links, records, nextRef)
      ensures state == old(state) || OnlyDevice(old(state), state, n)
      ensures OnlyItsLinks(old(records), records, state.links, n) && state.links == old(state.links)
      ensures old(Settled(state)) ==> Settled(state)
      ensures saved == state || saved == old(saved)
      ensures !old(MayStop(n)) ==> state == old(state) && records == old(records) && saved == old(saved)
      ensures !old(MayStop(n)) ==> (e.Returned? <==> n !in state.runtime && force && n in topo.nodes)
      ensures old(MayStop(n)) ==> n in state.runtime && state.runtime[n].phase == if e.Returned? then Stopped else Error
      ensures old(MayStop(n)) && old(state.runtime)[n].phase.Stopped? ==> e.Returned? && state == old(state) && records == old(records)
      ensures old(MayStop(n)) && !old(state.runtime)[n].phase.Stopped? && e.Returned? ==>
        state.runtime[n].lastError == "" && AllPartial(records, state.links, n)
      ensures old(MayStop(n)) && e.Raised? ==> failed
      ensures Later(old(cancelled), old(failed))
    {
      if n !in state.runtime {
        return if force && n in topo.nodes then Returned else Raised;
      }
      if !state.deployed || !state.runtime[n].perVd {
        return Raised;
      }
      if state.runtime[n].phase.Stopped? {
        return Returned;
      }
      ghost var s0 := state;
      hide Agree;
      var ok := StopSteps(n, force);
      if ok {
        OnlyDeviceKeeps(s0, state, n);
        return Returned;
      }
      var error: string := *;
      SetPhase(s0, n, Error, error);
      SaveState();
      return Raised;
    }

    // ---- Start ----

    /** The guards of `start` let a device of the table through. */
    ghost predicate MayStart(n: Node)
      reads this
    {
      if n in state.runtime then state.deployed && state.runtime[n].perVd else MayAdd(n)
    }

    /** The guards of `add` let the operation through. */
    ghost predicate MayAdd(n: Node)
      reads this
    {
      state.deployed && state.perVd && if n in state.runtime then state.runtime[n].perVd else n in topo.nodes
    }

    /** `_cancel_started_node`. */
    method CancelStarted(n: Node)
      requires Agree(state) && RefsOk(state.links, records, nextRef) && n in state.runtime
      modifies `state, `records, `nextRef, `saved, `cancelled, `failed
      ensures Valid() && saved == state && OnlyDevice(old(state), state, n) && CleanlyStopped(state, records, n)
      ensures Later(old(cancelled), old(failed))
    {
      ghost var s0 := state;
      SameDevice(s0, n);
      hide Agree, OnlyDevice, RefsOk, Elsewhere, AllPartial, LinksPartial, OnlyItsLinks, NoErrorText;
      SetPhase(s0, n, Cancelling, state.runtime[n].lastError);
      SaveState();
      var destroyed := Remote();
      var deleted := DeleteNodeLinks(n);
      SetPhase(s0, n, Stopped, "");
      var refreshed := RefreshLinks(s0, n);
      MarkPartial(n, true);
      var reconciled := Remote();
      SaveState();
    }

    /** A remote call followed by a checkpoint: go on, or why not. */
    method CallThenCheck() returns (x: Exit)
      modifies `cancelled, `failed
      ensures x.Interrupted? ==> cancelled
      ensures x.Failed? ==> failed
      ensures Later(old(cancelled), old(failed))
    {
      var ok := Remote();
      if !ok {
        return Failed;
      }
      var stop := Checkpoint();
      return if stop then Interrupted else Completed;
    }

    /** The first half of the try block of `start`: deploy the container and wait for it. */
    method StartContainer(ghost s0: State, n: Node) returns (x: Exit)
      requires Valid() && n in state.runtime && OnlyDevice(s0, state, n)
      modifies `state, `saved, `cancelled, `failed
      ensures Valid() && n in state.runtime && OnlyDevice(s0, state, n)
      ensures x.Interrupted? ==> cancelled
      ensures x.Failed? ==> failed
      ensures Later(old(cancelled), old(failed))
    {
      hide Agree, OnlyDevice, RefsOk;
      x := CallThenCheck();
      if !x.Completed? { return; }
      SetPhase(s0, n, Starting, state.runtime[n].lastError);
      SaveState();
      x := CallThenCheck();
      if !x.Completed? { return; }
      x := CallThenCheck();
      if !x.Completed? { return; }
      var routed := Remote();
      if !routed { return Failed; }
      SetPhase(s0, n, Reconciling, state.runtime[n].lastError);
      SaveState();
    }

    /** The second half: rebuild and reconcile the links, and mark the device running. */
    method StartLinks(ghost s0: State, n: Node) returns (x: Exit)
      requires Valid() && n in state.runtime && OnlyDevice(s0, state, n)
      modifies `state, `records, `nextRef, `saved, `cancelled, `failed
      ensures Valid() && n in state.runtime && OnlyDevice(s0, state, n)
      ensures x.Completed? ==> state.runtime[n].phase.Running? && state.runtime[n].lastError == "" && saved == state
      ensures x.Completed? ==> forall r :: r in state.links ==> r !in old(records)
      ensures x.Interrupted? ==> cancelled
      ensures x.Failed? ==> failed
      ensures Later(old(cancelled), old(failed))
    {
      hide Agree, OnlyDevice, RefsOk, Elsewhere;
      SetPhase(s0, n, Reconciling, "");
      var refreshed := RefreshLinks(s0, n);
      if !refreshed { return Failed; }
      x := ReconcileLinks();
      if !x.Completed? { return; }
      SetPhase(s0, n, Running, "");
      SaveState();
    }

    /** `reconcile_node_links` between two checkpoints. */
    method ReconcileLinks() returns (x: Exit)
      requires RefsOk(state.links, records, nextRef)
      modifies `records, `cancelled, `failed
      ensures RefsOk(state.links, records, nextRef)
      ensures x.Interrupted? ==> cancelled
      ensures x.Failed? ==> failed
      ensures Later(old(cancelled), old(failed))
    {
      x := CallThenCheck();
      if !x.Completed? { return; }
      DisturbLinks(state.links);
      x := CallThenCheck();
    }

    method StartSteps(n: Node) returns (x: Exit)
      requires Valid() && n in state.runtime
      modifies `state, `records, `nextRef, `saved, `cancelled, `failed
      ensures Valid() && n in state.runtime && OnlyDevice(old(state), state, n)
      ensures x.Completed? ==> state.runtime[n].phase.Running? && state.runtime[n].lastError == "" && saved == state
      ensures x.Completed? ==> forall r :: r in state.links ==> r !in old(records)
      ensures x.Interrupted? ==> cancelled
      ensures x.Failed? ==> failed
      ensures Later(old(cancelled), old(failed))
    {
      ghost var s0 := state;
      SameDevice(s0, n);
      hide Agree, OnlyDevice, RefsOk;
      x := StartContainer(s0, n);
      if x.Completed? {
        x := StartLinks(s0, n);
      }
    }

    /** Start a device.  If the cancel was seen at a checkpoint or made a call fail (`seen`), nothing changed or the
        device is cleanly stopped; otherwise it runs, or is in error. */
    method Start(n: Node) returns (e: Ending, ghost seen: bool)
      requires Valid()
      modifies `state, `records, `nextRef, `saved, `cancelled, `failed
      ensures Valid()
      ensures old(Settled(state)) ==> Settled(state)
      ensures saved == state || saved == old(saved)
      ensures seen ==> state == old(state) || CleanlyStopped(state, records, n)
      ensures old(cancelled) ==> seen
      ensures n in old(state.runtime) ==> state == old(state) || OnlyDevice(old(state), state, n)
      ensures n in old(state.runtime) && !seen && e.Raised? && state != old(state) ==> state.runtime[n].phase.Error?
      ensures e.Returned? && !seen ==> n in state.runtime && state.runtime[n].phase.Running?
      ensures n in old(state.runtime) && e.Returned? && !seen ==>
        || state == old(state)
        || (state.runtime[n].lastError == "" && saved == state && forall r :: r in state.links ==> r !in old(records))
      ensures (seen ==> cancelled) && (old(MayStart(n)) && !cancelled && !failed ==> e.Returned?)
      ensures Later(old(cancelled), old(failed))
      decreases if n in state.runtime then 0 else 2
    {
      var stop := Checkpoint();
      if stop {
        return Raised, true;
      }
      if n !in state.runtime {
        ghost var p;
        e, seen, p := Add(n);
        return;
      }
      if !state.deployed || !state.runtime[n].perVd {
        return Raised, false;
      }
      if state.runtime[n].phase.Running? {
        return Returned, false;
      }
      ghost var s0 := state;
      hide Agree;
      var x := StartSteps(n);
      if x.Completed? {
        OnlyDeviceKeeps(s0, state, n);
        return Returned, false;
      }
      e, seen := EndStart(s0, n);
    }

    /** The two handlers of `start`. */
    method EndStart(ghost s0: State, n: Node) returns (e: Ending, seen: bool)
      requires Valid() && n in state.runtime && OnlyDevice(s0, state, n)
      modifies `state, `records, `nextRef, `saved, `cancelled, `failed
      ensures Valid() && OnlyDevice(s0, state, n) && saved == state && (Settled(s0) ==> Settled(state))
      ensures if seen then e.Returned? && cancelled && CleanlyStopped(state, records, n)
              else e.Raised? && state.runtime[n].phase.Error?
      ensures (old(cancelled) ==> seen) && Later(old(cancelled), old(failed))
    {
      hide Agree, RefsOk;
      ghost var s1 := state;
      Wait();
      seen := cancelled;
      if cancelled {
        CancelStarted(n);
        OnlyDeviceTransitive(s0, s1, state, n);
        OnlyDeviceKeeps(s0, state, n);
        return Returned, true;
      }
      var error: string := *;
      SetPhase(s0, n, Error, error);
      SaveState();
      return Raised, false;
    }

    // ---- Hot-add ----

    /** `_ensure_mgmt_anchor`. */
    method EnsureAnchor(h: Host) returns (ok: bool, created: bool)
      modifies `state, `saved, `cancelled, `failed
      ensures created ==> ok && h !in old(state).anchors
      ensures state == old(state).(anchors := if created then old(state).anchors + {h} else old(state).anchors)
      ensures ok ==> h in state.anchors
      ensures !ok ==> failed
      ensures Later(old(cancelled), old(failed))
    {
      if h in state.anchors {
        return true, false;
      }
      ok := Remote();
      if !ok { return false, false; }
      ok := Remote();
      if !ok { return false, false; }
      state := state.(anchors := state.anchors + {h});
      SaveState();
      return true, true;
    }

    /** The allocator returns a port outside those in use, or raises. */
    method NewPort(existing: set<Port>) returns (ok: bool, port: Port)
      modifies `cancelled, `failed
      ensures ok ==> port !in existing
      ensures !ok ==> failed
      ensures Later(old(cancelled), old(failed))
    {
      ok := Remote();
      port := *;
      if port in existing {
        ok, failed := false, true;
      }
    }

    /** `_allocate_node_webui`: a host port for each wish, distinct from each other and from all in use. */
    method AllocateWebUi(n: Node) returns (ok: bool)
      requires PortsDistinct(state.webui) && n !in state.webui
      modifies `state, `cancelled, `failed
      ensures state == old(state).(webui := state.webui) && PortsDistinct(state.webui)
      ensures state.webui.Keys <= old(state).webui.Keys + {n}
      ensures OthersPorts(old(state), state)
      ensures ok ==> WishesMet(state.webui, n, Wishes(topo, n))
      ensures !ok ==> failed
      ensures Later(old(cancelled), old(failed))
    {
      var wishes := Wishes(topo, n);
      var existing := AllPorts(state.webui);
      var granted: seq<WebUi> := [];
      for i := 0 to |wishes|
        invariant state == old(state) && Later(old(cancelled), old(failed))
        invariant AllPorts(state.webui) <= existing && forall k :: 0 <= k < |granted| ==> granted[k].hostPort in existing
        invariant forall k :: 0 <= k < |granted| ==> granted[k].hostPort !in AllPorts(state.webui)
        invariant forall j, k :: 0 <= j < k < |granted| ==> granted[j].hostPort != granted[k].hostPort
        invariant ContainerPorts(granted) == Positive(wishes[..i])
      {
        assert wishes[..i + 1][..i] == wishes[..i] && wishes[..i + 1][i] == wishes[i];
        if wishes[i] > 0 {
          var port;
          ok, port := NewPort(existing);
          if !ok {
            return false;
          }
          existing := existing + {port};
          granted := granted + [WebUi(wishes[i], port)];
        }
      }
      assert wishes[..|wishes|] == wishes;
      if granted != [] {
        FreshPortsDistinct(state.webui, n, granted);
        state := state.(webui := state.webui[n := granted]);
      }
      return true;
    }

    /** Connect, select a host of the topology, and inspect the image there. */
    method ChooseHost() returns (x: Exit, host: Host)
      modifies `cancelled, `failed
      ensures x.Completed? ==> host in topo.hosts
      ensures x.Interrupted? ==> cancelled
      ensures x.Failed? ==> failed
      ensures Later(old(cancelled), old(failed))
    {
      host := *;
      x := CallThenCheck();
      if !x.Completed? { return; }
      x := CallThenCheck();
      if !x.Completed? { return; }
      var inspected := Remote();
      if !inspected || host !in topo.hosts {
        failed := true;
        x := Failed;
      }
    }

    /** What the device needs on the host: the anchor, its host ports, and its files. */
    method Provide(n: Node, host: Host) returns (ok: bool, created: bool)
      requires PortsDistinct(state.webui) && n !in state.webui
      modifies `state, `saved, `cancelled, `failed
      ensures state == old(state).(anchors := state.anchors, webui := state.webui)
      ensures created ==> host !in old(state).anchors
      ensures state.anchors == if created then old(state).anchors + {host} else old(state).anchors
      ensures ok ==> host in state.anchors && WishesMet(state.webui, n, Wishes(topo, n))
      ensures state.webui.Keys <= old(state).webui.Keys + {n} && PortsDistinct(state.webui)
      ensures OthersPorts(old(state), state)
      ensures !ok ==> failed
      ensures Later(old(cancelled), old(failed))
    {
      hide PortsDistinct, WishesMet;
      ok, created := EnsureAnchor(host);
      if !ok { return; }
      ok := AllocateWebUi(n);
      if !ok { return; }
      ok := Remote();
    }

    /** The try block of `add` up to the moment the device enters the runtime table. */
    method AddPrepare(n: Node) returns (p: Progress, cpu: nat, ram: nat)
      requires Agree(state) && n !in state.runtime
      modifies `state, `saved, `cancelled, `failed
      ensures AddReached(old(state), state, n, p) && !p.hasRuntime
      ensures state.webui.Keys <= old(state).webui.Keys + {n} && PortsDistinct(state.webui) && OthersPorts(old(state), state)
      ensures p.exit.Interrupted? ==> state == old(state) && saved == old(saved) && cancelled
      ensures p.exit.Completed? ==> p.host in topo.hosts && state.anchors == old(state).anchors + {p.host}
      ensures p.exit.Completed? ==> WishesMet(state.webui, n, Wishes(topo, n))
      ensures p.exit.Failed? ==> failed
      ensures Later(old(cancelled), old(failed))
    {
      assert PortsDistinct(state.webui) && n !in state.webui;
      hide Agree, PortsDistinct, AddReached, WishesMet;
      ghost var s0 := state;
      cpu, ram := *, *;
      var x, host := ChooseHost();
      if !x.Completed? {
        p := Progress(x, host, false, false, false);
        PreparedReached(s0, state, n, p);
        return;
      }
      var ok, created := Provide(n, host);
      p := Progress(if ok then Completed else Failed, host, created, false, false);
      PreparedReached(s0, state, n, p);
    }

    /** `_update_scheduling`. */
    method UpdateScheduling(plan: Plan)
      requires forall h :: h in topo.hosts ==> h in plan
      modifies `state
      ensures state == old(state).(scheduling := Rescheduled(old(state).scheduling, plan, topo.address, topo.hosts))
    {
      for i := 0 to |topo.hosts|
        invariant state == old(state).(scheduling := Rescheduled(old(state).scheduling, plan, topo.address, topo.hosts[..i]))
      {
        var h := topo.hosts[i];
        var done := topo.hosts[..i + 1];
        assert done[..|done| - 1] == topo.hosts[..i] && done[|done| - 1] == h;
        if plan[h].vd == [] {
          state := state.(scheduling := state.scheduling - {h});
        } else {
          state := state.(scheduling := state.scheduling[h := Schedule(topo.address(h), plan[h].vd, plan[h].cpu, plan[h].ram)]);
        }
      }
      assert topo.hosts[..|topo.hosts|] == topo.hosts;
    }

    /** The device enters the table, with its address reservation and its place in the schedule. */
    method AddInstall(ghost s0: State, n: Node, p: Progress, cpu: nat, ram: nat, reservations: map<Node, string>)
      requires Agree(s0) && n !in s0.runtime && AddReached(s0, state, n, p) && !p.hasRuntime
      requires p.host in topo.hosts && state.anchors == s0.anchors + {p.host}
      requires state.webui.Keys <= s0.webui.Keys + {n} && PortsDistinct(state.webui) && OthersPorts(s0, state)
      requires WishesMet(state.webui, n, Wishes(topo, n))
      modifies `state
      ensures Placed(topo, state, n) && state.reservations == reservations && HasEntered(topo, s0, state, n)
      ensures Agree(state) && AddReached(s0, state, n, p.(hasRuntime := true))
      ensures state.runtime[n].phase.Starting?
    {
      hide Agree, AddReached, Placed, HasEntered, Rescheduled, PortsDistinct, OthersPorts, WishesMet;
      ghost var s1 := state;
      var plan := PlanWith(RuntimePlan(topo.hosts, state), n, p.host, cpu, ram);
      state := Added(state, n, Runtime(Starting, p.host, true, "")).(reservations := reservations);
      UpdateScheduling(plan);
      InstalledIs(topo, s0, s1, n, p, cpu, ram, reservations);
    }

    /** The rest of the try block: upload, deploy and wait. */
    method AddContainer(ghost s1: State, n: Node) returns (x: Exit)
      requires n in state.runtime && Agree(state) && OnlyDevice(s1, state, n)
      modifies `state, `saved, `cancelled, `failed
      ensures n in state.runtime && Agree(state) && OnlyDevice(s1, state, n) && state.links == old(state.links)
      ensures x.Completed? ==> state.runtime[n].lastError == ""
      ensures x.Interrupted? ==> cancelled
      ensures x.Failed? ==> failed
      ensures Later(old(cancelled), old(failed))
    {
      hide Agree, OnlyDevice;
      SaveState();
      var stop := Checkpoint();
      if stop { return Interrupted; }
      x := CallThenCheck();
      if !x.Completed? { return; }
      x := CallThenCheck();
      if !x.Completed? { return; }
      x := CallThenCheck();
      if !x.Completed? { return; }
      var routed := Remote();
      if !routed { return Failed; }
      SetPhase(s1, n, Reconciling, "");
      SaveState();
    }

    /** The list is replaced by new records; the old records stay as they are. */
    method ReplaceLinks(ghost s1: State, n: Node) returns (ok: bool)
      requires n in state.runtime && Agree(state) && OnlyDevice(s1, state, n) && RefsOk(state.links, records, nextRef)
      modifies `state, `records, `nextRef, `cancelled, `failed
      ensures Agree(state) && OnlyDevice(s1, state, n) && RefsOk(state.links, records, nextRef)
      ensures Elsewhere(old(records), records, []) && state.runtime == old(state.runtime)
      ensures if ok then forall r :: r in state.links ==> r !in old(records) else state.links == old(state.links)
      ensures !ok ==> failed
      ensures Later(old(cancelled), old(failed))
    {
      hide Agree, RefsOk, Elsewhere;
      var rebuilt := RebuildLinks();
      ok := Remote();
      if ok {
        state := state.(links := rebuilt);
        PhaseKeepsAgree(old(state), state);
      }
    }

    /** Reconciling the new list leaves the old records alone. */
    method ReconcileNew(ghost before: Records)
      requires RefsOk(state.links, records, nextRef) && Elsewhere(before, records, [])
      requires forall r :: r in state.links ==> r !in before
      modifies `records
      ensures RefsOk(state.links, records, nextRef) && Elsewhere(before, records, [])
    {
      DisturbLinks(state.links);
    }

    /** Rebuild the links, reconcile them and the shared services, and record where the device was placed. */
    method AddLinks(ghost s1: State, n: Node) returns (x: Exit, replaced: bool)
      requires n in state.runtime && Agree(state) && OnlyDevice(s1, state, n) && RefsOk(state.links, records, nextRef)
      modifies `state, `records, `nextRef, `saved, `cancelled, `failed
      ensures n in state.runtime && Agree(state) && OnlyDevice(s1, state, n) && RefsOk(state.links, records, nextRef)
      ensures Elsewhere(old(records), records, [])
      ensures if replaced then forall r :: r in state.links ==> r !in old(records) else state.links == old(state.links)
      ensures x.Completed? ==> state.runtime[n] == old(state.runtime)[n].(phase := Running) && saved == state
      ensures x.Interrupted? ==> cancelled
      ensures x.Failed? ==> failed
      ensures Later(old(cancelled), old(failed))
    {
      hide Agree, OnlyDevice, RefsOk, Elsewhere;
      ghost var before := records;
      replaced := ReplaceLinks(s1, n);
      if !replaced { return Failed, false; }
      var stop := Checkpoint();
      if stop { return Interrupted, true; }
      ReconcileNew(before);
      x := CallThenCheck();
      if !x.Completed? { return x, true; }
      x := CallThenCheck();
      if !x.Completed? { return x, true; }
      SetPhase(s1, n, Running, state.runtime[n].lastError);
      SaveState();
      var recorded := Remote();
      if !recorded { return Failed, true; }
      return Completed, true;
    }

    /** The hand-written rollback of a failed hot-add. */
    method Rollback(s0: State, n: Node, p: Progress)
      requires Agree(s0) && n !in s0.runtime && AddReached(s0, state, n, p)
      modifies `state, `records, `saved, `cancelled, `failed
      ensures state == s0 && saved == s0
      ensures records == if p.hasRuntime then Detached(old(records), old(state.links), n) else old(records)
      ensures Later(old(cancelled), old(failed))
    {
      UndoneIsBefore(s0, state, n, p);
      if p.hasRuntime {
        DetachNodeLinks(n);
      }
      state := state.(runtime := state.runtime - {n}, order := Without(state.order, n));
      state := state.(links := s0.links, reservations := s0.reservations, scheduling := s0.scheduling, webui := s0.webui);
      if p.createdAnchor {
        state := state.(anchors := state.anchors - {p.host});
      }
      var reconciled := Remote();
      SaveState();
    }

    /** The try block of `add`. */
    method AddSteps(n: Node, reservations: map<Node, string>) returns (p: Progress)
      requires Valid() && n !in state.runtime
      modifies `state, `records, `nextRef, `saved, `cancelled, `failed
      ensures AddReached(old(state), state, n, p) && RefsOk(state.links, records, nextRef)
      ensures Elsewhere(old(records), records, [])
      ensures p.hasRuntime ==> n in state.runtime && Agree(state) && Placed(topo, state, n) && state.reservations == reservations
      ensures p.hasRuntime ==> HasEntered(topo, old(state), state, n)
      ensures p.replaced ==> forall r :: r in state.links ==> r !in old(records)
      ensures p.exit.Interrupted? ==> cancelled && (!p.hasRuntime ==> state == old(state) && saved == old(saved))
      ensures p.exit.Completed? ==> p.hasRuntime && state.runtime[n].phase.Running? && state.runtime[n].lastError == "" && saved == state
      ensures p.exit.Failed? ==> failed
      ensures Later(old(cancelled), old(failed))
    {
      hide WishesMet, PortsDistinct, Wishes, Placed, HasEntered, OthersPorts;
      ghost var s0 := state;
      var cpu, ram;
      p, cpu, ram := AddPrepare(n);
      if !p.exit.Completed? {
        return;
      }
      AddInstall(s0, n, p, cpu, ram, reservations);
      p := AddDeploy(s0, n, p.(hasRuntime := true));
    }

    /** The try block of `add` once the device is in the table. */
    method AddDeploy(ghost s0: State, n: Node, reached: Progress) returns (p: Progress)
      requires AddReached(s0, state, n, reached) && reached.hasRuntime && !reached.replaced
      requires Agree(state) && Placed(topo, state, n) && RefsOk(state.links, records, nextRef) && HasEntered(topo, s0, state, n)
      modifies `state, `records, `nextRef, `saved, `cancelled, `failed
      ensures AddReached(s0, state, n, p) && RefsOk(state.links, records, nextRef) && p.hasRuntime
      ensures Elsewhere(old(records), records, [])
      ensures n in state.runtime && Agree(state) && Placed(topo, state, n) && state.reservations == old(state.reservations)
      ensures HasEntered(topo, s0, state, n)
      ensures p.replaced ==> forall r :: r in state.links ==> r !in old(records)
      ensures p.exit.Interrupted? ==> cancelled
      ensures p.exit.Completed? ==> state.runtime[n].phase.Running? && state.runtime[n].lastError == "" && saved == state
      ensures p.exit.Failed? ==> failed
      ensures Later(old(cancelled), old(failed))
    {
      ghost var s1 := state;
      SameDevice(s1, n);
      SameRecords(records);
      hide Agree, AddReached, OnlyDevice, RefsOk, Elsewhere, HasEntered;
      var x := AddContainer(s1, n);
      var replaced := false;
      if x.Completed? {
        x, replaced := AddLinks(s1, n);
      }
      p := reached.(exit := x, replaced := replaced);
      StillReached(s0, s1, state, n, reached, replaced);
      StillPlaced(topo, s1, state, n);
      StillEntered(topo, s0, s1, state, n);
    }

    /** Add a device to the running lab.  If the cancel was seen at a checkpoint or made a call fail (`seen`), the
        device is absent and nothing else changed, or it is cleanly stopped.  If the addition failed without a cancel,
        the state is what it was; the link records are too, except when the failure came after the device entered the
        table and before the new link list replaced the old one (`p`): then the rollback has detached the device's
        old links, and they are as before exactly if they were already down without an error. */
    method Add(n: Node) returns (e: Ending, ghost seen: bool, ghost p: Progress)
      requires Valid()
      modifies `state, `records, `nextRef, `saved, `cancelled, `failed
      ensures Valid()
      ensures old(Settled(state)) ==> Settled(state)
      ensures saved == state || saved == old(saved)
      ensures seen ==> state == old(state) || CleanlyStopped(state, records, n)
      ensures old(cancelled) ==> seen
      ensures n !in old(state.runtime) && e.Raised? ==> state == old(state)
      ensures n !in old(state.runtime) && e.Raised? ==>
        && RolledBack(old(records), records, old(state.links), n, p)
        && ((forall r :: r in old(state.links) ==> records[r] == old(records)[r]) <==>
              !(p.hasRuntime && !p.replaced) || AlreadyDown(old(records), old(state.links), n))
      ensures n !in old(state.runtime) && n in state.runtime ==> Placed(topo, state, n) && HasEntered(topo, old(state), state, n)
      ensures n in old(state.runtime) ==> state == old(state) || OnlyDevice(old(state), state, n)
      ensures n in old(state.runtime) && !seen && e.Raised? && state != old(state) ==> state.runtime[n].phase.Error?
      ensures e.Returned? && !seen ==> n in state.runtime && state.runtime[n].phase.Running?
      ensures n !in old(state.runtime) && e.Returned? && !seen ==> state.runtime[n].lastError == "" && saved == state
      ensures (seen ==> cancelled) && (old(MayAdd(n)) && !cancelled && !failed ==> e.Returned?)
      ensures Later(old(cancelled), old(failed))
      decreases 1
    {
      p := Progress(Failed, "", false, false, false);
      var stop := Checkpoint();
      if stop {
        return Raised, true, p;
      }
      if !state.deployed || !state.perVd {
        return Raised, false, p;
      }
      if n in state.runtime {
        e, seen := Start(n);
        return;
      }
      if n !in topo.nodes {
        return Raised, false, p;
      }
      e, seen, p := AddNew(n);
      if e.Raised? {
        LinksRestored(old(records), records, old(state.links), n, p);
      }
    }

    method AddNew(n: Node) returns (e: Ending, seen: bool, p: Progress)
      requires Valid() && n !in state.runtime
      modifies `state, `records, `nextRef, `saved, `cancelled, `failed
      ensures Valid()
      ensures old(Settled(state)) ==> Settled(state)
      ensures saved == state || saved == old(saved)
      ensures seen ==> state == old(state) || CleanlyStopped(state, records, n)
      ensures e.Raised? ==> state == old(state)
      ensures e.Raised? ==> RolledBack(old(records), records, old(state.links), n, p)
      ensures e.Returned? && !seen ==>
        n in state.runtime && state.runtime[n].phase.Running? && state.runtime[n].lastError == "" && saved == state
      ensures n in state.runtime ==> Placed(topo, state, n) && HasEntered(topo, old(state), state, n)
      ensures (e.Raised? ==> failed) && (seen ==> cancelled)
      ensures Later(old(cancelled), old(failed))
    {
      assert forall r :: r in state.links ==> r in records;
      hide Agree, AllPartial, TableOk, AddReached, Placed, Settled, OnlyDevice, Detached, Elsewhere, RolledBack, RefsOk, HasEntered;
      var s0 := state;
      ghost var before := records;
      var reservations: map<Node, string> := *;
      p := AddSteps(n, reservations);
      if p.exit.Completed? {
        SettlesAfter(s0, state, state, n, p);
        return Returned, false, p;
      }
      if p.exit.Interrupted? && !p.hasRuntime {
        return Returned, true, p;
      }
      e, seen := EndAdd(s0, before, n, p);
    }

    /** The two handlers of `add`, once something has been changed. */
    method EndAdd(s0: State, ghost before: Records, n: Node, p: Progress) returns (e: Ending, seen: bool)
      requires Agree(s0) && n !in s0.runtime && AddReached(s0, state, n, p) && RefsOk(state.links, records, nextRef)
      requires (forall r :: r in s0.links ==> r in before) && Elsewhere(before, records, [])
      requires p.hasRuntime ==> n in state.runtime && Agree(state) && Placed(topo, state, n) && HasEntered(topo, s0, state, n)
      requires p.replaced ==> forall r :: r in state.links ==> r !in before
      modifies `state, `records, `nextRef, `saved, `cancelled, `failed
      ensures Valid() && saved == state && (Settled(s0) ==> Settled(state))
      ensures if e.Returned? then seen && cancelled && n in state.runtime && CleanlyStopped(state, records, n)
                                  && Placed(topo, state, n) && HasEntered(topo, s0, state, n)
              else state == s0 && RolledBack(before, records, s0.links, n, p) && (seen ==> cancelled && !p.hasRuntime)
      ensures (old(cancelled) ==> seen) && Later(old(cancelled), old(failed))
    {
      hide Agree, AllPartial, TableOk, AddReached, Placed, Settled, OnlyDevice, Detached, Elsewhere, RolledBack, RefsOk, HasEntered;
      ghost var s, mid, links := state, records, state.links;
      Wait();
      if cancelled && p.hasRuntime {
        CancelStarted(n);
        StillPlaced(topo, s, state, n);
        StillEntered(topo, s0, s, state, n);
        SettlesAfter(s0, s, state, n, p);
        return Returned, true;
      }
      seen := cancelled;
      LinksKept(s0, s, n, p);
      Rollback(s0, n, p);
      RollbackRecords(before, mid, records, s0.links, links, n, p, nextRef);
      return Raised, seen;
    }

    // ---- Remove ----

    /** Keep only the links that do not touch the device. */
    method DropLinks(n: Node)
      requires RefsOk(state.links, records, nextRef)
      modifies `state
      ensures state == old(state).(links := LinksLeft(old(state).links, records, n)) && RefsOk(state.links, records, nextRef)
    {
      var kept: seq<Ref>, links := [], state.links;
      for i := 0 to |links|
        invariant state == old(state) && kept == LinksLeft(links[..i], records, n)
      {
        LeftNext(links, i, records, n);
        if n !in records[links[i]].ends {
          kept := kept + [links[i]];
        }
      }
      assert links[..|links|] == links;
      LeftMembers(links, records, n);
      state := state.(links := kept);
    }

    /** Take the device out of the table, the web ports, the schedule and, if it was the last there, the anchors. */
    method DropDevice(n: Node)
      requires n in state.runtime && Agree(state)
      modifies `state
      ensures state == Dropped(old(state), n) && Agree(state)
    {
      var h := state.runtime[n].host;
      DropKeepsAgree(state, n);
      state := state.(runtime := state.runtime - {n}, order := Without(state.order, n));
      state := state.(webui := state.webui - {n});
      if h in state.scheduling {
        var left := Without(state.scheduling[h].vd, n);
        if left == [] {
          state := state.(scheduling := state.scheduling - {h});
        } else {
          state := state.(scheduling := state.scheduling[h := state.scheduling[h].(vd := left)]);
        }
      }
      if !exists m | m in state.runtime :: state.runtime[m].host == h {
        state := state.(anchors := state.anchors - {h});
      }
    }

    /** Remove a device.  When it returns, no index, list or record in use mentions the device any more. */
    method Remove(n: Node) returns (e: Ending)
      requires Valid()
      modifies `state, `records, `nextRef, `saved, `cancelled, `failed
      ensures Valid()
      ensures old(Settled(state)) ==> Settled(state)
      ensures old(Settled(state)) && old(Settled(saved)) ==> Settled(saved)
      ensures e.Returned? ==> saved == state && TakenOut(old(state), state, n)
      ensures n in state.runtime ==> state == old(state) || OnlyDevice(old(state), state, n)
      ensures n in old(state.runtime) && n !in state.runtime ==> TakenOut(old(state), state, n)
      ensures n !in old(state.runtime) ==> e.Raised? && state == old(state)
      ensures state.links == if n in old(state.runtime) && n !in state.runtime
                             then LinksLeft(old(state).links, old(records), n) else old(state).links
      ensures OnlyItsLinks(old(records), records, old(state).links, n)
      ensures old(MayStop(n)) && e.Raised? ==> failed
      ensures Later(old(cancelled), old(failed))
    {
      assert OnlyItsLinks(records, records, state.links, n);
      hide Agree, Settled, RefsOk, LinksPartial, TakenOut, LinksLeft, OnlyItsLinks;
      if n !in state.runtime || !state.deployed || !state.runtime[n].perVd {
        return Raised;
      }
      if !state.runtime[n].phase.Stopped? {
        e := Stop(n, true);
        if e.Raised? {
          return;
        }
      }
      var connected := Remote();
      if !connected {
        return Raised;
      }
      LeftSameEnds(state.links, old(records), records, old(state).links, n);
      ghost var mid := state;
      e := Unregister(n);
      if mid != old(state) {
        ThenTakenOut(old(state), mid, state, n);
      }
    }

    method Unregister(n: Node) returns (e: Ending)
      requires Valid() && n in state.runtime
      modifies `state, `saved, `cancelled, `failed
      ensures Valid()
      ensures old(Settled(state)) ==> Settled(state)
      ensures saved == state || saved == old(saved)
      ensures TakenOut(old(state), state, n) && n !in state.runtime && state.links == LinksLeft(old(state).links, records, n)
      ensures e.Returned? ==> saved == state
      ensures e.Raised? ==> failed
      ensures Later(old(cancelled), old(failed))
    {
      ghost var s := state;
      DropLinks(n);
      PhaseKeepsAgree(s, state);
      DropDevice(n);
      DroppedIsTakenOut(s, n, LinksLeft(s.links, records, n));
      hide Agree;
      var ok := Remote();
      if !ok {
        return Raised;
      }
      SaveState();
      ok := Remote();
      return if ok then Returned else Raised;
    }

    // ---- Any sequence of operations ----

    /** Every request works on what was last saved, with its own cancel flag. */
    method Reload()
      requires Valid()
      modifies `state, `records, `nextRef, `cancelled, `failed
      ensures Valid() && state == saved.(links := state.links) && !cancelled
    {
      var links := RebuildLinks();
      state := saved.(links := links);
      PhaseKeepsAgree(saved, state);
      cancelled := false;
    }

    method Serve(r: Request)
      requires Valid() && Settled(saved)
      modifies `state, `records, `nextRef, `saved, `cancelled, `failed
      ensures Valid() && Settled(state) && Settled(saved)
    {
      Reload();
      match r
      case StartNode(n) =>
        var e;
        ghost var seen;
        e, seen := Start(n);
      case AddNode(n) =>
        var e;
        ghost var seen, p;
        e, seen, p := Add(n);
      case StopNode(n, force) =>
        var e := Stop(n, force);
      case RemoveNode(n) =>
        var e := Remove(n);
    }

    /** Over any sequence of requests, whatever fails and whenever a cancel arrives, the indexes of the working and
        of the saved state agree between requests, and no device is left in a phase that an operation passes through. */
    method ServeAll(requests: seq<Request>)
      requires Valid() && Settled(saved)
      modifies `state, `records, `nextRef, `saved, `cancelled, `failed
      ensures Valid() && Agree(state) && Agree(saved) && Settled(saved)
      ensures requests != [] ==> Settled(state)
    {
      for i := 0 to |requests|
        invariant Valid() && Settled(saved) && (i > 0 ==> Settled(state))
      {
        hide Agree, Settled;
        Serve(requests[i]);
      }
    }
  }
}
