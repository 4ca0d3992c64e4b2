/** Editing a topology file (controllers/topology_controller.py, models/topology.py) and the stable device ids that
    its sidecar carries (services/containerlab_service.py). */
module TopologyEdit {
  import opened Wrappers
  import opened Ordering

  type Name = string
  type Uuid = nat
  type Sidecar = map<Name, string>

  /** `data` is everything about a node other than its name and kind. */
  datatype Node = Node(name: Name, kind: string, data: string)

  datatype Link = Link(source: Name, sourceIface: string, target: Name, targetIface: string)

  /** A topology with its sidecars; `next` is the next identifier that has never been handed out. */
  datatype Topology = Topology(nodes: seq<Node>, links: seq<Link>, ids: map<Name, Uuid>,
                               webui: Sidecar, overrides: Sidecar, features: Sidecar, next: Uuid)

  /** A device with a disk, and so with an identifier. */
  predicate Deployable(n: Node) {
    n.kind != "_real_net"
  }

  function Names(nodes: seq<Node>): (r: seq<Name>)
    ensures |r| == |nodes| && forall i :: 0 <= i < |r| ==> r[i] == nodes[i].name
  {
    seq(|nodes|, i requires 0 <= i < |nodes| => nodes[i].name)
  }

  predicate HasNode(t: Topology, name: Name) {
    exists i :: 0 <= i < |t.nodes| && t.nodes[i].name == name
  }

  predicate Listed(nodes: seq<Node>, name: Name) {
    exists i :: 0 <= i < |nodes| && nodes[i].name == name && Deployable(nodes[i])
  }

  predicate HasDevice(t: Topology, name: Name) {
    Listed(t.nodes, name)
  }

  // ---- Identifiers ----

  /** `_ensure_node_ids`: every device keeps its identifier or gets a new one; nothing else has one. */
  function Ensured(nodes: seq<Node>, ids: map<Name, Uuid>, next: Uuid): (r: (map<Name, Uuid>, Uuid))
    ensures next <= r.1
  {
    if nodes == [] then (map[], next)
    else
      var (done, unused) := Ensured(nodes[..|nodes| - 1], ids, next);
      var n := nodes[|nodes| - 1];
      if !Deployable(n) then (done, unused)
      else if n.name in ids then (done[n.name := ids[n.name]], unused)
      else (done[n.name := unused], unused + 1)
  }

  function WithIds(t: Topology): Topology {
    var (ids, next) := Ensured(t.nodes, t.ids, t.next);
    t.(ids := ids, next := next)
  }

  /** Identifiers are distinct and have all been handed out. */
  ghost predicate IdsOk(ids: map<Name, Uuid>, next: Uuid) {
    && (forall n, m :: n in ids && m in ids && n != m ==> ids[n] != ids[m])
    && (forall n :: n in ids ==> ids[n] < next)
  }

  ghost predicate NamesOk(t: Topology) {
    Distinct(Names(t.nodes))
  }

  /** A topology as it is after a save: the devices, and only they, have identifiers, all different. */
  ghost predicate Saved(t: Topology) {
    NamesOk(t) && IdsOk(t.ids, t.next) && forall n :: n in t.ids <==> HasDevice(t, n)
  }

  lemma {:induction false} EnsuredMembers(nodes: seq<Node>, ids: map<Name, Uuid>, next: Uuid, n: Name)
    ensures n in Ensured(nodes, ids, next).0 <==> Listed(nodes, n)
  {
    if nodes != [] {
      var init, last := nodes[..|nodes| - 1], nodes[|nodes| - 1];
      EnsuredMembers(init, ids, next, n);
      assert nodes == init + [last];
      if Listed(init, n) {
        var i :| 0 <= i < |init| && init[i].name == n && Deployable(init[i]);
        assert nodes[i] == init[i];
      }
    }
  }

  lemma NewcomerIsNew(nodes: seq<Node>)
    requires nodes != [] && Distinct(Names(nodes))
    ensures Distinct(Names(nodes[..|nodes| - 1])) && !Listed(nodes[..|nodes| - 1], nodes[|nodes| - 1].name)
  {
    var init := nodes[..|nodes| - 1];
    assert Names(init) == Names(nodes)[..|init|];
    assert forall i :: 0 <= i < |init| ==> Names(nodes)[i] != Names(nodes)[|init|];
  }

  /** Known identifiers stay, and new ones come from the unused. */
  ghost predicate Extends(r: map<Name, Uuid>, unused: Uuid, ids: map<Name, Uuid>, next: Uuid) {
    && (forall n :: n in r && n in ids ==> r[n] == ids[n])
    && (forall n :: n in r && n !in ids ==> next <= r[n])
    && IdsOk(r, unused)
  }

  lemma ExtendsOneMore(r: map<Name, Uuid>, unused: Uuid, ids: map<Name, Uuid>, next: Uuid, n: Name)
    requires Extends(r, unused, ids, next) && n !in r && IdsOk(ids, next) && next <= unused
    ensures n in ids ==> Extends(r[n := ids[n]], unused, ids, next)
    ensures n !in ids ==> Extends(r[n := unused], unused + 1, ids, next)
  {
    assert n in ids ==> forall m :: m in r ==> r[m] != ids[n];
  }

  lemma {:induction false} EnsuredExtends(nodes: seq<Node>, ids: map<Name, Uuid>, next: Uuid)
    requires Distinct(Names(nodes)) && IdsOk(ids, next)
    ensures Extends(Ensured(nodes, ids, next).0, Ensured(nodes, ids, next).1, ids, next)
  {
    hide Extends, IdsOk;
    if nodes == [] {
      ExtendsEmpty(ids, next);
    } else {
      var init, n := nodes[..|nodes| - 1], nodes[|nodes| - 1];
      NewcomerIsNew(nodes);
      EnsuredExtends(init, ids, next);
      EnsuredMembers(init, ids, next, n.name);
      ExtendsOneMore(Ensured(init, ids, next).0, Ensured(init, ids, next).1, ids, next, n.name);
    }
  }

  lemma ExtendsEmpty(ids: map<Name, Uuid>, next: Uuid)
    ensures Extends(map[], next, ids, next)
  {
  }

  /** The loop of `_ensure_node_ids`. */
  method EnsureNodeIds(nodes: seq<Node>, ids: map<Name, Uuid>, next: Uuid) returns (current: map<Name, Uuid>, unused: Uuid)
    ensures (current, unused) == Ensured(nodes, ids, next)
  {
    current, unused := map[], next;
    for i := 0 to |nodes|
      invariant (current, unused) == Ensured(nodes[..i], ids, next)
    {
      var n := nodes[i];
      assert nodes[..i + 1][..i] == nodes[..i];
      if Deployable(n) {
        if n.name in ids {
          current := current[n.name := ids[n.name]];
        } else {
          current := current[n.name := unused];
          unused := unused + 1;
        }
      }
    }
    assert nodes[..|nodes|] == nodes;
  }

  // ---- Saving ----

  function Kept(m: Sidecar, nodes: seq<Node>): Sidecar {
    map n | n in m && n in Names(nodes) && m[n] != "" :: m[n]
  }

  /** An interface left open is written as the first one. */
  function WithDefault(iface: string): string {
    if iface == "" then "eth1" else iface
  }

  function SavedLinks(links: seq<Link>): (r: seq<Link>)
    ensures |r| == |links| && forall i :: 0 <= i < |r| ==>
      r[i] == links[i].(sourceIface := WithDefault(links[i].sourceIface), targetIface := WithDefault(links[i].targetIface))
  {
    seq(|links|, i requires 0 <= i < |links| =>
      links[i].(sourceIface := WithDefault(links[i].sourceIface), targetIface := WithDefault(links[i].targetIface)))
  }

  /** `save_topology_to` followed by the load of the next operation. */
  function Stored(t: Topology): Topology {
    var s := WithIds(t);
    s.(links := SavedLinks(t.links), webui := Kept(t.webui, t.nodes), overrides := Kept(t.overrides, t.nodes),
       features := Kept(t.features, t.nodes))
  }

  lemma StoredIsSaved(t: Topology)
    requires NamesOk(t) && IdsOk(t.ids, t.next)
    ensures Saved(Stored(t))
    ensures forall n :: n in t.ids && HasDevice(t, n) ==> n in Stored(t).ids && Stored(t).ids[n] == t.ids[n]
  {
    EnsuredExtends(t.nodes, t.ids, t.next);
    forall n ensures n in Stored(t).ids <==> HasDevice(t, n) {
      EnsuredMembers(t.nodes, t.ids, t.next, n);
    }
  }

  // ---- Renaming ----

  function Sub(name: Name, was: Name, now: Name): Name {
    if name == was then now else name
  }

  function RenamedNodes(nodes: seq<Node>, was: Name, now: Name): (r: seq<Node>)
    ensures |r| == |nodes| && forall i :: 0 <= i < |r| ==> r[i] == nodes[i].(name := Sub(nodes[i].name, was, now))
  {
    seq(|nodes|, i requires 0 <= i < |nodes| => nodes[i].(name := Sub(nodes[i].name, was, now)))
  }

  function RenamedLink(l: Link, was: Name, now: Name): Link {
    l.(source := Sub(l.source, was, now), target := Sub(l.target, was, now))
  }

  function RenamedLinks(links: seq<Link>, was: Name, now: Name): (r: seq<Link>)
    ensures |r| == |links| && forall i :: 0 <= i < |r| ==> r[i] == RenamedLink(links[i], was, now)
  {
    seq(|links|, i requires 0 <= i < |links| => RenamedLink(links[i], was, now))
  }

  /** `m[new] = m.pop(old)` if the old name is a key. */
  function Rekeyed<V>(m: map<Name, V>, was: Name, now: Name): map<Name, V> {
    if was in m then (m - {was})[now := m[was]] else m
  }

  function Renamed(t: Topology, was: Name, now: Name): Topology {
    t.(nodes := RenamedNodes(t.nodes, was, now), links := RenamedLinks(t.links, was, now),
       ids := Rekeyed(t.ids, was, now), webui := Rekeyed(t.webui, was, now),
       overrides := Rekeyed(t.overrides, was, now), features := Rekeyed(t.features, was, now))
  }

  /** Every entry moves with its name, and there are no others. */
  lemma RekeyedIsSubstitution<V>(m: map<Name, V>, was: Name, now: Name)
    requires now !in m && was != now
    ensures Moved(m, Rekeyed(m, was, now), was, now) && was !in Rekeyed(m, was, now)
  {
    var r := Rekeyed(m, was, now);
    if was in m {
      assert forall n :: n in r <==> n == now || (n in m && n != was);
      assert forall n :: n in m && n != was ==> r[n] == m[n];
      assert r[now] == m[was];
      hide Rekeyed;
    }
  }

  lemma RekeyedBack<V>(m: map<Name, V>, was: Name, now: Name)
    requires now !in m && was != now
    ensures Rekeyed(Rekeyed(m, was, now), now, was) == m
  {
  }

  /** No node, link end or sidecar entry has the name. */
  ghost predicate Unused(t: Topology, name: Name) {
    && !HasNode(t, name)
    && (forall i :: 0 <= i < |t.links| ==> t.links[i].source != name && t.links[i].target != name)
    && name !in t.ids && name !in t.webui && name !in t.overrides && name !in t.features
  }

  /** The entries of `r` are those of `m`, each under its name after the renaming. */
  ghost predicate Moved<V>(m: map<Name, V>, r: map<Name, V>, was: Name, now: Name) {
    && (forall n :: n in m ==> Sub(n, was, now) in r && r[Sub(n, was, now)] == m[n])
    && (forall k :: k in r ==> Sub(k, now, was) in m && Sub(Sub(k, now, was), was, now) == k)
  }

  /** Renaming to an unused name changes that name wherever it occurs, in nodes, link ends and every sidecar, and
      nothing else: the same nodes and links in the same order, and the same sidecar entries. */
  lemma RenameIsSubstitution(t: Topology, was: Name, now: Name)
    requires Unused(t, now) && was != now
    ensures var r := Renamed(t, was, now);
      && Unused(r, was)
      && |r.nodes| == |t.nodes| && |r.links| == |t.links| && r.next == t.next
      && (forall i :: 0 <= i < |t.nodes| ==> r.nodes[i] == Node(Sub(t.nodes[i].name, was, now), t.nodes[i].kind, t.nodes[i].data))
      && (forall i :: 0 <= i < |t.links| ==>
            r.links[i] == Link(Sub(t.links[i].source, was, now), t.links[i].sourceIface,
                               Sub(t.links[i].target, was, now), t.links[i].targetIface))
      && Moved(t.ids, r.ids, was, now) && Moved(t.webui, r.webui, was, now)
      && Moved(t.overrides, r.overrides, was, now) && Moved(t.features, r.features, was, now)
  {
    RekeyedIsSubstitution(t.ids, was, now);
    RekeyedIsSubstitution(t.webui, was, now);
    RekeyedIsSubstitution(t.overrides, was, now);
    RekeyedIsSubstitution(t.features, was, now);
  }

  /** Sidecar entries belong to nodes, as after every save. */
  ghost predicate SidecarsOk(t: Topology) {
    forall n :: n in t.webui || n in t.overrides || n in t.features ==> HasNode(t, n)
  }

  /** Every link is between nodes of the topology. */
  ghost predicate NoDangling(t: Topology) {
    forall i :: 0 <= i < |t.links| ==> HasNode(t, t.links[i].source) && HasNode(t, t.links[i].target)
  }

  /** In a stored topology without dangling links, a name is unused as soon as no node has it, which is what is checked
      before a renaming. */
  lemma UnusedIsNoNode(t: Topology, name: Name)
    requires Saved(t) && SidecarsOk(t) && NoDangling(t)
    ensures Unused(t, name) <==> !HasNode(t, name)
  {
    if !HasNode(t, name) {
      NoIdWithoutNode(t, name);
    }
  }

  /** Renaming to an unused name and back gives the topology it began with. */
  lemma RenameBack(t: Topology, was: Name, now: Name)
    requires Unused(t, now) && was != now
    ensures Renamed(Renamed(t, was, now), now, was) == t
  {
    RekeyedBack(t.ids, was, now);
    RekeyedBack(t.webui, was, now);
    RekeyedBack(t.overrides, was, now);
    RekeyedBack(t.features, was, now);
    var r := Renamed(t, was, now);
    assert RenamedNodes(r.nodes, now, was) == t.nodes;
    assert RenamedLinks(r.links, now, was) == t.links;
  }

  lemma RenamedIds(t: Topology, was: Name, now: Name)
    requires NamesOk(t) && IdsOk(t.ids, t.next) && !HasNode(t, now) && now !in t.ids && was != now
    ensures var r := Renamed(t, was, now); NamesOk(r) && IdsOk(r.ids, r.next)
  {
    var r := Renamed(t, was, now);
    forall i, j | 0 <= i < j < |r.nodes| ensures Names(r.nodes)[i] != Names(r.nodes)[j] {
      assert Names(t.nodes)[i] != Names(t.nodes)[j];
      assert t.nodes[i].name != now && t.nodes[j].name != now;
    }
  }

  // ---- Operations ----

  /** What the normalization of a RealNet router makes of its data, or `None` if it refuses; it depends on the other labs
      and on chance, and so is any function. */
  type Norm = string -> Option<string>

  /** `Edit` replaces what a node is and may rename it; `Touch` loads and saves.  `norm` is the normalization of a router
      that is added or edited, and `again` the one that an edit makes of every router before the save. */
  datatype Op =
    | Add(node: Node, norm: Norm)
    | Edit(name: Name, kind: string, data: string, to: Option<Name>, norm: Norm, again: Norm)
    | Remove(name: Name)
    | Touch

  /** `ensure_single_realnet`: the routers all have one name. */
  predicate OneRouter(nodes: seq<Node>) {
    forall i, j :: 0 <= i < |nodes| && 0 <= j < |nodes| && !Deployable(nodes[i]) && !Deployable(nodes[j]) ==>
      nodes[i].name == nodes[j].name
  }

  /** The nodes that the check looks at before a router is added; a name that is empty is left out. */
  function WithNew(nodes: seq<Node>, n: Node): seq<Node> {
    if n.name == "" then nodes else nodes + [n]
  }

  /** The node with its data normalized, if it is a router and the normalization accepts it. */
  function NormalNode(n: Node, norm: Norm): (r: Node)
    ensures r.name == n.name && r.kind == n.kind
  {
    if Deployable(n) || norm(n.data).None? then n else n.(data := norm(n.data).value)
  }

  predicate Accepted(n: Node, norm: Norm) {
    Deployable(n) || norm(n.data).Some?
  }

  predicate AllAccepted(nodes: seq<Node>, norm: Norm) {
    forall i :: 0 <= i < |nodes| ==> Accepted(nodes[i], norm)
  }

  /** The loop of `_prepare_realnet_bgp`. */
  function NormalNodes(nodes: seq<Node>, norm: Norm): (r: seq<Node>)
    ensures |r| == |nodes| && forall i :: 0 <= i < |r| ==> r[i] == NormalNode(nodes[i], norm)
  {
    seq(|nodes|, i requires 0 <= i < |nodes| => NormalNode(nodes[i], norm))
  }

  function EditedNodes(nodes: seq<Node>, name: Name, kind: string, data: string): (r: seq<Node>)
    ensures |r| == |nodes| && forall i :: 0 <= i < |r| ==>
      r[i] == if nodes[i].name == name then Node(name, kind, data) else nodes[i]
  {
    seq(|nodes|, i requires 0 <= i < |nodes| => if nodes[i].name == name then Node(name, kind, data) else nodes[i])
  }

  function OtherNodes(nodes: seq<Node>, name: Name): seq<Node> {
    if nodes == [] then [] else (if nodes[0].name == name then [] else [nodes[0]]) + OtherNodes(nodes[1..], name)
  }

  function OtherLinks(links: seq<Link>, name: Name): seq<Link> {
    if links == [] then []
    else (if links[0].source == name || links[0].target == name then [] else [links[0]]) + OtherLinks(links[1..], name)
  }

  /** `Topology.remove_node`. */
  function Removed(t: Topology, name: Name): Topology {
    t.(nodes := OtherNodes(t.nodes, name), links := OtherLinks(t.links, name), ids := t.ids - {name},
       webui := t.webui - {name}, overrides := t.overrides - {name}, features := t.features - {name})
  }

  /** `add_node` with a new identifier for a device that has none. */
  function Appended(t: Topology, n: Node): Topology {
    var s := t.(nodes := t.nodes + [n]);
    if Deployable(n) && n.name !in t.ids then s.(ids := t.ids[n.name := t.next], next := t.next + 1) else s
  }

  predicate Renames(op: Op) {
    op.Edit? && op.to.Some? && op.to.value != "" && op.to.value != op.name
  }

  /** The topology as an edit has changed it, before the last look at its routers. */
  function Edited(t: Topology, op: Op): Topology
    requires op.Edit?
  {
    var n := NormalNode(Node(op.name, op.kind, op.data), op.norm);
    var e := t.(nodes := EditedNodes(t.nodes, op.name, op.kind, n.data));
    if Renames(op) then Renamed(e, op.name, op.to.value) else e
  }

  predicate Refuses(t: Topology, op: Op) {
    match op
    case Add(n, norm) =>
      HasNode(t, n.name) || (!Deployable(n) && !OneRouter(WithNew(t.nodes, n))) || !Accepted(n, norm)
    case Edit(name, kind, data, to, norm, again) =>
      || !HasNode(t, name) || (Renames(op) && HasNode(t, to.value)) || !Accepted(Node(name, kind, data), norm)
      || !OneRouter(Edited(t, op).nodes) || !AllAccepted(Edited(t, op).nodes, again)
    case Remove(_) => false
    case Touch => false
  }

  /** The stored topology after an operation; a refused one leaves it as it was. */
  function Apply(t: Topology, op: Op): Topology {
    if Refuses(t, op) then t
    else match op
      case Add(n, norm) => Stored(Appended(t, NormalNode(n, norm)))
      case Remove(name) => Stored(Removed(t, name))
      case Touch => Stored(t)
      case Edit(_, _, _, _, _, again) =>
        var e := Edited(t, op);
        Stored(e.(nodes := NormalNodes(e.nodes, again)))
  }

  /** The name a device has after the operation, if it is still a device. */
  function Follow(t: Topology, name: Name, op: Op): Option<Name> {
    if Refuses(t, op) then Some(name)
    else if op.Remove? && op.name == name then None
    else if op.Edit? && op.name == name then
      if op.kind == "_real_net" then None else Some(if Renames(op) then op.to.value else name)
    else Some(name)
  }

  function ApplyAll(t: Topology, ops: seq<Op>): Topology
    decreases ops
  {
    if ops == [] then t else ApplyAll(Apply(t, ops[0]), ops[1..])
  }

  function FollowAll(t: Topology, name: Name, ops: seq<Op>): Option<Name>
    decreases ops
  {
    if ops == [] then Some(name)
    else
      var next := Follow(t, name, ops[0]);
      if next.None? then None else FollowAll(Apply(t, ops[0]), next.value, ops[1..])
  }

  // ---- Identifiers follow their devices ----

  lemma {:induction false} OtherNodesMembers(nodes: seq<Node>, name: Name)
    ensures forall n :: n in OtherNodes(nodes, name) <==> n in nodes && n.name != name
    ensures Distinct(Names(nodes)) ==> Distinct(Names(OtherNodes(nodes, name)))
  {
    if nodes != [] {
      OtherNodesMembers(nodes[1..], name);
      if Distinct(Names(nodes)) {
        assert Names(nodes[1..]) == Names(nodes)[1..];
        var rest := OtherNodes(nodes[1..], name);
        forall i | 0 <= i < |rest| ensures rest[i].name != nodes[0].name {
          assert rest[i] in nodes[1..];
          var j :| 0 <= j < |nodes[1..]| && nodes[1..][j] == rest[i];
          assert Names(nodes)[0] != Names(nodes)[j + 1];
        }
        NamesCons(nodes[0], rest);
      }
    }
  }

  lemma NamesCons(n: Node, nodes: seq<Node>)
    requires Distinct(Names(nodes)) && forall i :: 0 <= i < |nodes| ==> nodes[i].name != n.name
    ensures Distinct(Names([n] + nodes))
  {
    var all := [n] + nodes;
    forall i, j | 0 <= i < j < |all| ensures Names(all)[i] != Names(all)[j] {
      assert all[j] == nodes[j - 1];
      if i > 0 { assert all[i] == nodes[i - 1] && Names(nodes)[i - 1] != Names(nodes)[j - 1]; }
    }
  }

  lemma ListedMember(nodes: seq<Node>, n: Node)
    requires n in nodes && Deployable(n)
    ensures Listed(nodes, n.name)
  {
  }

  lemma RemovedIds(t: Topology, removed: Name)
    requires IdsOk(t.ids, t.next)
    ensures IdsOk(t.ids - {removed}, t.next)
  {
  }

  lemma RemoveKeeps(t: Topology, removed: Name, name: Name)
    requires Saved(t)
    ensures Saved(Stored(Removed(t, removed)))
    ensures name in t.ids && name != removed ==>
      name in Stored(Removed(t, removed)).ids && Stored(Removed(t, removed)).ids[name] == t.ids[name]
  {
    hide Stored, IdsOk;
    var r := Removed(t, removed);
    OtherNodesMembers(t.nodes, removed);
    RemovedIds(t, removed);
    StoredIsSaved(r);
    if name in t.ids && name != removed {
      var i :| 0 <= i < |t.nodes| && t.nodes[i].name == name && Deployable(t.nodes[i]);
      ListedMember(r.nodes, t.nodes[i]);
    }
  }

  lemma AppendedOk(t: Topology, n: Node)
    requires Saved(t) && !HasNode(t, n.name)
    ensures NamesOk(Appended(t, n)) && IdsOk(Appended(t, n).ids, Appended(t, n).next)
    ensures forall m :: m in t.ids ==> m in Appended(t, n).ids && Appended(t, n).ids[m] == t.ids[m]
  {
    var s := Appended(t, n);
    forall i, j | 0 <= i < j < |s.nodes| ensures Names(s.nodes)[i] != Names(s.nodes)[j] {
      if j < |t.nodes| { assert Names(t.nodes)[i] != Names(t.nodes)[j]; }
    }
  }

  lemma AddKeeps(t: Topology, n: Node, name: Name)
    requires Saved(t) && !HasNode(t, n.name)
    ensures Saved(Stored(Appended(t, n)))
    ensures name in t.ids ==> name in Stored(Appended(t, n)).ids && Stored(Appended(t, n)).ids[name] == t.ids[name]
  {
    hide Stored, IdsOk, NamesOk;
    var s := Appended(t, n);
    AppendedOk(t, n);
    StoredIsSaved(s);
    if name in t.ids {
      var i :| 0 <= i < |t.nodes| && t.nodes[i].name == name && Deployable(t.nodes[i]);
      assert s.nodes[i] == t.nodes[i];
    }
  }

  /** An edit under the same name. */
  lemma EditKeeps(t: Topology, edited: Name, kind: string, data: string, name: Name)
    requires Saved(t)
    ensures var e := t.(nodes := EditedNodes(t.nodes, edited, kind, data));
      && NamesOk(e) && IdsOk(e.ids, e.next) && (forall m :: HasNode(e, m) <==> HasNode(t, m))
      && (name in t.ids && (name != edited || kind != "_real_net") ==> HasDevice(e, name))
  {
    var e := t.(nodes := EditedNodes(t.nodes, edited, kind, data));
    assert Names(e.nodes) == Names(t.nodes);
    forall m ensures HasNode(e, m) <==> HasNode(t, m) {
      if i :| 0 <= i < |t.nodes| && t.nodes[i].name == m { assert e.nodes[i].name == m; }
      if i :| 0 <= i < |e.nodes| && e.nodes[i].name == m { assert t.nodes[i].name == m; }
    }
    if name in t.ids && (name != edited || kind != "_real_net") {
      var i :| 0 <= i < |t.nodes| && t.nodes[i].name == name && Deployable(t.nodes[i]);
      assert e.nodes[i].name == name && Deployable(e.nodes[i]);
    }
  }

  /** A renaming takes the identifier along. */
  lemma RenameKeeps(e: Topology, was: Name, now: Name, name: Name)
    requires NamesOk(e) && IdsOk(e.ids, e.next) && !HasNode(e, now) && now !in e.ids && was != now
    ensures var r := Renamed(e, was, now);
      && NamesOk(r) && IdsOk(r.ids, r.next)
      && (name in e.ids && HasDevice(e, name) ==>
            var m := Sub(name, was, now); HasDevice(r, m) && m in r.ids && r.ids[m] == e.ids[name])
  {
    hide IdsOk;
    var r := Renamed(e, was, now);
    RenamedIds(e, was, now);
    if name in e.ids && HasDevice(e, name) {
      RekeyedIsSubstitution(e.ids, was, now);
      var i :| 0 <= i < |e.nodes| && e.nodes[i].name == name && Deployable(e.nodes[i]);
      assert r.nodes[i].name == Sub(name, was, now) && Deployable(r.nodes[i]);
    }
  }

  /** The name the edited device has after the edit. */
  function NameAfter(op: Op, name: Name): Name
    requires op.Edit?
  {
    if Renames(op) then Sub(name, op.name, op.to.value) else name
  }

  lemma EditedKeeps(t: Topology, op: Op, name: Name)
    requires Saved(t) && op.Edit? && (Renames(op) ==> !HasNode(t, op.to.value))
    ensures var e := Edited(t, op);
      && NamesOk(e) && IdsOk(e.ids, e.next)
      && (name in t.ids && (name != op.name || op.kind != "_real_net") ==>
            var m := NameAfter(op, name); HasDevice(e, m) && m in e.ids && e.ids[m] == t.ids[name])
  {
    hide Saved, Renamed, NamesOk, IdsOk, HasDevice, HasNode;
    var data := NormalNode(Node(op.name, op.kind, op.data), op.norm).data;
    var e := t.(nodes := EditedNodes(t.nodes, op.name, op.kind, data));
    EditKeeps(t, op.name, op.kind, data, name);
    if Renames(op) {
      NoIdWithoutNode(t, op.to.value);
      RenameKeeps(e, op.name, op.to.value, name);
    }
  }

  /** Normalizing the data of routers concerns neither names nor devices. */
  lemma NormalNodesKeep(e: Topology, norm: Norm)
    ensures var r := e.(nodes := NormalNodes(e.nodes, norm));
      && (NamesOk(e) ==> NamesOk(r)) && (forall m :: HasDevice(r, m) <==> HasDevice(e, m))
      && (forall m :: HasNode(r, m) <==> HasNode(e, m)) && (OneRouter(e.nodes) ==> OneRouter(r.nodes))
  {
    var r := e.(nodes := NormalNodes(e.nodes, norm));
    assert Names(r.nodes) == Names(e.nodes);
    assert forall i :: 0 <= i < |e.nodes| ==> r.nodes[i].name == e.nodes[i].name && Deployable(r.nodes[i]) == Deployable(e.nodes[i]);
    forall m ensures HasDevice(r, m) <==> HasDevice(e, m) {
      if i :| 0 <= i < |e.nodes| && e.nodes[i].name == m && Deployable(e.nodes[i]) { assert Deployable(r.nodes[i]); }
      if i :| 0 <= i < |r.nodes| && r.nodes[i].name == m && Deployable(r.nodes[i]) { assert Deployable(e.nodes[i]); }
    }
  }

  /** One operation keeps a stored topology in order, and every device that survives it keeps its identifier. */
  lemma ApplyKeeps(t: Topology, op: Op, name: Name)
    requires Saved(t)
    ensures Saved(Apply(t, op))
    ensures name in t.ids && Follow(t, name, op).Some? ==>
      var m := Follow(t, name, op).value; m in Apply(t, op).ids && Apply(t, op).ids[m] == t.ids[name]
  {
    hide Saved, Stored, Appended, Removed, Edited, NamesOk, IdsOk, HasDevice, OneRouter;
    if !Refuses(t, op) {
      match op
      case Add(n, norm) => AddKeeps(t, NormalNode(n, norm), name);
      case Remove(removed) => RemoveKeeps(t, removed, name);
      case Touch => TouchKeeps(t, name);
      case Edit(_, _, _, _, _, again) =>
        var e := Edited(t, op);
        EditedKeeps(t, op, name);
        NormalNodesKeep(e, again);
        StoredIsSaved(e.(nodes := NormalNodes(e.nodes, again)));
    }
  }

  lemma TouchKeeps(t: Topology, name: Name)
    requires Saved(t)
    ensures Saved(Stored(t)) && (name in t.ids ==> name in Stored(t).ids && Stored(t).ids[name] == t.ids[name])
  {
    StoredIsSaved(t);
  }

  lemma NoIdWithoutNode(t: Topology, name: Name)
    requires Saved(t) && !HasNode(t, name)
    ensures name !in t.ids
  {
  }

  /** Over any sequence of operations, a device that survives under whatever name keeps the identifier first saved
      for it, and no two devices ever share one. */
  lemma {:induction false} IdsFollowDevices(t: Topology, ops: seq<Op>, name: Name)
    requires Saved(t)
    ensures Saved(ApplyAll(t, ops))
    ensures name in t.ids && FollowAll(t, name, ops).Some? ==>
      var m := FollowAll(t, name, ops).value; m in ApplyAll(t, ops).ids && ApplyAll(t, ops).ids[m] == t.ids[name]
    decreases ops
  {
    if ops != [] {
      ApplyKeeps(t, ops[0], name);
      var next := Follow(t, name, ops[0]);
      IdsFollowDevices(Apply(t, ops[0]), ops[1..], if next.Some? then next.value else name);
    }
  }

  // ---- Links, sidecars and the router ----

  /** A stored topology whose links are between nodes, whose sidecars belong to nodes, and that has one router at most. */
  ghost predicate Whole(t: Topology) {
    NoDangling(t) && SidecarsOk(t) && OneRouter(t.nodes)
  }

  lemma StoredWhole(t: Topology)
    ensures SidecarsOk(Stored(t)) && (NoDangling(t) ==> NoDangling(Stored(t))) && Stored(t).nodes == t.nodes
  {
    var s := Stored(t);
    forall n | n in s.webui || n in s.overrides || n in s.features ensures HasNode(s, n) {
      var i :| 0 <= i < |t.nodes| && Names(t.nodes)[i] == n;
    }
    if NoDangling(t) {
      forall i | 0 <= i < |s.links| ensures HasNode(s, s.links[i].source) && HasNode(s, s.links[i].target) {
        assert HasNode(t, t.links[i].source) && HasNode(t, t.links[i].target);
      }
    }
  }

  /** More nodes leave links between nodes. */
  lemma AppendedWhole(t: Topology, n: Node)
    requires NoDangling(t)
    ensures NoDangling(Appended(t, n))
  {
    var s := Appended(t, n);
    forall m | HasNode(t, m) ensures HasNode(s, m) {
      var i :| 0 <= i < |t.nodes| && t.nodes[i].name == m;
      assert s.nodes[i].name == m;
    }
  }

  lemma HasMember(t: Topology, n: Node)
    requires n in t.nodes
    ensures HasNode(t, n.name)
  {
  }

  lemma {:induction false} OtherLinksMembers(links: seq<Link>, name: Name)
    ensures forall l :: l in OtherLinks(links, name) <==> l in links && l.source != name && l.target != name
  {
    if links != [] {
      OtherLinksMembers(links[1..], name);
    }
  }

  lemma RemovedWhole(t: Topology, name: Name)
    requires NoDangling(t) && OneRouter(t.nodes)
    ensures NoDangling(Removed(t, name)) && OneRouter(Removed(t, name).nodes)
  {
    var r := Removed(t, name);
    OtherNodesMembers(t.nodes, name);
    OtherLinksMembers(t.links, name);
    forall m | HasNode(t, m) && m != name ensures HasNode(r, m) {
      var i :| 0 <= i < |t.nodes| && t.nodes[i].name == m;
      HasMember(r, t.nodes[i]);
    }
    forall i | 0 <= i < |r.links| ensures HasNode(r, r.links[i].source) && HasNode(r, r.links[i].target) {
      assert r.links[i] in t.links;
    }
    forall i, j | 0 <= i < |r.nodes| && 0 <= j < |r.nodes| && !Deployable(r.nodes[i]) && !Deployable(r.nodes[j])
      ensures r.nodes[i].name == r.nodes[j].name
    {
      assert r.nodes[i] in t.nodes && r.nodes[j] in t.nodes;
    }
  }

  lemma EditedWhole(t: Topology, op: Op)
    requires NoDangling(t) && op.Edit?
    ensures NoDangling(Edited(t, op))
  {
    var e := Edited(t, op);
    forall m | HasNode(t, m) ensures HasNode(e, NameAfter(op, m)) {
      var i :| 0 <= i < |t.nodes| && t.nodes[i].name == m;
      assert e.nodes[i].name == NameAfter(op, m);
    }
    forall i | 0 <= i < |e.links| ensures HasNode(e, e.links[i].source) && HasNode(e, e.links[i].target) {
      assert HasNode(t, t.links[i].source) && HasNode(t, t.links[i].target);
    }
  }

  /** A router added has a name. */
  predicate NamesRouter(op: Op) {
    op.Add? && !Deployable(op.node) ==> op.node.name != ""
  }

  lemma ApplyKeepsWhole(t: Topology, op: Op)
    requires Whole(t) && NamesRouter(op)
    ensures Whole(Apply(t, op))
  {
    hide Stored, Appended, Removed, Edited, NoDangling, SidecarsOk, OneRouter;
    if !Refuses(t, op) {
      match op
      case Add(n, norm) =>
        var n' := NormalNode(n, norm);
        AppendedWhole(t, n');
        StoredWhole(Appended(t, n'));
        AppendedRouters(t, n, norm);
      case Remove(name) =>
        RemovedWhole(t, name);
        StoredWhole(Removed(t, name));
      case Touch => StoredWhole(t);
      case Edit(_, _, _, _, _, again) =>
        var e := Edited(t, op);
        EditedWhole(t, op);
        NormalizedWhole(e, again);
        StoredWhole(e.(nodes := NormalNodes(e.nodes, again)));
    }
  }

  /** Adding a node leaves one router at most if it is a device, or is named and passed the check. */
  lemma AppendedRouters(t: Topology, n: Node, norm: Norm)
    requires OneRouter(t.nodes)
    ensures Deployable(n) || (n.name != "" && OneRouter(WithNew(t.nodes, n))) ==>
      OneRouter(Appended(t, NormalNode(n, norm)).nodes)
  {
    var nodes := Appended(t, NormalNode(n, norm)).nodes;
    assert forall i :: 0 <= i < |nodes| ==>
      nodes[i].name == (t.nodes + [n])[i].name && Deployable(nodes[i]) == Deployable((t.nodes + [n])[i]);
  }

  /** A router without a name passes the check beside another: the addition of a router leaves two exactly then. */
  lemma NamelessSlipsIn(t: Topology, n: Node, norm: Norm)
    requires OneRouter(t.nodes) && !Deployable(n) && !Refuses(t, Add(n, norm))
    ensures OneRouter(Apply(t, Add(n, norm)).nodes) <==>
      n.name != "" || forall i :: 0 <= i < |t.nodes| ==> Deployable(t.nodes[i])
  {
    hide Stored;
    var n' := NormalNode(n, norm);
    StoredWhole(Appended(t, n'));
    AppendedRouters(t, n, norm);
    var nodes := Apply(t, Add(n, norm)).nodes;
    assert nodes == t.nodes + [n'];
    if n.name == "" && OneRouter(nodes) {
      forall i | 0 <= i < |t.nodes| ensures Deployable(t.nodes[i]) {
        assert nodes[i] == t.nodes[i] && nodes[|t.nodes|] == n';
      }
    }
  }

  lemma NormalizedWhole(e: Topology, norm: Norm)
    requires NoDangling(e)
    ensures var r := e.(nodes := NormalNodes(e.nodes, norm)); NoDangling(r) && (OneRouter(e.nodes) ==> OneRouter(r.nodes))
  {
    NormalNodesKeep(e, norm);
  }

  /** Over any sequence of operations, routers added having names, links stay between nodes, no second router appears,
      and so a renaming is refused exactly if the new name occurs anywhere in the topology. */
  lemma {:induction false} EditsStayWhole(t: Topology, ops: seq<Op>, name: Name)
    requires Saved(t) && Whole(t) && forall i :: 0 <= i < |ops| ==> NamesRouter(ops[i])
    ensures Whole(ApplyAll(t, ops)) && (HasNode(ApplyAll(t, ops), name) <==> !Unused(ApplyAll(t, ops), name))
    decreases ops
  {
    hide Saved, Whole, Apply, Unused, HasNode, NamesRouter;
    if ops == [] {
      WholeUnused(t, name);
    } else {
      ApplyKeeps(t, ops[0], name);
      ApplyKeepsWhole(t, ops[0]);
      EditsStayWhole(Apply(t, ops[0]), ops[1..], name);
    }
  }

  lemma WholeUnused(t: Topology, name: Name)
    requires Saved(t) && Whole(t)
    ensures HasNode(t, name) <==> !Unused(t, name)
  {
    UnusedIsNoNode(t, name);
  }
}
