/** What each editing operation makes of nodes, links and sidecars, entry by entry. */
module TopologyMeaning {
  import opened Wrappers
  import opened Selection
  import opened TopologyEdit

  // ---- Saving ----

  /** After a save a sidecar has the entries that are not empty and belong to nodes, and no others. */
  ghost predicate SidecarSaved(t: Topology, before: Sidecar, after: Sidecar) {
    forall n :: (n in after <==> n in before && before[n] != "" && HasNode(t, n)) && (n in after ==> after[n] == before[n])
  }

  lemma KeptMeans(t: Topology, m: Sidecar)
    ensures SidecarSaved(t, m, Kept(m, t.nodes))
  {
    forall n ensures n in Names(t.nodes) <==> HasNode(t, n) {
      if HasNode(t, n) {
        var i :| 0 <= i < |t.nodes| && t.nodes[i].name == n;
        assert Names(t.nodes)[i] == n;
      }
    }
  }

  /** A save keeps nodes, the links with an interface each, and every entry of a node in the three sidecars. */
  lemma SaveKeeps(t: Topology)
    ensures var s := Stored(t);
      && s.nodes == t.nodes && |s.links| == |t.links|
      && (forall i :: 0 <= i < |t.links| ==> LinkSaved(t.links[i], s.links[i]))
      && SidecarSaved(t, t.webui, s.webui) && SidecarSaved(t, t.overrides, s.overrides) && SidecarSaved(t, t.features, s.features)
  {
    KeptMeans(t, t.webui);
    KeptMeans(t, t.overrides);
    KeptMeans(t, t.features);
    hide Kept;
  }

  ghost predicate LinkSaved(l: Link, s: Link) {
    && s.source == l.source && s.target == l.target
    && s.sourceIface == (if l.sourceIface == "" then "eth1" else l.sourceIface)
    && s.targetIface == (if l.targetIface == "" then "eth1" else l.targetIface)
  }

  // ---- Nodes and links after an operation ----

  /** The data of a router is what the normalization makes of it; that of a device stays. */
  ghost predicate DataAfter(kind: string, before: string, norm: Norm, after: string) {
    if kind == "_real_net" then norm(before) == Some(after) else after == before
  }

  /** The node after an edit: the one edited has the kind, the data and the new name of the request, the others stay,
      and every router is normalized, the edited one twice. */
  ghost predicate NodeEdited(op: Op, n: Node, r: Node)
    requires op.Edit?
  {
    if n.name == op.name then
      && r.name == (if op.to.Some? && op.to.value != "" then op.to.value else op.name)
      && r.kind == op.kind
      && exists d :: DataAfter(op.kind, op.data, op.norm, d) && DataAfter(op.kind, d, op.again, r.data)
    else
      r.name == n.name && r.kind == n.kind && DataAfter(n.kind, n.data, op.again, r.data)
  }

  ghost predicate NodesAfter(t: Topology, op: Op, nodes: seq<Node>) {
    match op
    case Add(n, norm) =>
      && |nodes| == |t.nodes| + 1 && nodes[..|t.nodes|] == t.nodes
      && nodes[|t.nodes|].name == n.name && nodes[|t.nodes|].kind == n.kind
      && DataAfter(n.kind, n.data, norm, nodes[|t.nodes|].data)
    case Edit(_, _, _, _, _, _) => |nodes| == |t.nodes| && forall i :: 0 <= i < |nodes| ==> NodeEdited(op, t.nodes[i], nodes[i])
    case Remove(name) => nodes == Filter(t.nodes, (n: Node) => n.name != name)
    case Touch => nodes == t.nodes
  }

  /** The links there would be before the interfaces left open are filled in. */
  ghost function LinksAfter(t: Topology, op: Op): seq<Link> {
    match op
    case Remove(name) => Filter(t.links, (l: Link) => l.source != name && l.target != name)
    case Edit(name, _, _, to, _, _) =>
      if to.Some? && to.value != "" then Substituted(t.links, name, to.value) else t.links
    case _ => t.links
  }

  ghost function Substituted(links: seq<Link>, was: Name, now: Name): (r: seq<Link>)
    ensures |r| == |links|
    ensures forall i :: 0 <= i < |r| ==>
      && r[i].source == (if links[i].source == was then now else links[i].source)
      && r[i].target == (if links[i].target == was then now else links[i].target)
      && r[i].sourceIface == links[i].sourceIface && r[i].targetIface == links[i].targetIface
  {
    seq(|links|, i requires 0 <= i < |links| =>
      Link(if links[i].source == was then now else links[i].source, links[i].sourceIface,
           if links[i].target == was then now else links[i].target, links[i].targetIface))
  }

  lemma {:induction false} OthersSelected(nodes: seq<Node>, name: Name)
    ensures OtherNodes(nodes, name) == Filter(nodes, (n: Node) => n.name != name)
  {
    if nodes != [] {
      OthersSelected(nodes[1..], name);
      FilterCons(nodes[0], nodes[1..], (n: Node) => n.name != name);
      assert [nodes[0]] + nodes[1..] == nodes;
    }
  }

  lemma {:induction false} OtherLinksSelected(links: seq<Link>, name: Name)
    ensures OtherLinks(links, name) == Filter(links, (l: Link) => l.source != name && l.target != name)
  {
    if links != [] {
      OtherLinksSelected(links[1..], name);
      FilterCons(links[0], links[1..], (l: Link) => l.source != name && l.target != name);
      assert [links[0]] + links[1..] == links;
    }
  }

  lemma RenamingToItself(links: seq<Link>, name: Name)
    ensures Substituted(links, name, name) == links
  {
  }

  lemma RenamedIsSubstituted(links: seq<Link>, was: Name, now: Name)
    ensures RenamedLinks(links, was, now) == Substituted(links, was, now)
  {
  }

  /** The nodes and links after an operation that is not refused. */
  lemma ApplyMeans(t: Topology, op: Op)
    requires !Refuses(t, op)
    ensures var r := Apply(t, op);
      && NodesAfter(t, op, r.nodes)
      && |r.links| == |LinksAfter(t, op)| && forall i :: 0 <= i < |r.links| ==> LinkSaved(LinksAfter(t, op)[i], r.links[i])
  {
    hide Stored, Filter, OneRouter;
    match op
    case Add(n, norm) => SaveKeeps(Appended(t, NormalNode(n, norm)));
    case Touch => SaveKeeps(t);
    case Remove(name) =>
      SaveKeeps(Removed(t, name));
      OthersSelected(t.nodes, name);
      OtherLinksSelected(t.links, name);
    case Edit(_, _, _, _, _, _) => EditMeans(t, op);
  }

  lemma EditedNode(t: Topology, op: Op, i: nat)
    requires op.Edit? && i < |t.nodes| && |Edited(t, op).nodes| == |t.nodes|
    requires Accepted(Node(op.name, op.kind, op.data), op.norm) && Accepted(Edited(t, op).nodes[i], op.again)
    ensures NodeEdited(op, t.nodes[i], NormalNode(Edited(t, op).nodes[i], op.again))
  {
    var n, e := NormalNode(Node(op.name, op.kind, op.data), op.norm), Edited(t, op).nodes[i];
    if t.nodes[i].name == op.name {
      assert e.kind == op.kind && e.data == n.data;
      assert DataAfter(op.kind, op.data, op.norm, n.data);
    }
  }

  lemma EditMeans(t: Topology, op: Op)
    requires op.Edit? && !Refuses(t, op)
    ensures var r := Apply(t, op);
      && NodesAfter(t, op, r.nodes)
      && |r.links| == |LinksAfter(t, op)| && forall i :: 0 <= i < |r.links| ==> LinkSaved(LinksAfter(t, op)[i], r.links[i])
  {
    hide Stored, OneRouter, NodeEdited, HasNode;
    var e := Edited(t, op);
    SaveKeeps(e.(nodes := NormalNodes(e.nodes, op.again)));
    assert |e.nodes| == |t.nodes|;
    forall i | 0 <= i < |t.nodes| ensures NodeEdited(op, t.nodes[i], NormalNode(e.nodes[i], op.again)) {
      EditedNode(t, op, i);
    }
    RenamingToItself(t.links, op.name);
    if Renames(op) {
      RenamedIsSubstituted(t.links, op.name, op.to.value);
    }
    assert e.links == LinksAfter(t, op);
  }

  // ---- What is refused ----

  ghost function RouterNames(nodes: seq<Node>): set<Name> {
    set n | n in nodes && n.kind == "_real_net" :: n.name
  }

  ghost predicate TwoNames(names: set<Name>) {
    exists x, y :: x in names && y in names && x != y
  }

  lemma OneRouterMeans(nodes: seq<Node>)
    ensures OneRouter(nodes) <==> !TwoNames(RouterNames(nodes))
  {
    if OneRouter(nodes) {
      forall x, y | x in RouterNames(nodes) && y in RouterNames(nodes) ensures x == y {
        var m :| m in nodes && m.kind == "_real_net" && m.name == x;
        var n :| n in nodes && n.kind == "_real_net" && n.name == y;
      }
    }
    if !TwoNames(RouterNames(nodes)) {
      forall i, j | 0 <= i < |nodes| && 0 <= j < |nodes| && !Deployable(nodes[i]) && !Deployable(nodes[j])
        ensures nodes[i].name == nodes[j].name
      {
        assert nodes[i] in nodes && nodes[j] in nodes;
        assert nodes[i].name in RouterNames(nodes) && nodes[j].name in RouterNames(nodes);
      }
    }
  }

  /** Adding is refused exactly for a name in use, and for a router also if its name would be a second one or its data is
      refused; an empty name is not counted. */
  lemma AddRefused(t: Topology, n: Node, norm: Norm)
    ensures Refuses(t, Add(n, norm)) <==>
      || (exists m :: m in t.nodes && m.name == n.name)
      || (n.kind == "_real_net" &&
            (TwoNames(RouterNames(t.nodes) + if n.name == "" then {} else {n.name}) || norm(n.data).None?))
  {
    OneRouterMeans(WithNew(t.nodes, n));
    if n.kind == "_real_net" {
      assert RouterNames(t.nodes + [n]) == RouterNames(t.nodes) + {n.name};
      assert RouterNames(t.nodes) + {} == RouterNames(t.nodes);
    }
    hide OneRouter, TwoNames;
  }

  ghost predicate TakenByOther(t: Topology, op: Op)
    requires op.Edit?
  {
    op.to.Some? && op.to.value != "" && op.to.value != op.name && exists m :: m in t.nodes && m.name == op.to.value
  }

  /** The routers' names after the edit. */
  ghost function NamesThen(t: Topology, op: Op): set<Name>
    requires op.Edit?
  {
    (set n | n in t.nodes && n.kind == "_real_net" && n.name != op.name :: n.name)
    + (if op.kind == "_real_net" then {if op.to.Some? && op.to.value != "" then op.to.value else op.name} else {})
  }

  /** The normalization refuses the router edited, the first or the second time, or another. */
  ghost predicate SomeDataRefused(t: Topology, op: Op)
    requires op.Edit?
  {
    || (op.kind == "_real_net" && (op.norm(op.data).None? || op.again(op.norm(op.data).value).None?))
    || exists n :: n in t.nodes && n.kind == "_real_net" && n.name != op.name && op.again(n.data).None?
  }

  /** An edit is refused exactly for an unknown node, for a new name in use, if it would leave routers with two names, or
      if the data of one of them is refused. */
  lemma EditRefused(t: Topology, op: Op)
    requires op.Edit?
    ensures Refuses(t, op) <==>
      (forall m :: m in t.nodes ==> m.name != op.name) || TakenByOther(t, op) || TwoNames(NamesThen(t, op)) || SomeDataRefused(t, op)
  {
    HasMeans(t, op.name);
    if op.to.Some? { HasMeans(t, op.to.value); }
    if HasNode(t, op.name) && Accepted(Node(op.name, op.kind, op.data), op.norm) {
      NamesAfterEdit(t, op);
      OneRouterMeans(Edited(t, op).nodes);
      DataAfterEdit(t, op);
    }
    hide HasNode, Edited, OneRouter, AllAccepted, NamesThen, TwoNames;
  }

  lemma HasMeans(t: Topology, name: Name)
    ensures HasNode(t, name) <==> exists m :: m in t.nodes && m.name == name
  {
  }

  lemma NodeOfEdit(t: Topology, op: Op, i: nat)
    requires op.Edit? && i < |t.nodes| && Accepted(Node(op.name, op.kind, op.data), op.norm)
    ensures |Edited(t, op).nodes| == |t.nodes|
    ensures var n, e := t.nodes[i], Edited(t, op).nodes[i];
      if n.name == op.name
      then e == Node(if op.to.Some? && op.to.value != "" then op.to.value else op.name, op.kind,
                     if op.kind == "_real_net" then op.norm(op.data).value else op.data)
      else e == n
  {
  }

  /** The nodes after an edit: the edited ones are all the same, the others as they were. */
  ghost predicate EditedTo(nodes: seq<Node>, name: Name, edited: Node, es: seq<Node>) {
    |es| == |nodes| && forall i :: 0 <= i < |es| ==> es[i] == if nodes[i].name == name then edited else nodes[i]
  }

  lemma RouterNamesEdited(nodes: seq<Node>, name: Name, edited: Node, es: seq<Node>)
    requires EditedTo(nodes, name, edited, es) && exists m :: m in nodes && m.name == name
    ensures RouterNames(es) ==
      (set n | n in nodes && n.kind == "_real_net" && n.name != name :: n.name)
      + (if edited.kind == "_real_net" then {edited.name} else {})
  {
    var others := set n | n in nodes && n.kind == "_real_net" && n.name != name :: n.name;
    var at :| 0 <= at < |nodes| && nodes[at].name == name;
    assert es[at] in es;
    forall x | x in RouterNames(es) ensures x in others || (edited.kind == "_real_net" && x == edited.name) {
      var i :| 0 <= i < |es| && es[i].kind == "_real_net" && es[i].name == x;
    }
    forall x | x in others ensures x in RouterNames(es) {
      var i :| 0 <= i < |nodes| && nodes[i].kind == "_real_net" && nodes[i].name != name && nodes[i].name == x;
      assert es[i] in es;
    }
  }

  lemma NamesAfterEdit(t: Topology, op: Op)
    requires op.Edit? && HasNode(t, op.name) && Accepted(Node(op.name, op.kind, op.data), op.norm)
    ensures RouterNames(Edited(t, op).nodes) == NamesThen(t, op)
  {
    var at :| 0 <= at < |t.nodes| && t.nodes[at].name == op.name;
    forall i | 0 <= i < |t.nodes|
      ensures |Edited(t, op).nodes| == |t.nodes|
      ensures Edited(t, op).nodes[i] == if t.nodes[i].name == op.name then Edited(t, op).nodes[at] else t.nodes[i]
    {
      NodeOfEdit(t, op, i);
      NodeOfEdit(t, op, at);
    }
    NodeOfEdit(t, op, at);
    assert t.nodes[at] in t.nodes;
    hide Edited, RouterNames;
    RouterNamesEdited(t.nodes, op.name, Edited(t, op).nodes[at], Edited(t, op).nodes);
  }

  lemma DataAfterEdit(t: Topology, op: Op)
    requires op.Edit? && HasNode(t, op.name) && Accepted(Node(op.name, op.kind, op.data), op.norm)
    ensures AllAccepted(Edited(t, op).nodes, op.again) <==> !SomeDataRefused(t, op)
  {
    var es := Edited(t, op).nodes;
    var at :| 0 <= at < |t.nodes| && t.nodes[at].name == op.name;
    NodeOfEdit(t, op, at);
    forall i | 0 <= i < |t.nodes| ensures if t.nodes[i].name == op.name then es[i] == es[at] else es[i] == t.nodes[i] {
      NodeOfEdit(t, op, i);
    }
    hide Edited;
    if AllAccepted(es, op.again) {
      forall n | n in t.nodes && n.kind == "_real_net" && n.name != op.name ensures op.again(n.data).Some? {
        var i :| 0 <= i < |t.nodes| && t.nodes[i] == n;
        assert Accepted(es[i], op.again);
      }
      assert Accepted(es[at], op.again);
    }
    if !SomeDataRefused(t, op) {
      forall i | 0 <= i < |es| ensures Accepted(es[i], op.again) {
        assert t.nodes[i] in t.nodes;
      }
    }
  }

  // ---- Sidecar entries follow their nodes ----

  function Entry(m: Sidecar, n: Name): Option<string> {
    if n in m && m[n] != "" then Some(m[n]) else None
  }

  /** The name a node has after the operation, if it is still there. */
  function NodeFollow(t: Topology, name: Name, op: Op): Option<Name> {
    if Refuses(t, op) then Some(name)
    else match op
      case Remove(gone) => if gone == name then None else Some(name)
      case Edit(edited, _, _, to, _, _) => if edited == name && to.Some? && to.value != "" then Some(to.value) else Some(name)
      case _ => Some(name)
  }

  /** A node is gone only by an accepted removal, and a device also by becoming a router; its name changes only by an
      accepted edit that gives it another. */
  lemma FollowMeans(t: Topology, name: Name, op: Op)
    ensures NodeFollow(t, name, op).None? <==> !Refuses(t, op) && op == Remove(name)
    ensures Follow(t, name, op).None? <==>
      !Refuses(t, op) && (op == Remove(name) || (op.Edit? && op.name == name && op.kind == "_real_net"))
    ensures Follow(t, name, op).Some? ==> Follow(t, name, op) == NodeFollow(t, name, op)
    ensures NodeFollow(t, name, op) !in {None, Some(name)} ==>
      !Refuses(t, op) && op.Edit? && op.name == name && NodeFollow(t, name, op) == op.to
    ensures !Refuses(t, op) && op.Edit? && op.name == name && op.to.Some? && op.to.value != "" ==> NodeFollow(t, name, op) == op.to
  {
    hide Refuses;
  }

  ghost predicate SameEntries(t: Topology, name: Name, r: Topology, now: Name) {
    && Entry(r.webui, now) == Entry(t.webui, name)
    && Entry(r.overrides, now) == Entry(t.overrides, name)
    && Entry(r.features, now) == Entry(t.features, name)
  }

  lemma StoredEntries(t: Topology, name: Name)
    requires HasNode(t, name)
    ensures HasNode(Stored(t), name) && SameEntries(t, name, Stored(t), name)
  {
    SaveKeeps(t);
    hide Stored;
  }

  lemma RenamedEntries(t: Topology, was: Name, now: Name, name: Name)
    requires SidecarsOk(t) && !HasNode(t, now) && was != now && HasNode(t, name)
    ensures SameEntries(t, name, Renamed(t, was, now), Sub(name, was, now))
  {
  }

  lemma AppendedEntries(t: Topology, n: Node, name: Name)
    requires HasNode(t, name)
    ensures HasNode(Appended(t, n), name) && SameEntries(t, name, Appended(t, n), name)
  {
    var i :| 0 <= i < |t.nodes| && t.nodes[i].name == name;
    assert Appended(t, n).nodes[i].name == name;
  }

  lemma RemovedEntries(t: Topology, gone: Name, name: Name)
    requires HasNode(t, name) && name != gone
    ensures HasNode(Removed(t, gone), name) && SameEntries(t, name, Removed(t, gone), name)
  {
    var i :| 0 <= i < |t.nodes| && t.nodes[i].name == name;
    OtherNodesMembers(t.nodes, gone);
    HasMember(Removed(t, gone), t.nodes[i]);
  }

  lemma EditedEntries(t: Topology, op: Op, name: Name)
    requires op.Edit? && !Refuses(t, op) && SidecarsOk(t) && HasNode(t, name)
    ensures var e := Edited(t, op);
      HasNode(e, NameAfter(op, name)) && SameEntries(t, name, e, NameAfter(op, name))
  {
    hide OneRouter, AllAccepted;
    var n := NormalNode(Node(op.name, op.kind, op.data), op.norm);
    var e := t.(nodes := EditedNodes(t.nodes, op.name, op.kind, n.data));
    var i :| 0 <= i < |t.nodes| && t.nodes[i].name == name;
    assert Edited(t, op).nodes[i].name == NameAfter(op, name);
    if Renames(op) {
      RenamedEntries(t, op.name, op.to.value, name);
    }
  }

  /** A node that is still there after the operation, under whatever name, has its entries in the three sidecars. */
  lemma EntriesKept(t: Topology, op: Op, name: Name)
    requires SidecarsOk(t) && HasNode(t, name)
    ensures SidecarsOk(Apply(t, op))
    ensures NodeFollow(t, name, op).Some? ==>
      HasNode(Apply(t, op), NodeFollow(t, name, op).value) && SameEntries(t, name, Apply(t, op), NodeFollow(t, name, op).value)
  {
    hide Stored, Appended, Removed, Edited, SidecarsOk, HasNode, Entry;
    if !Refuses(t, op) {
      match op
      case Add(n, norm) =>
        AppendedEntries(t, NormalNode(n, norm), name);
        StoredEntries(Appended(t, NormalNode(n, norm)), name);
        StoredWhole(Appended(t, NormalNode(n, norm)));
      case Remove(gone) =>
        StoredWhole(Removed(t, gone));
        if name != gone {
          RemovedEntries(t, gone, name);
          StoredEntries(Removed(t, gone), name);
        }
      case Touch =>
        StoredEntries(t, name);
        StoredWhole(t);
      case Edit(_, _, _, _, _, again) =>
        var e := Edited(t, op);
        var r := e.(nodes := NormalNodes(e.nodes, again));
        EditedEntries(t, op, name);
        NormalNodesKeep(e, again);
        StoredEntries(r, NameAfter(op, name));
        StoredWhole(r);
    }
  }

  function NodeFollowAll(t: Topology, name: Name, ops: seq<Op>): Option<Name>
    decreases ops
  {
    if ops == [] then Some(name)
    else
      var next := NodeFollow(t, name, ops[0]);
      if next.None? then None else NodeFollowAll(Apply(t, ops[0]), next.value, ops[1..])
  }

  /** And so over any sequence of operations. */
  lemma {:induction false} EntriesFollowNodes(t: Topology, ops: seq<Op>, name: Name)
    requires SidecarsOk(t) && HasNode(t, name)
    ensures NodeFollowAll(t, name, ops).Some? ==>
      var now := NodeFollowAll(t, name, ops).value; HasNode(ApplyAll(t, ops), now) && SameEntries(t, name, ApplyAll(t, ops), now)
    decreases ops
  {
    hide Apply, NodeFollow, HasNode, Entry, SidecarsOk;
    if ops != [] {
      EntriesKept(t, ops[0], name);
      var next := NodeFollow(t, name, ops[0]);
      if next.Some? {
        EntriesFollowNodes(Apply(t, ops[0]), ops[1..], next.value);
      }
    }
  }
}
