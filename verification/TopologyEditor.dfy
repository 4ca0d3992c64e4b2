/** The path-based operations as they change a loaded topology, each proved against the editing model. */
module TopologyEditor {
  import opened Wrappers
  import opened TopologyEdit

  /** The topology file, and the topology that an operation has loaded from it. */
  class Editor {
    var file: Topology
    var nodes: seq<Node>
    var links: seq<Link>
    var ids: map<Name, Uuid>
    var webui: Sidecar
    var overrides: Sidecar
    var features: Sidecar
    var next: Uuid

    function View(): Topology
      reads this
    {
      Topology(nodes, links, ids, webui, overrides, features, next)
    }

    /** `Topology.get_node`. */
    method GetNode(name: Name) returns (at: Option<nat>)
      ensures at.Some? ==> at.value < |nodes| && nodes[at.value].name == name
      ensures at.Some? ==> forall i :: 0 <= i < at.value ==> nodes[i].name != name
      ensures at.None? <==> !HasNode(View(), name)
    {
      for i := 0 to |nodes|
        invariant forall j :: 0 <= j < i ==> nodes[j].name != name
      {
        if nodes[i].name == name {
          return Some(i);
        }
      }
      return None;
    }

    /** `_require_path`. */
    method Load()
      modifies this
      ensures View() == file == old(file)
    {
      nodes, links, ids, next := file.nodes, file.links, file.ids, file.next;
      webui, overrides, features := file.webui, file.overrides, file.features;
    }

    /** `save_topology_to`: identifiers, then only the sidecar entries of existing nodes. */
    method Save()
      modifies this
      ensures file == Stored(old(View()))
    {
      ids, next := EnsureNodeIds(nodes, ids, next);
      webui, overrides, features := Kept(webui, nodes), Kept(overrides, nodes), Kept(features, nodes);
      file := Topology(nodes, SavedLinks(links), ids, webui, overrides, features, next);
    }

    /** `ensure_single_realnet` on these nodes. */
    method EnsureSingle(nodes: seq<Node>) returns (ok: bool)
      ensures ok == OneRouter(nodes)
    {
      var seen: Option<nat> := None;
      for i := 0 to |nodes|
        invariant seen.Some? ==> seen.value < i && !Deployable(nodes[seen.value])
        invariant forall j :: 0 <= j < i && !Deployable(nodes[j]) ==> seen.Some? && nodes[j].name == nodes[seen.value].name
      {
        if !Deployable(nodes[i]) {
          if seen.Some? && nodes[seen.value].name != nodes[i].name {
            return false;
          }
          seen := Some(i);
        }
      }
      return true;
    }

    /** `add_node_by_path`. */
    method AddNode(n: Node, norm: Norm) returns (ok: bool)
      modifies this
      ensures ok == !Refuses(old(file), Add(n, norm)) && file == Apply(old(file), Add(n, norm))
    {
      Load();
      var n' := n;
      if !Deployable(n) {
        var single := EnsureSingle(WithNew(nodes, n));
        if !single || norm(n.data).None? {
          return false;
        }
        n' := n.(data := norm(n.data).value);
      }
      var at := GetNode(n.name);
      if at.Some? {
        return false;
      }
      nodes := nodes + [n'];
      if Deployable(n) && n.name !in ids {
        ids, next := ids[n.name := next], next + 1;
      }
      Save();
      return true;
    }

    /** The loop of a rename over the links. */
    method RenameEnds(was: Name, now: Name)
      modifies `links
      ensures links == RenamedLinks(old(links), was, now)
    {
      for i := 0 to |links|
        invariant |links| == |old(links)|
        invariant forall j :: 0 <= j < |links| ==> links[j] == if j < i then RenamedLink(old(links)[j], was, now) else old(links)[j]
      {
        var l := links[i];
        if l.source == was {
          l := l.(source := now);
        }
        if l.target == was {
          l := l.(target := now);
        }
        links := links[i := l];
      }
    }

    /** The rename of `update_node_by_path`: sidecar keys, the node found first, and both ends of every link. */
    method Rename(at: nat, was: Name, now: Name)
      requires at < |nodes| && nodes[at].name == was
      requires forall i :: 0 <= i < |nodes| && i != at ==> nodes[i].name != was
      modifies this
      ensures View() == Renamed(old(View()), was, now) && file == old(file)
    {
      webui, ids := Rekeyed(webui, was, now), Rekeyed(ids, was, now);
      overrides, features := Rekeyed(overrides, was, now), Rekeyed(features, was, now);
      nodes := nodes[at := nodes[at].(name := now)];
      assert nodes == RenamedNodes(old(nodes), was, now);
      RenameEnds(was, now);
    }

    /** `_prepare_realnet_bgp`: a lab with two routers or one that is not accepted is refused, and otherwise every
        router is normalized. */
    method Prepare(norm: Norm) returns (ok: bool)
      modifies `nodes
      ensures ok == (OneRouter(old(nodes)) && AllAccepted(old(nodes), norm))
      ensures ok ==> nodes == NormalNodes(old(nodes), norm)
    {
      ok := EnsureSingle(nodes);
      if !ok { return; }
      for i := 0 to |nodes|
        invariant |nodes| == |old(nodes)| && AllAccepted(old(nodes)[..i], norm)
        invariant forall j :: 0 <= j < |nodes| ==> nodes[j] == if j < i then NormalNode(old(nodes)[j], norm) else old(nodes)[j]
      {
        if !Deployable(nodes[i]) {
          if norm(nodes[i].data).None? {
            assert !Accepted(old(nodes)[i], norm);
            return false;
          }
          nodes := nodes[i := nodes[i].(data := norm(nodes[i].data).value)];
        }
      }
    }

    /** `update_node_by_path`. */
    method UpdateNode(name: Name, kind: string, data: string, to: Option<Name>, norm: Norm, again: Norm) returns (ok: bool)
      requires NamesOk(file)
      modifies this
      ensures ok == !Refuses(old(file), Edit(name, kind, data, to, norm, again))
      ensures file == Apply(old(file), Edit(name, kind, data, to, norm, again))
    {
      Load();
      ghost var t := file;
      var at := GetNode(name);
      if at.None? {
        return false;
      }
      ghost var op := Edit(name, kind, data, to, norm, again);
      var n := Node(name, kind, data);
      if !Deployable(n) {
        if norm(data).None? {
          return false;
        }
        n := n.(data := norm(data).value);
      }
      assert forall i :: 0 <= i < |nodes| && i != at.value ==> Names(nodes)[i] != Names(nodes)[at.value];
      if to.Some? && to.value != "" && to.value != name {
        var taken := GetNode(to.value);
        if taken.Some? {
          return false;
        }
      }
      nodes := nodes[at.value := n];
      assert nodes == EditedNodes(t.nodes, name, kind, n.data);
      if to.Some? && to.value != "" && to.value != name {
        Rename(at.value, name, to.value);
      }
      assert View() == Edited(t, op);
      ok := Prepare(again);
      if ok {
        Save();
      }
    }

    /** `remove_node_by_path`. */
    method RemoveNode(name: Name)
      modifies this
      ensures file == Apply(old(file), Remove(name))
    {
      Load();
      nodes := NodesWithout(nodes, name);
      links := LinksWithout(links, name);
      ids, webui, overrides, features := ids - {name}, webui - {name}, overrides - {name}, features - {name};
      Save();
    }
  }

  method NodesWithout(nodes: seq<Node>, name: Name) returns (kept: seq<Node>)
    ensures kept == OtherNodes(nodes, name)
  {
    kept := [];
    assert nodes[0..] == nodes && [] + OtherNodes(nodes, name) == OtherNodes(nodes, name);
    for i := 0 to |nodes|
      invariant kept + OtherNodes(nodes[i..], name) == OtherNodes(nodes, name)
    {
      ghost var rest := OtherNodes(nodes[i + 1..], name);
      assert nodes[i..][0] == nodes[i] && nodes[i..][1..] == nodes[i + 1..];
      if nodes[i].name != name {
        assert kept + ([nodes[i]] + rest) == (kept + [nodes[i]]) + rest;
        kept := kept + [nodes[i]];
      } else {
        assert [] + rest == rest;
      }
    }
    assert nodes[|nodes|..] == [] && kept + [] == kept;
  }

  method LinksWithout(links: seq<Link>, name: Name) returns (kept: seq<Link>)
    ensures kept == OtherLinks(links, name)
  {
    kept := [];
    assert links[0..] == links && [] + OtherLinks(links, name) == OtherLinks(links, name);
    for i := 0 to |links|
      invariant kept + OtherLinks(links[i..], name) == OtherLinks(links, name)
    {
      ghost var rest := OtherLinks(links[i + 1..], name);
      assert links[i..][0] == links[i] && links[i..][1..] == links[i + 1..];
      if links[i].source != name && links[i].target != name {
        assert kept + ([links[i]] + rest) == (kept + [links[i]]) + rest;
        kept := kept + [links[i]];
      } else {
        assert [] + rest == rest;
      }
    }
    assert links[|links|..] == [] && kept + [] == kept;
  }
}
