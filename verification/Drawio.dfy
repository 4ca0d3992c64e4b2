/** Exporting a topology as draw.io cells and importing it again (services/drawio_service.py), over the tree of
    cells rather than its XML text. */
module Drawio {
  import opened Wrappers
  import opened Words

  type Json = map<string, string>

  datatype Node = Node(name: string, kind: string, image: string, x: real, y: real,
                       mgmtIpv4: Option<string>, mgmtIpv6: Option<string>, extra: Json)

  datatype Link = Link(source: string, sourceIface: string, target: string, targetIface: string)

  /** `mgmt` is the management block, the only top-level extra that the export carries. */
  datatype Topology = Topology(nodes: seq<Node>, links: seq<Link>, mgmt: Json)

  /** A cell's id: a printed number, or some other text. */
  datatype Id = Num(n: nat) | Named(text: string)

  /** An `mxCell` with the attributes and geometry that either direction looks at. */
  datatype Cell = Cell(id: Id, parent: Option<Id>, vertex: bool, edge: bool, value: string, style: string,
                       kind: string, image: string, extra: Json, mgmt: Json, x: real, y: real,
                       source: Option<Id>, target: Option<Id>, sourceIface: Option<string>, targetIface: Option<string>)

  /** Icon styles, the kind read off a style, and the interfaces read off a link label. */
  datatype Look = Look(style: string -> string, kindOf: string -> string, ifacesOf: string -> (string, string))

  // ---- Names ----

  function Digits(n: nat): (r: string)
    ensures r != []
  {
    var d := [('0' as int + n % 10) as char];
    if n < 10 then d else Digits(n / 10) + d
  }

  function IdText(id: Id): string {
    match id
    case Num(n) => Digits(n)
    case Named(text) => text
  }

  predicate NameChar(c: char) {
    'a' <= c <= 'z' || 'A' <= c <= 'Z' || '0' <= c <= '9' || c == '_' || c == '-'
  }

  function StripLeft(s: string): string {
    if s != [] && IsSpace(s[0]) then StripLeft(s[1..]) else s
  }

  function StripRight(s: string): string {
    if s != [] && IsSpace(s[|s| - 1]) then StripRight(s[..|s| - 1]) else s
  }

  function Replaced(s: string): (r: string)
    ensures |r| == |s| && forall i :: 0 <= i < |s| ==> r[i] == if NameChar(s[i]) then s[i] else '_'
  {
    if s == [] then [] else [if NameChar(s[0]) then s[0] else '_'] + Replaced(s[1..])
  }

  /** `_sanitize_name`. */
  function Sanitize(text: string): string {
    var name := Replaced(StripRight(StripLeft(text)));
    if name == [] then "node" else name
  }

  /** A name that containerlab accepts as it is. */
  predicate Sane(name: string) {
    name != [] && forall i :: 0 <= i < |name| ==> NameChar(name[i])
  }

  lemma NameCharIsNotSpace(c: char)
    requires NameChar(c)
    ensures !IsSpace(c)
  {
  }

  lemma ReplacedIsSane(s: string)
    ensures Replaced(s) != [] ==> Sane(Replaced(s))
    ensures Replaced(s) == s <==> forall i :: 0 <= i < |s| ==> NameChar(s[i])
  {
    assert NameChar('_');
    hide NameChar;
    if Replaced(s) == s {
      forall i | 0 <= i < |s| ensures NameChar(s[i]) { assert Replaced(s)[i] == s[i]; }
    }
  }

  /** Sanitizing always gives a sane name, and keeps exactly the sane ones. */
  lemma SanitizeKeepsSane(text: string)
    ensures Sane(Sanitize(text))
    ensures Sanitize(text) == text <==> Sane(text)
  {
    assert Sane("node");
    ReplacedIsSane(StripRight(StripLeft(text)));
    ReplacedIsSane(text);
    if Sane(text) {
      NameCharIsNotSpace(text[0]);
      NameCharIsNotSpace(text[|text| - 1]);
    }
    hide IsSpace, NameChar, Replaced;
  }

  // ---- Export ----

  const ROOT := Blank(Num(0)).(parent := None)
  const LAYER := Blank(Num(1)).(parent := Some(Num(0)))

  function Blank(id: Id): Cell {
    Cell(id, Some(Num(0)), false, false, "", "", "", "", map[], map[], 100.0, 100.0, None, None, None, None)
  }

  function MetaCell(t: Topology): Cell {
    Blank(Named("dnlab_meta")).(mgmt := t.mgmt)
  }

  function NodeCell(look: Look, n: Node, id: nat): Cell {
    Blank(Num(id)).(parent := Some(Num(1)), vertex := true, value := n.name, style := look.style(n.kind),
                    kind := n.kind, image := n.image, extra := n.extra, x := n.x, y := n.y)
  }

  function EdgeCell(text: string, l: Link, id: nat, source: Id, target: Id): Cell {
    Blank(Num(id)).(parent := Some(Num(1)), edge := true, value := text, source := Some(source), target := Some(target),
                    sourceIface := Some(l.sourceIface), targetIface := Some(l.targetIface))
  }

  function KindOf(nodes: seq<Node>, name: string): string {
    if nodes == [] then "" else if nodes[0].name == name then nodes[0].kind else KindOf(nodes[1..], name)
  }

  /** `_link_label`. */
  function Label(t: Topology, l: Link): string {
    if KindOf(t.nodes, l.source) == "_real_net" then l.targetIface
    else if KindOf(t.nodes, l.target) == "_real_net" then l.sourceIface
    else if l.sourceIface == "" then l.targetIface
    else if l.targetIface == "" then l.sourceIface
    else l.sourceIface + " \U{2013} " + l.targetIface
  }

  function NodeCells(look: Look, nodes: seq<Node>): (r: seq<Cell>)
    ensures |r| == |nodes| && forall i :: 0 <= i < |r| ==> r[i] == NodeCell(look, nodes[i], 2 + i)
  {
    seq(|nodes|, i requires 0 <= i < |nodes| => NodeCell(look, nodes[i], 2 + i))
  }

  /** The cell that stands for each name; the last node of a name wins. */
  function IdsOf(nodes: seq<Node>): map<string, Id> {
    if nodes == [] then map[]
    else IdsOf(nodes[..|nodes| - 1])[nodes[|nodes| - 1].name := Num(2 + |nodes| - 1)]
  }

  predicate Joined(nodes: seq<Node>, l: Link) {
    l.source in IdsOf(nodes) && l.target in IdsOf(nodes)
  }

  /** The edges for the links whose ends both exist. */
  function EdgeCells(t: Topology, links: seq<Link>, next: nat): seq<Cell> {
    if links == [] then []
    else if !Joined(t.nodes, links[0]) then EdgeCells(t, links[1..], next)
    else
      var ids := IdsOf(t.nodes);
      [EdgeCell(Label(t, links[0]), links[0], next, ids[links[0].source], ids[links[0].target])] + EdgeCells(t, links[1..], next + 1)
  }

  function Exported(look: Look, t: Topology): seq<Cell> {
    [ROOT, LAYER, MetaCell(t)] + NodeCells(look, t.nodes) + EdgeCells(t, t.links, 2 + |t.nodes|)
  }

  lemma NodeCellsNext(look: Look, nodes: seq<Node>, i: nat)
    requires i < |nodes|
    ensures NodeCells(look, nodes[..i + 1]) == NodeCells(look, nodes[..i]) + [NodeCell(look, nodes[i], 2 + i)]
    ensures IdsOf(nodes[..i + 1]) == IdsOf(nodes[..i])[nodes[i].name := Num(2 + i)]
  {
    assert nodes[..i + 1][..i] == nodes[..i] && nodes[..i + 1][i] == nodes[i];
  }

  /** The first loop of `to_xml`: a cell for every node, and the cell that stands for each name. */
  method ExportNodes(look: Look, nodes: seq<Node>) returns (cells: seq<Cell>, ids: map<string, Id>)
    ensures cells == NodeCells(look, nodes) && ids == IdsOf(nodes)
  {
    cells, ids := [], map[];
    for i := 0 to |nodes|
      invariant cells == NodeCells(look, nodes[..i]) && ids == IdsOf(nodes[..i])
    {
      NodeCellsNext(look, nodes, i);
      hide NodeCells, IdsOf, NodeCell;
      ids := ids[nodes[i].name := Num(2 + i)];
      cells := cells + [NodeCell(look, nodes[i], 2 + i)];
    }
    assert nodes[..|nodes|] == nodes;
  }

  /** The second loop of `to_xml`: an edge for every link whose ends both exist. */
  method ExportLinks(t: Topology, ids: map<string, Id>) returns (cells: seq<Cell>)
    requires ids == IdsOf(t.nodes)
    ensures cells == EdgeCells(t, t.links, 2 + |t.nodes|)
  {
    hide Label, EdgeCell, IdsOf;
    cells := [];
    var next: nat := 2 + |t.nodes|;
    ghost var all := EdgeCells(t, t.links, next);
    assert t.links[0..] == t.links && [] + all == all;
    for i := 0 to |t.links|
      invariant cells + EdgeCells(t, t.links[i..], next) == all
    {
      var l := t.links[i];
      assert t.links[i..][0] == l && t.links[i..][1..] == t.links[i + 1..];
      if l.source in ids && l.target in ids {
        var cell := EdgeCell(Label(t, l), l, next, ids[l.source], ids[l.target]);
        ghost var rest := EdgeCells(t, t.links[i + 1..], next + 1);
        assert cells + ([cell] + rest) == (cells + [cell]) + rest;
        cells := cells + [cell];
        next := next + 1;
      }
    }
    assert t.links[|t.links|..] == [] && cells + [] == cells;
  }

  /** `to_xml`. */
  method ToXml(look: Look, t: Topology) returns (cells: seq<Cell>)
    ensures cells == Exported(look, t)
  {
    var nodes, ids := ExportNodes(look, t.nodes);
    var edges := ExportLinks(t, ids);
    cells := [ROOT, LAYER, MetaCell(t)] + nodes + edges;
  }

  // ---- Import ----

  /** Putting a cell into the table by id: a repeated id keeps its place and takes the later cell. */
  function Entered(items: seq<Cell>, c: Cell): seq<Cell> {
    if items == [] then [c]
    else if items[0].id == c.id then [c] + items[1..]
    else [items[0]] + Entered(items[1..], c)
  }

  function Items(cells: seq<Cell>): seq<Cell> {
    if cells == [] then [] else Entered(Items(cells[..|cells| - 1]), cells[|cells| - 1])
  }

  predicate IsVertex(c: Cell) {
    c.vertex && c.parent.Some? && c.parent.value !in {Named(""), Num(0)}
  }

  function NameOf(c: Cell): string {
    Sanitize(if c.value != "" then c.value else IdText(c.id))
  }

  function NodeFrom(look: Look, c: Cell): Node {
    Node(NameOf(c), if c.kind != "" then c.kind else look.kindOf(c.style), c.image, c.x, c.y, None, None, c.extra)
  }

  function NodesFrom(look: Look, items: seq<Cell>): seq<Node> {
    if items == [] then []
    else (if IsVertex(items[0]) then [NodeFrom(look, items[0])] else []) + NodesFrom(look, items[1..])
  }

  function NamesFrom(items: seq<Cell>): map<Id, string> {
    if items == [] then map[]
    else
      var before, c := NamesFrom(items[..|items| - 1]), items[|items| - 1];
      if IsVertex(c) then before[c.id := NameOf(c)] else before
  }

  /** The cell an end of an edge names; a missing end is the empty text. */
  function End(end: Option<Id>): Id {
    if end.Some? then end.value else Named("")
  }

  predicate IsLink(names: map<Id, string>, c: Cell) {
    c.edge && End(c.source) in names && End(c.target) in names
  }

  function LinkFrom(look: Look, names: map<Id, string>, c: Cell): Link
    requires IsLink(names, c)
  {
    var guessed := look.ifacesOf(c.value);
    var (a, b) := if c.sourceIface.None? && c.targetIface.None? then guessed
                  else (if c.sourceIface.Some? then c.sourceIface.value else "", if c.targetIface.Some? then c.targetIface.value else "");
    Link(names[End(c.source)], a, names[End(c.target)], b)
  }

  function LinksFrom(look: Look, names: map<Id, string>, items: seq<Cell>): seq<Link> {
    if items == [] then []
    else (if IsLink(names, items[0]) then [LinkFrom(look, names, items[0])] else []) + LinksFrom(look, names, items[1..])
  }

  function MgmtFrom(items: seq<Cell>): Json {
    if items == [] then map[]
    else if items[0].id == Named("dnlab_meta") then items[0].mgmt else MgmtFrom(items[1..])
  }

  function Imported(look: Look, cells: seq<Cell>): Topology {
    var items := Items(cells);
    Topology(NodesFrom(look, items), LinksFrom(look, NamesFrom(items), items), MgmtFrom(items))
  }

  lemma {:induction false} NodesFromAppend(look: Look, a: seq<Cell>, b: seq<Cell>)
    ensures NodesFrom(look, a + b) == NodesFrom(look, a) + NodesFrom(look, b)
  {
    if a == [] {
      assert a + b == b;
    } else {
      assert (a + b)[1..] == a[1..] + b;
      NodesFromAppend(look, a[1..], b);
    }
  }

  lemma {:induction false} LinksFromAppend(look: Look, names: map<Id, string>, a: seq<Cell>, b: seq<Cell>)
    ensures LinksFrom(look, names, a + b) == LinksFrom(look, names, a) + LinksFrom(look, names, b)
  {
    if a == [] {
      assert a + b == b;
    } else {
      assert (a + b)[1..] == a[1..] + b;
      LinksFromAppend(look, names, a[1..], b);
    }
  }

  /** The table of cells by id. */
  method Tabulate(cells: seq<Cell>) returns (items: seq<Cell>)
    ensures items == Items(cells)
  {
    items := [];
    for i := 0 to |cells|
      invariant items == Items(cells[..i])
    {
      assert cells[..i + 1][..i] == cells[..i];
      items := Entered(items, cells[i]);
    }
    assert cells[..|cells|] == cells;
  }

  lemma NodesFromNext(look: Look, items: seq<Cell>, i: nat)
    requires i < |items|
    ensures NodesFrom(look, items[..i + 1]) ==
      NodesFrom(look, items[..i]) + if IsVertex(items[i]) then [NodeFrom(look, items[i])] else []
    ensures NamesFrom(items[..i + 1]) ==
      if IsVertex(items[i]) then NamesFrom(items[..i])[items[i].id := NameOf(items[i])] else NamesFrom(items[..i])
  {
    assert items[..i + 1] == items[..i] + [items[i]] && items[..i + 1][..i] == items[..i];
    NodesFromAppend(look, items[..i], [items[i]]);
    assert [items[i]][1..] == [];
  }

  /** The first pass of `from_xml`. */
  method ImportNodes(look: Look, items: seq<Cell>) returns (nodes: seq<Node>, names: map<Id, string>)
    ensures nodes == NodesFrom(look, items) && names == NamesFrom(items)
  {
    nodes, names := [], map[];
    for i := 0 to |items|
      invariant nodes == NodesFrom(look, items[..i]) && names == NamesFrom(items[..i])
    {
      NodesFromNext(look, items, i);
      hide NodesFrom, NamesFrom, NodeFrom, NameOf;
      var c := items[i];
      if IsVertex(c) {
        nodes := nodes + [NodeFrom(look, c)];
        names := names[c.id := NameOf(c)];
      }
    }
    assert items[..|items|] == items;
  }

  lemma LinksFromNext(look: Look, names: map<Id, string>, items: seq<Cell>, i: nat)
    requires i < |items|
    ensures LinksFrom(look, names, items[..i + 1]) ==
      LinksFrom(look, names, items[..i]) + if IsLink(names, items[i]) then [LinkFrom(look, names, items[i])] else []
  {
    assert items[..i + 1] == items[..i] + [items[i]];
    LinksFromAppend(look, names, items[..i], [items[i]]);
    assert [items[i]][1..] == [];
  }

  /** The second pass of `from_xml`. */
  method ImportLinks(look: Look, names: map<Id, string>, items: seq<Cell>) returns (links: seq<Link>)
    ensures links == LinksFrom(look, names, items)
  {
    links := [];
    for i := 0 to |items|
      invariant links == LinksFrom(look, names, items[..i])
    {
      LinksFromNext(look, names, items, i);
      hide LinksFrom, LinkFrom;
      if IsLink(names, items[i]) {
        links := links + [LinkFrom(look, names, items[i])];
      }
    }
    assert items[..|items|] == items;
  }

  /** `from_xml`: the table of cells, the vertices, then the edges. */
  method FromXml(look: Look, cells: seq<Cell>) returns (t: Topology)
    ensures t == Imported(look, cells)
  {
    var items := Tabulate(cells);
    var nodes, names := ImportNodes(look, items);
    var links := ImportLinks(look, names, items);
    t := Topology(nodes, links, MgmtFrom(items));
  }

  // ---- Round trip ----

  ghost predicate DistinctIds(cells: seq<Cell>) {
    forall i, j :: 0 <= i < j < |cells| ==> cells[i].id != cells[j].id
  }

  lemma {:induction false} EnteredNew(items: seq<Cell>, c: Cell)
    requires forall i :: 0 <= i < |items| ==> items[i].id != c.id
    ensures Entered(items, c) == items + [c]
  {
    if items != [] { EnteredNew(items[1..], c); }
  }

  lemma {:induction false} ItemsDistinct(cells: seq<Cell>)
    requires DistinctIds(cells)
    ensures Items(cells) == cells
  {
    if cells != [] {
      var init := cells[..|cells| - 1];
      ItemsDistinct(init);
      EnteredNew(init, cells[|cells| - 1]);
    }
  }

  /** Every edge is numbered from `next` on, and is an edge. */
  lemma {:induction false} EdgeCellAt(t: Topology, links: seq<Link>, next: nat, i: nat)
    requires i < |EdgeCells(t, links, next)|
    ensures var c := EdgeCells(t, links, next)[i]; c.id == Num(next + i) && !c.vertex && c.edge
  {
    var es := EdgeCells(t, links, next);
    if !Joined(t.nodes, links[0]) {
      assert es == EdgeCells(t, links[1..], next);
      EdgeCellAt(t, links[1..], next, i);
    } else {
      var ids, rest := IdsOf(t.nodes), EdgeCells(t, links[1..], next + 1);
      assert es == [EdgeCell(Label(t, links[0]), links[0], next, ids[links[0].source], ids[links[0].target])] + rest;
      if i > 0 {
        EdgeCellAt(t, links[1..], next + 1, i - 1);
        assert es[i] == rest[i - 1];
      }
    }
  }

  lemma ExportedDistinct(look: Look, t: Topology)
    ensures DistinctIds(Exported(look, t))
  {
    var ns, es := NodeCells(look, t.nodes), EdgeCells(t, t.links, 2 + |t.nodes|);
    var cells := Exported(look, t);
    assert cells[0] == ROOT && cells[1] == LAYER && cells[2] == MetaCell(t);
    forall i | 3 <= i < |cells| ensures cells[i].id == Num(i - 1) {
      if i < 3 + |ns| {
        assert cells[i] == ns[i - 3];
      } else {
        assert cells[i] == es[i - 3 - |ns|];
        EdgeCellAt(t, t.links, 2 + |t.nodes|, i - 3 - |ns|);
      }
    }
  }

  lemma {:induction false} NoVertices(look: Look, cells: seq<Cell>)
    requires forall i :: 0 <= i < |cells| ==> !IsVertex(cells[i])
    ensures NodesFrom(look, cells) == []
  {
    if cells != [] { NoVertices(look, cells[1..]); }
  }

  lemma {:induction false} NoEdges(look: Look, names: map<Id, string>, cells: seq<Cell>)
    requires forall i :: 0 <= i < |cells| ==> !cells[i].edge
    ensures LinksFrom(look, names, cells) == []
  {
    if cells != [] { NoEdges(look, names, cells[1..]); }
  }

  /** The node that comes back for a node exported with number `id`. */
  function NodeBack(look: Look, n: Node, id: nat): Node {
    Node(Sanitize(if n.name != "" then n.name else Digits(id)), if n.kind != "" then n.kind else look.kindOf(look.style(n.kind)),
         n.image, n.x, n.y, None, None, n.extra)
  }

  function NodesBack(look: Look, nodes: seq<Node>): (r: seq<Node>)
    ensures |r| == |nodes| && forall i :: 0 <= i < |r| ==> r[i] == NodeBack(look, nodes[i], 2 + i)
  {
    seq(|nodes|, i requires 0 <= i < |nodes| => NodeBack(look, nodes[i], 2 + i))
  }

  lemma {:induction false} AllVertices(look: Look, cells: seq<Cell>)
    requires forall i :: 0 <= i < |cells| ==> IsVertex(cells[i])
    ensures |NodesFrom(look, cells)| == |cells|
    ensures forall i :: 0 <= i < |cells| ==> NodesFrom(look, cells)[i] == NodeFrom(look, cells[i])
  {
    if cells != [] { AllVertices(look, cells[1..]); }
  }

  /** The name under which links to nodes of this name come back. */
  function NameBack(nodes: seq<Node>, name: string): string
    requires name in IdsOf(nodes)
  {
    if name != "" then Sanitize(name) else Sanitize(IdText(IdsOf(nodes)[name]))
  }

  function LinksBack(nodes: seq<Node>, links: seq<Link>): seq<Link> {
    if links == [] then []
    else if !Joined(nodes, links[0]) then LinksBack(nodes, links[1..])
    else [links[0].(source := NameBack(nodes, links[0].source), target := NameBack(nodes, links[0].target))] + LinksBack(nodes, links[1..])
  }

  /** What an export followed by an import makes of any topology. */
  function Back(look: Look, t: Topology): Topology {
    Topology(NodesBack(look, t.nodes), LinksBack(t.nodes, t.links), t.mgmt)
  }

  lemma NodeComesBack(look: Look, n: Node, id: nat)
    ensures IsVertex(NodeCell(look, n, id)) && NodeFrom(look, NodeCell(look, n, id)) == NodeBack(look, n, id)
  {
  }

  lemma NodeCellsComeBack(look: Look, nodes: seq<Node>)
    ensures NodesFrom(look, NodeCells(look, nodes)) == NodesBack(look, nodes)
  {
    var ns := NodeCells(look, nodes);
    hide NodeCell, NodeFrom, NodeBack, IsVertex;
    forall i | 0 <= i < |ns| ensures IsVertex(ns[i]) && NodeFrom(look, ns[i]) == NodeBack(look, nodes[i], 2 + i) {
      NodeComesBack(look, nodes[i], 2 + i);
    }
    AllVertices(look, ns);
    hide NodesFrom, NodesBack;
  }

  lemma NodesComeBack(look: Look, t: Topology)
    ensures NodesFrom(look, Exported(look, t)) == NodesBack(look, t.nodes)
  {
    var head, ns, es := [ROOT, LAYER, MetaCell(t)], NodeCells(look, t.nodes), EdgeCells(t, t.links, 2 + |t.nodes|);
    forall i | 0 <= i < |es| ensures !IsVertex(es[i]) { EdgeCellAt(t, t.links, 2 + |t.nodes|, i); }
    NoVertices(look, head);
    NoVertices(look, es);
    assert Exported(look, t) == head + ns + es;
    hide *;
    NodesFromAppend(look, head + ns, es);
    NodesFromAppend(look, head, ns);
    NodeCellsComeBack(look, t.nodes);
  }

  /** A number between 2 and the node count is the name of the node exported under it. */
  lemma {:induction false} NamesNumbered(cells: seq<Cell>, i: nat)
    requires DistinctIds(cells) && i < |cells|
    ensures cells[i].id in NamesFrom(cells) <==> IsVertex(cells[i])
    ensures IsVertex(cells[i]) ==> NamesFrom(cells)[cells[i].id] == NameOf(cells[i])
  {
    var init := cells[..|cells| - 1];
    if i < |init| {
      NamesNumbered(init, i);
    } else {
      NamesOutside(init, cells[i].id);
    }
  }

  lemma {:induction false} NamesOutside(cells: seq<Cell>, id: Id)
    requires forall i :: 0 <= i < |cells| ==> cells[i].id != id
    ensures id !in NamesFrom(cells)
  {
    if cells != [] { NamesOutside(cells[..|cells| - 1], id); }
  }

  /** The cell recorded for a name is that of a node with the name. */
  lemma {:induction false} IdsNamed(nodes: seq<Node>, name: string)
    ensures name in IdsOf(nodes) <==> exists i :: 0 <= i < |nodes| && nodes[i].name == name
    ensures name in IdsOf(nodes) ==>
      exists i :: 0 <= i < |nodes| && nodes[i].name == name && IdsOf(nodes)[name] == Num(2 + i)
  {
    if nodes != [] {
      var init, last := nodes[..|nodes| - 1], nodes[|nodes| - 1];
      IdsNamed(init, name);
      assert nodes == init + [last];
    }
  }

  lemma NamesComeBack(look: Look, t: Topology, name: string)
    requires name in IdsOf(t.nodes)
    ensures var names := NamesFrom(Exported(look, t));
      IdsOf(t.nodes)[name] in names && names[IdsOf(t.nodes)[name]] == NameBack(t.nodes, name)
  {
    IdsNamed(t.nodes, name);
    var i :| 0 <= i < |t.nodes| && t.nodes[i].name == name && IdsOf(t.nodes)[name] == Num(2 + i);
    var cells := Exported(look, t);
    ExportedDistinct(look, t);
    assert cells[3 + i] == NodeCells(look, t.nodes)[i];
    NamesNumbered(cells, 3 + i);
  }

  lemma {:induction false} EdgesComeBack(look: Look, t: Topology, links: seq<Link>, next: nat)
    ensures LinksFrom(look, NamesFrom(Exported(look, t)), EdgeCells(t, links, next)) == LinksBack(t.nodes, links)
  {
    if links != [] {
      var l := links[0];
      if Joined(t.nodes, l) {
        EdgesComeBack(look, t, links[1..], next + 1);
        NamesComeBack(look, t, l.source);
        NamesComeBack(look, t, l.target);
        var es, ids := EdgeCells(t, links, next), IdsOf(t.nodes);
        assert es == [EdgeCell(Label(t, l), l, next, ids[l.source], ids[l.target])] + EdgeCells(t, links[1..], next + 1);
        assert es[1..] == EdgeCells(t, links[1..], next + 1);
      } else {
        EdgesComeBack(look, t, links[1..], next);
      }
    }
  }

  lemma LinksComeBack(look: Look, t: Topology)
    ensures LinksFrom(look, NamesFrom(Exported(look, t)), Exported(look, t)) == LinksBack(t.nodes, t.links)
  {
    var names := NamesFrom(Exported(look, t));
    var head, ns, es := [ROOT, LAYER, MetaCell(t)], NodeCells(look, t.nodes), EdgeCells(t, t.links, 2 + |t.nodes|);
    LinksFromAppend(look, names, head + ns, es);
    NoEdges(look, names, head + ns);
    EdgesComeBack(look, t, t.links, 2 + |t.nodes|);
  }

  /** For every topology, importing its export gives the nodes and links in their order, with names sanitized, an
      empty kind guessed from the icon, management addresses outside `extra` dropped, and links to unknown nodes gone. */
  lemma ExportThenImport(look: Look, t: Topology)
    ensures Imported(look, Exported(look, t)) == Back(look, t)
  {
    ExportedDistinct(look, t);
    ItemsDistinct(Exported(look, t));
    NodesComeBack(look, t);
    LinksComeBack(look, t);
    MgmtComesBack(look, t);
  }

  lemma MgmtComesBack(look: Look, t: Topology)
    ensures MgmtFrom(Exported(look, t)) == t.mgmt
  {
    var cells := Exported(look, t);
    assert cells[0] == ROOT && cells[1] == LAYER && cells[2] == MetaCell(t);
    assert cells[1..][0] == LAYER && cells[1..][1..][0] == MetaCell(t);
    assert MgmtFrom(cells) == MgmtFrom(cells[1..]) == MgmtFrom(cells[1..][1..]);
  }

  predicate CleanNode(n: Node) {
    Sane(n.name) && n.kind != "" && n.mgmtIpv4.None? && n.mgmtIpv6.None?
  }

  /** Nothing that the round trip would change. */
  ghost predicate Clean(t: Topology) {
    && (forall i :: 0 <= i < |t.nodes| ==> CleanNode(t.nodes[i]))
    && (forall i :: 0 <= i < |t.links| ==> Joined(t.nodes, t.links[i]))
  }

  lemma {:induction false} LinksSame(nodes: seq<Node>, links: seq<Link>)
    requires forall i :: 0 <= i < |nodes| ==> Sane(nodes[i].name)
    ensures |LinksBack(nodes, links)| <= |links|
    ensures LinksBack(nodes, links) == links <==> forall i :: 0 <= i < |links| ==> Joined(nodes, links[i])
  {
    if links != [] {
      LinksSame(nodes, links[1..]);
      var l := links[0];
      if Joined(nodes, l) {
        NameSame(nodes, l.source);
        NameSame(nodes, l.target);
        assert LinksBack(nodes, links) == [l] + LinksBack(nodes, links[1..]);
        assert links == [l] + links[1..];
      } else {
        assert |LinksBack(nodes, links)| < |links|;
      }
    }
  }

  lemma NameSame(nodes: seq<Node>, name: string)
    requires name in IdsOf(nodes) && forall i :: 0 <= i < |nodes| ==> Sane(nodes[i].name)
    ensures NameBack(nodes, name) == name
  {
    IdsNamed(nodes, name);
    SanitizeKeepsSane(name);
  }

  /** The round trip is the identity exactly on clean topologies. */
  lemma RoundTrip(look: Look, t: Topology)
    requires forall s :: look.kindOf(s) != ""
    ensures Imported(look, Exported(look, t)) == t <==> Clean(t)
  {
    ExportThenImport(look, t);
    var nodes := NodesBack(look, t.nodes);
    forall i | 0 <= i < |t.nodes| ensures nodes[i] == t.nodes[i] <==> CleanNode(t.nodes[i]) {
      var n := t.nodes[i];
      SanitizeKeepsSane(n.name);
      SanitizeKeepsSane(Digits(2 + i));
    }
    if nodes == t.nodes {
      forall i | 0 <= i < |t.nodes| ensures CleanNode(t.nodes[i]) { assert nodes[i] == t.nodes[i]; }
      LinksSame(t.nodes, t.links);
    } else {
      assert exists i :: 0 <= i < |nodes| && nodes[i] != t.nodes[i];
    }
  }
}
