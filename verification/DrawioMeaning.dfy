/** What the export writes into each cell, and what the import reads from any cells. */
module DrawioMeaning {
  import opened Wrappers
  import opened Words
  import opened Selection
  import opened Drawio

  // ---- Names ----

  ghost predicate Spaces(s: string) {
    forall i :: 0 <= i < |s| ==> IsSpace(s[i])
  }

  /** The text without the white space around it. */
  ghost predicate Stripped(text: string, inner: string) {
    && (inner != [] ==> !IsSpace(inner[0]) && !IsSpace(inner[|inner| - 1]))
    && exists pre, post :: Around(text, pre, inner, post)
  }

  ghost predicate Around(text: string, pre: string, inner: string, post: string) {
    text == pre + inner + post && Spaces(pre) && Spaces(post)
  }

  lemma {:induction false} StripLeftMeans(s: string) returns (pre: string)
    ensures s == pre + StripLeft(s) && Spaces(pre)
    ensures StripLeft(s) != [] ==> !IsSpace(StripLeft(s)[0])
  {
    if s != [] && IsSpace(s[0]) {
      var rest := StripLeftMeans(s[1..]);
      pre := [s[0]] + rest;
      assert s == [s[0]] + s[1..];
    } else {
      pre := [];
    }
  }

  lemma {:induction false} StripRightMeans(s: string) returns (post: string)
    ensures s == StripRight(s) + post && Spaces(post)
    ensures StripRight(s) != [] ==> !IsSpace(StripRight(s)[|StripRight(s)| - 1])
    ensures StripRight(s) != [] ==> StripRight(s)[0] == s[0]
  {
    if s != [] && IsSpace(s[|s| - 1]) {
      var rest := StripRightMeans(s[..|s| - 1]);
      post := rest + [s[|s| - 1]];
      assert s == s[..|s| - 1] + [s[|s| - 1]];
    } else {
      post := [];
    }
  }

  /** A sanitized name is the text without the white space around it, with an underscore for every character that
      containerlab does not take; a text that is all white space becomes "node". */
  lemma SanitizeMeans(text: string)
    ensures exists inner :: Stripped(text, inner) && Sanitized(inner, Sanitize(text))
  {
    var pre := StripLeftMeans(text);
    var left := StripLeft(text);
    var post := StripRightMeans(left);
    var inner := StripRight(left);
    assert text == pre + inner + post;
    assert Around(text, pre, inner, post);
    assert Sanitized(inner, Sanitize(text));
  }

  ghost predicate Sanitized(inner: string, name: string) {
    if inner == [] then name == "node"
    else |name| == |inner| && forall i :: 0 <= i < |name| ==> name[i] == if Letter(inner[i]) then inner[i] else '_'
  }

  ghost predicate Letter(c: char) {
    'a' <= c <= 'z' || 'A' <= c <= 'Z' || '0' <= c <= '9' || c == '_' || c == '-'
  }

  ghost function Value(s: string): int {
    if s == [] then 0 else 10 * Value(s[..|s| - 1]) + (s[|s| - 1] as int - '0' as int)
  }

  /** Ids are printed in decimal. */
  lemma {:induction false} DigitsMeans(n: nat)
    ensures Value(Digits(n)) == n && (forall i :: 0 <= i < |Digits(n)| ==> '0' <= Digits(n)[i] <= '9')
    ensures n > 0 ==> Digits(n)[0] != '0'
  {
    var d := [('0' as int + n % 10) as char];
    if n < 10 {
      assert d[..0] == [];
    } else {
      DigitsMeans(n / 10);
      assert Digits(n) == Digits(n / 10) + d;
      assert Digits(n)[..|Digits(n)| - 1] == Digits(n / 10);
    }
  }

  // ---- Export ----

  ghost predicate NodeWritten(n: Node, id: nat, c: Cell) {
    && c.id == Num(id) && c.parent == Some(Num(1)) && c.vertex && !c.edge && c.value == n.name
    && c.kind == n.kind && c.image == n.image && c.extra == n.extra && c.x == n.x && c.y == n.y
  }

  /** The number is that of the last node with the name. */
  ghost predicate LastNamed(nodes: seq<Node>, name: string, id: Option<Id>) {
    exists i :: 0 <= i < |nodes| && nodes[i].name == name && id == Some(Num(2 + i)) && forall j :: i < j < |nodes| ==> nodes[j].name != name
  }

  ghost predicate FirstNamed(nodes: seq<Node>, name: string, kind: string) {
    exists i :: 0 <= i < |nodes| && nodes[i].name == name && nodes[i].kind == kind && forall j :: 0 <= j < i ==> nodes[j].name != name
  }

  /** The label shows the interfaces of devices: none of a RealNet router, and no separator for one alone. */
  ghost predicate Labelled(t: Topology, l: Link, text: string) {
    if FirstNamed(t.nodes, l.source, "_real_net") then text == l.targetIface
    else if FirstNamed(t.nodes, l.target, "_real_net") then text == l.sourceIface
    else if l.sourceIface == "" || l.targetIface == "" then text == l.sourceIface + l.targetIface
    else text == l.sourceIface + " \U{2013} " + l.targetIface
  }

  ghost predicate LinkWritten(t: Topology, l: Link, id: nat, c: Cell) {
    && c.id == Num(id) && c.parent == Some(Num(1)) && c.edge && !c.vertex && Labelled(t, l, c.value)
    && LastNamed(t.nodes, l.source, c.source) && LastNamed(t.nodes, l.target, c.target)
    && c.sourceIface == Some(l.sourceIface) && c.targetIface == Some(l.targetIface)
  }

  ghost predicate BetweenNodes(nodes: seq<Node>, l: Link) {
    (exists n :: n in nodes && n.name == l.source) && exists n :: n in nodes && n.name == l.target
  }

  lemma {:induction false} IdsMean(nodes: seq<Node>, name: string)
    ensures name in IdsOf(nodes) <==> exists n :: n in nodes && n.name == name
    ensures name in IdsOf(nodes) ==> LastNamed(nodes, name, Some(IdsOf(nodes)[name]))
  {
    if nodes != [] {
      var init, last := nodes[..|nodes| - 1], nodes[|nodes| - 1];
      IdsMean(init, name);
      assert nodes == init + [last];
      if last.name != name && name in IdsOf(init) {
        var i :| 0 <= i < |init| && init[i].name == name && IdsOf(init)[name] == Num(2 + i) && forall j :: i < j < |init| ==> init[j].name != name;
        assert nodes[i] == init[i] && forall j :: i < j < |nodes| ==> nodes[j].name != name;
      }
    }
  }

  lemma FirstNamedCons(n: Node, nodes: seq<Node>, name: string, kind: string)
    requires n.name != name
    ensures FirstNamed([n] + nodes, name, kind) <==> FirstNamed(nodes, name, kind)
  {
    var all := [n] + nodes;
    if i :| 0 <= i < |nodes| && nodes[i].name == name && nodes[i].kind == kind && forall j :: 0 <= j < i ==> nodes[j].name != name {
      assert all[i + 1] == nodes[i] && forall j :: 0 < j <= i ==> all[j] == nodes[j - 1];
    }
    if i :| 0 <= i < |all| && all[i].name == name && all[i].kind == kind && forall j :: 0 <= j < i ==> all[j].name != name {
      assert all[i] == nodes[i - 1] && forall j :: 0 <= j < i - 1 ==> nodes[j] == all[j + 1];
    }
  }

  lemma {:induction false} KindMeans(nodes: seq<Node>, name: string)
    ensures KindOf(nodes, name) == "_real_net" <==> FirstNamed(nodes, name, "_real_net")
  {
    if nodes != [] && nodes[0].name != name {
      KindMeans(nodes[1..], name);
      FirstNamedCons(nodes[0], nodes[1..], name, "_real_net");
      assert [nodes[0]] + nodes[1..] == nodes;
      hide FirstNamed;
    }
  }

  lemma LabelMeans(t: Topology, l: Link)
    ensures Labelled(t, l, Label(t, l))
  {
    KindMeans(t.nodes, l.source);
    KindMeans(t.nodes, l.target);
    hide KindOf, FirstNamed;
  }

  /** The links whose ends both exist. */
  ghost function Complete(nodes: seq<Node>, links: seq<Link>): seq<Link> {
    Filter(links, (l: Link) => BetweenNodes(nodes, l))
  }

  lemma CompleteCons(nodes: seq<Node>, l: Link, links: seq<Link>)
    ensures Complete(nodes, [l] + links) == (if Joined(nodes, l) then [l] else []) + Complete(nodes, links)
  {
    IdsMean(nodes, l.source);
    IdsMean(nodes, l.target);
    FilterCons(l, links, (l: Link) => BetweenNodes(nodes, l));
    hide IdsOf, Filter;
  }

  /** One edge for each of the links, numbered from `next` on. */
  ghost predicate EdgesAre(t: Topology, links: seq<Link>, next: nat, es: seq<Cell>) {
    |es| == |links| && forall j :: 0 <= j < |es| ==> LinkWritten(t, links[j], next + j, es[j])
  }

  lemma EdgesAreCons(t: Topology, l: Link, links: seq<Link>, next: nat, e: Cell, es: seq<Cell>)
    requires LinkWritten(t, l, next, e) && EdgesAre(t, links, next + 1, es)
    ensures EdgesAre(t, [l] + links, next, [e] + es)
  {
    hide LinkWritten;
    forall j | 0 <= j < |es| + 1 ensures LinkWritten(t, ([l] + links)[j], next + j, ([e] + es)[j]) {
      if j > 0 {
        assert LinkWritten(t, links[j - 1], next + 1 + (j - 1), es[j - 1]);
      }
    }
  }

  lemma EdgeWritten(t: Topology, l: Link, next: nat)
    requires Joined(t.nodes, l)
    ensures LinkWritten(t, l, next, EdgeCell(Label(t, l), l, next, IdsOf(t.nodes)[l.source], IdsOf(t.nodes)[l.target]))
  {
    IdsMean(t.nodes, l.source);
    IdsMean(t.nodes, l.target);
    LabelMeans(t, l);
    hide IdsOf, Label, Labelled, LastNamed;
  }

  lemma {:induction false} EdgesWritten(t: Topology, links: seq<Link>, next: nat)
    ensures EdgesAre(t, Complete(t.nodes, links), next, EdgeCells(t, links, next))
  {
    hide LinkWritten, Label, EdgeCell, Complete, Joined;
    if links == [] {
      CompleteNone(t.nodes);
    } else {
      var l, rest := links[0], links[1..];
      CompleteCons(t.nodes, l, rest);
      assert [l] + rest == links;
      if Joined(t.nodes, l) {
        EdgeWritten(t, l, next);
        EdgesWritten(t, rest, next + 1);
        JoinedHas(t.nodes, l);
        EdgesAreCons(t, l, Complete(t.nodes, rest), next,
                     EdgeCell(Label(t, l), l, next, IdsOf(t.nodes)[l.source], IdsOf(t.nodes)[l.target]), EdgeCells(t, rest, next + 1));
      } else {
        EdgesWritten(t, rest, next);
        assert [] + Complete(t.nodes, rest) == Complete(t.nodes, rest);
      }
    }
  }

  lemma CompleteNone(nodes: seq<Node>)
    ensures Complete(nodes, []) == []
  {
  }

  lemma JoinedHas(nodes: seq<Node>, l: Link)
    requires Joined(nodes, l)
    ensures l.source in IdsOf(nodes) && l.target in IdsOf(nodes)
  {
  }

  /** The export is two cells of the format, one with the management block, one for each node, and one for each link whose
      ends both exist, numbered from 2 on. */
  lemma ExportMeans(look: Look, t: Topology)
    ensures var cells, n := Exported(look, t), |t.nodes|;
      && |cells| >= 3 + n
      && cells[0].id == Num(0) && cells[0].parent == None && cells[1].id == Num(1) && cells[1].parent == Some(Num(0))
      && cells[2].id == Named("dnlab_meta") && cells[2].mgmt == t.mgmt
      && (forall i :: 0 <= i < 3 ==> !cells[i].vertex && !cells[i].edge)
      && (forall i :: 0 <= i < n ==> NodeWritten(t.nodes[i], 2 + i, cells[3 + i]) && cells[3 + i].style == look.style(t.nodes[i].kind))
      && EdgesAre(t, Complete(t.nodes, t.links), 2 + n, cells[3 + n..])
  {
    EdgesWritten(t, t.links, 2 + |t.nodes|);
    ExportParts(look, t);
    hide EdgeCells, EdgesAre, Exported, Complete;
    forall i | 0 <= i < |t.nodes|
      ensures NodeWritten(t.nodes[i], 2 + i, Exported(look, t)[3 + i]) && Exported(look, t)[3 + i].style == look.style(t.nodes[i].kind)
    {
      assert Exported(look, t)[3 + i] == NodeCell(look, t.nodes[i], 2 + i);
    }
  }

  lemma ExportParts(look: Look, t: Topology)
    ensures var cells, n := Exported(look, t), |t.nodes|;
      && |cells| >= 3 + n && cells[0] == ROOT && cells[1] == LAYER && cells[2] == MetaCell(t)
      && (forall i :: 0 <= i < n ==> cells[3 + i] == NodeCell(look, t.nodes[i], 2 + i))
      && cells[3 + n..] == EdgeCells(t, t.links, 2 + n)
  {
    hide EdgeCells, NodeCell;
    var cells, n, ns, es := Exported(look, t), |t.nodes|, NodeCells(look, t.nodes), EdgeCells(t, t.links, 2 + |t.nodes|);
    assert cells == [ROOT, LAYER, MetaCell(t)] + ns + es;
    forall i | 0 <= i < n ensures cells[3 + i] == NodeCell(look, t.nodes[i], 2 + i) {
      assert cells[3 + i] == ns[i];
    }
  }

  // ---- Import ----

  /** The table of cells: one for each id, the last with the id, in the order in which ids first occur. */
  ghost predicate TableOf(cells: seq<Cell>, items: seq<Cell>) {
    (forall c :: c in items <==> LastWithId(cells, c)) && InFirstOrder(cells, items)
  }

  ghost predicate InFirstOrder(cells: seq<Cell>, items: seq<Cell>) {
    forall i, j :: 0 <= i < j < |items| ==> IdOccursFirst(cells, items[i].id, items[j].id)
  }

  ghost predicate LastWithId(cells: seq<Cell>, c: Cell) {
    exists k :: 0 <= k < |cells| && cells[k] == c && forall l :: k < l < |cells| ==> cells[l].id != c.id
  }

  ghost predicate HasId(cells: seq<Cell>, id: Id) {
    exists c :: c in cells && c.id == id
  }

  /** Some prefix of the cells has the one id and not the other. */
  ghost predicate IdOccursFirst(cells: seq<Cell>, x: Id, y: Id) {
    exists a :: 0 <= a <= |cells| && HasId(cells[..a], x) && !HasId(cells[..a], y)
  }

  lemma {:induction false} EnteredAt(items: seq<Cell>, c: Cell)
    ensures var r := Entered(items, c);
      && |r| == (if HasId(items, c.id) then |items| else |items| + 1)
      && (forall i :: 0 <= i < |items| ==> r[i].id == items[i].id)
      && (!HasId(items, c.id) ==> r[|items|] == c)
  {
    if items != [] && items[0].id != c.id {
      var rest := items[1..];
      EnteredAt(rest, c);
      assert HasId(items, c.id) <==> HasId(rest, c.id) by {
        assert forall x :: x in items <==> x == items[0] || x in rest;
      }
      assert Entered(items, c) == [items[0]] + Entered(rest, c);
      hide Entered, HasId;
      assert forall i :: 0 < i < |items| ==> items[i] == rest[i - 1];
    } else if items != [] {
      assert items[0] in items;
    }
  }

  lemma {:induction false} EnteredMembers(items: seq<Cell>, c: Cell, x: Cell)
    requires DistinctIds(items)
    ensures x in Entered(items, c) <==> x == c || (x in items && x.id != c.id)
  {
    if items != [] {
      var rest := items[1..];
      assert forall i :: 0 <= i < |rest| ==> rest[i] == items[i + 1] && rest[i].id != items[0].id;
      assert x in items <==> x == items[0] || x in rest;
      if items[0].id != c.id {
        EnteredMembers(rest, c, x);
      }
    }
  }

  lemma LastAppend(init: seq<Cell>, c: Cell, x: Cell)
    ensures LastWithId(init + [c], x) <==> x == c || (x.id != c.id && LastWithId(init, x))
  {
    var cells, n := init + [c], |init|;
    assert cells[n] == c && forall k :: 0 <= k < n ==> cells[k] == init[k];
    if LastWithId(cells, x) {
      var k :| 0 <= k < |cells| && cells[k] == x && forall l :: k < l < |cells| ==> cells[l].id != x.id;
      if k < n { assert init[k] == x && forall l :: k < l < n ==> init[l].id != x.id; }
    }
    if x.id != c.id && LastWithId(init, x) {
      var k :| 0 <= k < n && init[k] == x && forall l :: k < l < n ==> init[l].id != x.id;
      assert cells[k] == x && forall l :: k < l < |cells| ==> cells[l].id != x.id;
    }
  }

  lemma FirstLater(init: seq<Cell>, c: Cell, x: Id, y: Id)
    requires IdOccursFirst(init, x, y)
    ensures IdOccursFirst(init + [c], x, y)
  {
    var a :| 0 <= a <= |init| && HasId(init[..a], x) && !HasId(init[..a], y);
    assert (init + [c])[..a] == init[..a];
  }

  lemma TableIds(cells: seq<Cell>, items: seq<Cell>)
    requires TableOf(cells, items)
    ensures DistinctIds(items) && forall id :: HasId(items, id) ==> HasId(cells, id)
  {
    forall i, j | 0 <= i < j < |items| ensures items[i].id != items[j].id {
      assert IdOccursFirst(cells, items[i].id, items[j].id);
    }
    forall id | HasId(items, id) ensures HasId(cells, id) {
      var c :| c in items && c.id == id;
      assert LastWithId(cells, c);
    }
  }

  lemma OrderNext(init: seq<Cell>, items: seq<Cell>, c: Cell)
    requires TableOf(init, items)
    ensures InFirstOrder(init + [c], Entered(items, c))
  {
    EnteredAt(items, c);
    hide Entered, IdOccursFirst, HasId;
    var r := Entered(items, c);
    forall i, j | 0 <= i < j < |r| ensures IdOccursFirst(init + [c], r[i].id, r[j].id) {
      if j < |items| {
        FirstLater(init, c, items[i].id, items[j].id);
      } else {
        NewIdLast(init, items, c, i);
      }
    }
  }

  lemma TableNext(init: seq<Cell>, items: seq<Cell>, c: Cell)
    requires TableOf(init, items)
    ensures TableOf(init + [c], Entered(items, c))
  {
    TableIds(init, items);
    OrderNext(init, items, c);
    hide Entered, LastWithId, InFirstOrder, DistinctIds, HasId;
    forall x ensures x in Entered(items, c) <==> LastWithId(init + [c], x) {
      EnteredMembers(items, c, x);
      LastAppend(init, c, x);
    }
  }

  lemma NewIdLast(init: seq<Cell>, items: seq<Cell>, c: Cell, i: nat)
    requires TableOf(init, items) && !HasId(items, c.id) && i < |items|
    ensures IdOccursFirst(init + [c], items[i].id, c.id)
  {
    assert (init + [c])[..|init|] == init;
    assert items[i] in items;
    assert HasId(init, items[i].id) by { TableIds(init, items); assert HasId(items, items[i].id); }
    NoLastNoId(init, items, c.id);
  }

  lemma {:induction false} NoLastNoId(cells: seq<Cell>, items: seq<Cell>, id: Id)
    requires (forall c :: c in items <==> LastWithId(cells, c)) && !HasId(items, id)
    ensures !HasId(cells, id)
  {
    forall k | 0 <= k < |cells| ensures cells[k].id != id {
      LastOf(cells, k);
    }
  }

  /** Every id that occurs has a last cell. */
  lemma {:induction false} LastOf(cells: seq<Cell>, k: nat)
    requires k < |cells|
    ensures exists c :: LastWithId(cells, c) && c.id == cells[k].id
    decreases |cells| - k
  {
    if l :| k < l < |cells| && cells[l].id == cells[k].id {
      LastOf(cells, l);
    } else {
      assert LastWithId(cells, cells[k]);
    }
  }

  /** A drawing is read from the table of its cells. */
  lemma {:induction false} ItemsMean(cells: seq<Cell>)
    ensures TableOf(cells, Items(cells))
  {
    hide TableOf;
    if cells == [] {
      EmptyTable();
    } else {
      var init, c := cells[..|cells| - 1], cells[|cells| - 1];
      ItemsMean(init);
      TableNext(init, Items(init), c);
      assert init + [c] == cells;
    }
  }

  lemma EmptyTable()
    ensures TableOf([], [])
  {
  }

  /** A cell for a node: a vertex inside a layer. */
  ghost predicate NodeLike(c: Cell) {
    c.vertex && c.parent.Some? && c.parent.value != Num(0) && c.parent.value != Named("")
  }

  /** The name a cell gives its node: its label, or its id if it has none, sanitized. */
  ghost function NameRead(c: Cell): string {
    Sanitize(if c.value != "" then c.value else match c.id case Num(n) => Digits(n) case Named(text) => text)
  }

  ghost predicate NodeRead(look: Look, c: Cell, n: Node) {
    && n.name == NameRead(c) && n.kind == (if c.kind == "" then look.kindOf(c.style) else c.kind)
    && n.image == c.image && n.extra == c.extra && n.x == c.x && n.y == c.y && n.mgmtIpv4 == None && n.mgmtIpv6 == None
  }

  /** The end of an edge is a node of the name; an end that is missing counts as the empty id. */
  ghost predicate EndRead(items: seq<Cell>, end: Option<Id>, name: string) {
    exists c :: c in items && NodeLike(c) && c.id == (if end.Some? then end.value else Named("")) && name == NameRead(c)
  }

  ghost predicate LinkLike(items: seq<Cell>, c: Cell) {
    c.edge && (exists name :: EndRead(items, c.source, name)) && exists name :: EndRead(items, c.target, name)
  }

  ghost predicate LinkRead(look: Look, items: seq<Cell>, c: Cell, l: Link) {
    && EndRead(items, c.source, l.source) && EndRead(items, c.target, l.target)
    && (if c.sourceIface.None? && c.targetIface.None? then (l.sourceIface, l.targetIface) == look.ifacesOf(c.value)
        else l.sourceIface == (if c.sourceIface.Some? then c.sourceIface.value else "")
             && l.targetIface == (if c.targetIface.Some? then c.targetIface.value else ""))
  }

  lemma NameIsRead(c: Cell)
    ensures NameOf(c) == NameRead(c) && (IsVertex(c) <==> NodeLike(c))
  {
  }

  lemma {:induction false} NamesMean(items: seq<Cell>, id: Id, name: string)
    requires DistinctIds(items)
    ensures id in NamesFrom(items) && NamesFrom(items)[id] == name <==>
      exists c :: c in items && NodeLike(c) && c.id == id && name == NameRead(c)
  {
    if items != [] {
      var init, c := items[..|items| - 1], items[|items| - 1];
      NamesMean(init, id, name);
      NameIsRead(c);
      assert forall x :: x in items <==> x == c || x in init;
      assert forall x :: x in init ==> x.id != c.id;
      hide NameOf, NameRead, IsVertex, NodeLike;
    }
  }

  lemma EndMeans(items: seq<Cell>, end: Option<Id>, name: string)
    requires DistinctIds(items)
    ensures End(end) in NamesFrom(items) && NamesFrom(items)[End(end)] == name <==> EndRead(items, end, name)
  {
    NamesMean(items, End(end), name);
    hide NamesFrom, NameRead, NodeLike;
  }

  lemma LinkMeans(look: Look, items: seq<Cell>, c: Cell)
    requires DistinctIds(items)
    ensures IsLink(NamesFrom(items), c) <==> LinkLike(items, c)
    ensures IsLink(NamesFrom(items), c) ==> LinkRead(look, items, c, LinkFrom(look, NamesFrom(items), c))
  {
    hide NamesFrom, EndRead, End;
    forall name ensures (End(c.source) in NamesFrom(items) && NamesFrom(items)[End(c.source)] == name <==> EndRead(items, c.source, name))
                        && (End(c.target) in NamesFrom(items) && NamesFrom(items)[End(c.target)] == name <==> EndRead(items, c.target, name)) {
      EndMeans(items, c.source, name);
      EndMeans(items, c.target, name);
    }
    if End(c.source) in NamesFrom(items) { assert EndRead(items, c.source, NamesFrom(items)[End(c.source)]); }
    if End(c.target) in NamesFrom(items) { assert EndRead(items, c.target, NamesFrom(items)[End(c.target)]); }
  }

  /** One node for each of the cells. */
  ghost predicate NodesRead(look: Look, cells: seq<Cell>, nodes: seq<Node>) {
    |nodes| == |cells| && forall i :: 0 <= i < |nodes| ==> NodeRead(look, cells[i], nodes[i])
  }

  ghost predicate LinksRead(look: Look, items: seq<Cell>, cells: seq<Cell>, links: seq<Link>) {
    |links| == |cells| && forall i :: 0 <= i < |links| ==> LinkRead(look, items, cells[i], links[i])
  }

  lemma {:induction false} NodesMean(look: Look, items: seq<Cell>)
    ensures NodesRead(look, Filter(items, NodeLike), NodesFrom(look, items))
  {
    if items != [] {
      var c, rest := items[0], items[1..];
      NodesMean(look, rest);
      NodeMeans(look, c);
      FilterCons(c, rest, NodeLike);
      assert [c] + rest == items;
      hide NodeFrom, IsVertex, NodeLike, NodeRead, Filter;
      var nodes := NodesFrom(look, rest);
      if NodeLike(c) {
        NodesReadCons(look, c, Filter(rest, NodeLike), NodeFrom(look, c), nodes);
      } else {
        assert [] + Filter(rest, NodeLike) == Filter(rest, NodeLike) && [] + nodes == nodes;
      }
    }
  }

  lemma NodeMeans(look: Look, c: Cell)
    ensures NodeRead(look, c, NodeFrom(look, c)) && (IsVertex(c) <==> NodeLike(c))
  {
    NameIsRead(c);
  }

  lemma NodesReadCons(look: Look, c: Cell, cells: seq<Cell>, n: Node, nodes: seq<Node>)
    requires NodeRead(look, c, n) && NodesRead(look, cells, nodes)
    ensures NodesRead(look, [c] + cells, [n] + nodes)
  {
    hide NodeRead;
  }

  ghost function LinkCells(items: seq<Cell>, some: seq<Cell>): seq<Cell> {
    Filter(some, (c: Cell) => LinkLike(items, c))
  }

  lemma LinkCellsCons(items: seq<Cell>, c: Cell, some: seq<Cell>)
    ensures LinkCells(items, [c] + some) == (if LinkLike(items, c) then [c] else []) + LinkCells(items, some)
  {
    FilterCons(c, some, (c: Cell) => LinkLike(items, c));
  }

  lemma LinksReadCons(look: Look, items: seq<Cell>, c: Cell, cells: seq<Cell>, l: Link, links: seq<Link>)
    requires LinkRead(look, items, c, l) && LinksRead(look, items, cells, links)
    ensures LinksRead(look, items, [c] + cells, [l] + links)
  {
    hide LinkRead;
  }

  lemma {:induction false} LinksMean(look: Look, items: seq<Cell>, some: seq<Cell>)
    requires DistinctIds(items)
    ensures LinksRead(look, items, LinkCells(items, some), LinksFrom(look, NamesFrom(items), some))
  {
    hide NamesFrom, LinkRead, LinkLike, LinkFrom, DistinctIds, IsLink;
    if some != [] {
      var c, rest := some[0], some[1..];
      LinksMean(look, items, rest);
      LinkMeans(look, items, c);
      LinkCellsCons(items, c, rest);
      assert [c] + rest == some;
      hide LinkCells, LinksRead;
      var links := LinksFrom(look, NamesFrom(items), rest);
      if LinkLike(items, c) {
        LinksReadCons(look, items, c, LinkCells(items, rest), LinkFrom(look, NamesFrom(items), c), links);
      } else {
        assert [] + LinkCells(items, rest) == LinkCells(items, rest) && [] + links == links;
      }
    }
  }

  /** The management block of the cell that has one. */
  ghost predicate MgmtRead(items: seq<Cell>, mgmt: Json) {
    if HasId(items, Named("dnlab_meta")) then exists c :: c in items && c.id == Named("dnlab_meta") && mgmt == c.mgmt else mgmt == map[]
  }

  lemma {:induction false} MgmtMeans(items: seq<Cell>)
    ensures MgmtRead(items, MgmtFrom(items))
  {
    if items != [] && items[0].id != Named("dnlab_meta") {
      MgmtMeans(items[1..]);
      assert forall c :: c in items <==> c == items[0] || c in items[1..];
    }
  }

  ghost predicate ReadFrom(look: Look, cells: seq<Cell>, items: seq<Cell>, t: Topology) {
    && TableOf(cells, items) && NodesRead(look, Filter(items, NodeLike), t.nodes)
    && LinksRead(look, items, LinkCells(items, items), t.links) && MgmtRead(items, t.mgmt)
  }

  /** The import of any cells: with the table of the last cell of each id, a node for every vertex in a layer, a link for
      every edge between such vertices, in the order of the table, and the management block of the cell that has it. */
  lemma ImportMeans(look: Look, cells: seq<Cell>)
    ensures exists items :: ReadFrom(look, cells, items, Imported(look, cells))
  {
    var items := Items(cells);
    ItemsMean(cells);
    TableIds(cells, items);
    NodesMean(look, items);
    LinksMean(look, items, items);
    MgmtMeans(items);
    hide TableOf, NodesRead, LinksRead, NodesFrom, LinksFrom, MgmtFrom, Items, DistinctIds, MgmtRead;
    assert ReadFrom(look, cells, items, Imported(look, cells));
  }
}
