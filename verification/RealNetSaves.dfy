/** Saving one RealNet router: normalized LANs and automatic BGP numbers. */
module RealNetSaves {
  import opened Wrappers
  import opened Ordering
  import opened Cidr
  import opened RealNet

  // ---- Normalizing the LAN of a router ----

  /** `_parse_realnet_network_pool`. */
  function ParsePool(t: Text): (r: Result<Lan>)
    requires Readable(t)
    ensures r.Ok? ==> r.value.len <= 24
  {
    if t.meaning.Block? && t.meaning.len <= 24 then Ok(NetOf(t.meaning.ip, t.meaning.len)) else Refused(BadPool)
  }

  lemma {:induction false} AtLeastFour(k: nat)
    requires k >= 2
    ensures Up(1, k) >= 4
  {
    if k == 2 { assert Up(1, 1) == 2; } else { AtLeastFour(k - 1); }
  }

  /** The first address after the network address of a block of four or more can be its gateway. */
  lemma FirstHost(net: Lan)
    requires net.len <= 30
    ensures net.base + 1 < ADDRESSES && GatewayOk(net, net.base + 1)
  {
    var p, k := High(net.base, Host(net.len)), Host(net.len);
    AtLeastFour(k);
    UpIncreases(p, k);
    BlockIsInterval(net, net.base + 1);
    PoolBound(net, net.base + 1);
  }

  function WithFirstHost(net: Lan): (r: (Lan, Ip))
    requires net.len <= 30
    ensures r.0 == net && GatewayOk(net, r.1)
  {
    FirstHost(net);
    (net, net.base + 1)
  }

  /** The network and gateway that a request with at least one of the two asks for. */
  function Chosen(network: Text, ipv4: Text): (r: Result<(Lan, Ip)>)
    requires Readable(network) && Readable(ipv4) && !(network.meaning.Blank? && ipv4.meaning.Blank?)
    ensures r.Ok? ==> GatewayOk(r.value.0, r.value.1)
  {
    if ipv4.meaning.Blank? then
      var net :- ParseNetwork(network);
      if net.len > 30 then Refused(TooSmall) else Ok(WithFirstHost(net))
    else if network.meaning.Blank? then
      match ipv4.meaning
      case Address(_) => Refused(PrefixMissing)
      case Block(ip, len) => ParsePair(Print(NetOf(ip, len).base, len), Print(ip, len))
      case Six => Refused(NotIpv4)
      case _ => Refused(BadGateway)
    else ParsePair(network, ipv4)
  }

  /** The topology files, in some order. */
  function Files(store: Store): (r: seq<Path>)
    ensures forall p :: p in r <==> p in store
  {
    TextOrder();
    Listing(TextLe, store.Keys)
  }

  function Stored(r: Router, net: Lan, ip: Ip): Router {
    r.(network := Print(net.base, net.len), ipv4 := Print(ip, net.len))
  }

  /** `normalize_realnet_lan`. */
  function Normalize(store: Store, current: Path, request: Router, pool: Text, blocks: seq<Lan>): Result<Router>
    requires Legible(store) && Readable(request.network) && Readable(request.ipv4) && Readable(pool)
    requires forall n :: n in blocks ==> n.len == 24
  {
    var _ :- ParsePool(pool);
    var used := Used(store, Files(store), current, request);
    if request.network.meaning.Blank? && request.ipv4.meaning.Blank? then
      var free := FirstFree(blocks, used);
      if free.None? then Refused(PoolExhausted) else
        var (net, ip) := WithFirstHost(free.value);
        Ok(Stored(request, net, ip))
    else
      var chosen :- Chosen(request.network, request.ipv4);
      if Clashes(chosen.0, used) then Refused(OverlapsExisting) else Ok(Stored(request, chosen.0, chosen.1))
  }

  // ---- Normalized routers ----

  /** The router's texts are the printed forms of a network and of a gateway in it. */
  predicate Normal(r: Router) {
    && r.network.meaning.Block? && r.ipv4.meaning.Block? && r.network.spelling == 0 == r.ipv4.spelling
    && r.network.meaning.len == r.ipv4.meaning.len <= 32
    && ValidNet(Net(r.network.meaning.ip, r.network.meaning.len))
    && GatewayOk(Net(r.network.meaning.ip, r.network.meaning.len), r.ipv4.meaning.ip)
  }

  function LanOf(r: Router): Lan
    requires Normal(r)
  {
    Net(r.network.meaning.ip, r.network.meaning.len)
  }

  lemma NormalReads(r: Router)
    requires Normal(r)
    ensures Readable(r.network) && Readable(r.ipv4) && NetworkOf(r) == Some(LanOf(r))
    ensures Chosen(r.network, r.ipv4) == Ok((LanOf(r), r.ipv4.meaning.ip))
    ensures Stored(r, LanOf(r), r.ipv4.meaning.ip) == r
  {
    NetOfMember(LanOf(r), r.network.meaning.ip);
  }

  /** Every stored router is normalized, and no two labs' LANs share an address. */
  ghost predicate Inv(store: Store) {
    && (forall p :: p in store && store[p].WithRouter? ==> Normal(store[p].router))
    && (forall p, q :: p in store && q in store && p != q && store[p].WithRouter? && store[q].WithRouter? ==>
          Apart(LanOf(store[p].router), LanOf(store[q].router)))
  }

  ghost predicate Apart(a: Lan, b: Lan) {
    !Overlaps(a, b) && forall ip :: !(Contains(a, ip) && Contains(b, ip))
  }

  lemma ApartIffNoOverlap(a: Lan, b: Lan)
    ensures Apart(a, b) <==> !Overlaps(a, b)
    ensures Apart(a, b) <==> Apart(b, a)
  {
    OverlapsMeansShared(a, b);
    OverlapsMeansShared(b, a);
  }

  /** The router of `p` stands in the way of the network: it overlaps it, and it is another lab's router, or the
      lab's own with neither text as requested. */
  ghost predicate Blocks(store: Store, p: Path, current: Path, request: Router, net: Lan)
    requires Inv(store) && p in store
  {
    && store[p].WithRouter? && Overlaps(net, LanOf(store[p].router))
    && (p != current || (store[p].router.network != request.network && store[p].router.ipv4 != request.ipv4))
  }

  /** In such a store, what clashes with a request is a router of another lab, or the lab's own if neither text matches. */
  lemma ClashesWith(store: Store, current: Path, request: Router, net: Lan)
    requires Inv(store)
    ensures Legible(store)
    ensures Clashes(net, Used(store, Files(store), current, request)) <==>
      exists p :: p in store && Blocks(store, p, current, request, net)
  {
    forall p | p in store && store[p].WithRouter? ensures NetworkOf(store[p].router) == Some(LanOf(store[p].router)) {
      NormalReads(store[p].router);
    }
    var files := Files(store);
    var used := Used(store, files, current, request);
    if Clashes(net, used) {
      var i :| 0 <= i < |used| && Overlaps(net, used[i]);
      UsedMembers(store, files, current, request, used[i]);
    }
    if p :| p in store && Blocks(store, p, current, request, net) {
      var n := LanOf(store[p].router);
      UsedMembers(store, files, current, request, n);
      assert p in files && Claim(store, p, current, request) == Some(n);
      assert n in used;
    }
  }

  // ---- What normalizing promises ----

  /** An accepted request gives a normalized router whose LAN shares no address with any other lab's. */
  lemma NormalizedIsApart(store: Store, current: Path, request: Router, pool: Text, blocks: seq<Lan>, p: Path)
    requires Inv(store) && Readable(request.network) && Readable(request.ipv4) && Readable(pool)
    requires forall n :: n in blocks ==> n.len == 24
    ensures Legible(store)
    ensures Normalize(store, current, request, pool, blocks).Ok? ==>
      var r := Normalize(store, current, request, pool, blocks).value;
      && Normal(r)
      && r == request.(network := r.network, ipv4 := r.ipv4)
      && (p in store && p != current && store[p].WithRouter? ==> Apart(LanOf(r), LanOf(store[p].router)))
  {
    ClashesWith(store, current, request, Net(0, 32));
    NormalizedShape(store, current, request, pool, blocks);
    hide Normalize, Normal, Apart, Overlaps, Legible;
    var n := Normalize(store, current, request, pool, blocks);
    if n.Ok? {
      var net := LanOf(n.value);
      ClashesWith(store, current, request, net);
      if p in store && p != current && store[p].WithRouter? {
        ApartIffNoOverlap(net, LanOf(store[p].router));
        assert !Blocks(store, p, current, request, net);
      }
    }
  }

  lemma NormalizedShape(store: Store, current: Path, request: Router, pool: Text, blocks: seq<Lan>)
    requires Legible(store) && Readable(request.network) && Readable(request.ipv4) && Readable(pool)
    requires forall n :: n in blocks ==> n.len == 24
    ensures Normalize(store, current, request, pool, blocks).Ok? ==>
      var r := Normalize(store, current, request, pool, blocks).value;
      && Normal(r) && r == request.(network := r.network, ipv4 := r.ipv4)
      && !Clashes(LanOf(r), Used(store, Files(store), current, request))
  {
    hide Used, Files, Clashes, FirstFree, Chosen;
  }

  /** Normalizing a router as it is stored changes nothing, whatever the shuffle. */
  lemma NormalizingAgain(store: Store, current: Path, pool: Text, blocks: seq<Lan>)
    requires Inv(store) && current in store && store[current].WithRouter?
    requires Readable(pool) && ParsePool(pool).Ok? && forall n :: n in blocks ==> n.len == 24
    ensures var r := store[current].router;
      Legible(store) && Readable(r.network) && Readable(r.ipv4) && Normalize(store, current, r, pool, blocks) == Ok(r)
  {
    var r := store[current].router;
    NormalReads(r);
    ClashesWith(store, current, r, LanOf(r));
    forall p | p in store ensures !Blocks(store, p, current, r, LanOf(r)) {
      assert p == current || !store[p].WithRouter? || Apart(LanOf(r), LanOf(store[p].router));
    }
  }

  /** An edit is normalized twice before it is saved.  The second pass gives the same router, or refuses; and it
      refuses exactly when the lab's stored router overlaps the new network and shares neither of its texts. */
  lemma SecondPass(store: Store, current: Path, request: Router, pool: Text, blocks: seq<Lan>, again: seq<Lan>)
    requires Inv(store) && Readable(request.network) && Readable(request.ipv4) && Readable(pool)
    requires (forall n :: n in blocks ==> n.len == 24) && forall n :: n in again ==> n.len == 24
    requires Legible(store) && Normalize(store, current, request, pool, blocks).Ok?
    ensures var r := Normalize(store, current, request, pool, blocks).value;
      && Normal(r) && Readable(r.network) && Readable(r.ipv4)
      && (var second := Normalize(store, current, r, pool, again);
          && second in {Ok(r), Refused(OverlapsExisting)}
          && (second.Refused? <==> current in store && Blocks(store, current, current, r, LanOf(r))))
  {
    NormalizedIsApart(store, current, request, pool, blocks, current);
    var r := Normalize(store, current, request, pool, blocks).value;
    NormalReads(r);
    ClashesWith(store, current, r, LanOf(r));
    forall p | p in store && p != current ensures !Blocks(store, p, current, r, LanOf(r)) {
      NormalizedIsApart(store, current, request, pool, blocks, p);
    }
  }

  lemma ExampleNets()
    ensures var wide, narrow := Net(167772160, 24), Net(167772160, 25);
      && ValidNet(wide) && ValidNet(narrow) && GatewayOk(wide, 167772161) && GatewayOk(narrow, 167772161)
      && NetOf(167772160, 25) == narrow && Overlaps(narrow, wide)
  {
    var wide, narrow := Net(167772160, 24), Net(167772160, 25);
    BlockHolds(167772160, 0);
    assert ValidNet(narrow) by { assert High(167772160, 7) == 1310720 && Up(1310720, 7) == 167772160; }
    FirstHost(wide);
    FirstHost(narrow);
    NetOfMember(narrow, 167772160);
  }

  /** Such an edit: 10.0.0.0/24 with gateway 10.0.0.1/24 is stored, and the network is narrowed to 10.0.0.0/25. */
  lemma NarrowingIsRefused(pool: Text)
    requires Readable(pool) && ParsePool(pool).Ok?
    ensures var stored := Router(Print(167772160, 24), Print(167772161, 24), false, None, None);
      var store: Store := map["lab" := WithRouter(stored)];
      var request := stored.(network := Print(167772160, 25));
      var first := Normalize(store, "lab", request, pool, []);
      && Inv(store) && first == Ok(stored.(network := Print(167772160, 25), ipv4 := Print(167772161, 25)))
      && Normalize(store, "lab", first.value, pool, []) == Refused(OverlapsExisting)
  {
    hide High, Up, ValidNet, Contains, Overlaps;
    var wide, narrow := Net(167772160, 24), Net(167772160, 25);
    ExampleNets();
    var stored := Router(Print(167772160, 24), Print(167772161, 24), false, None, None);
    var store: Store := map["lab" := WithRouter(stored)];
    var request := stored.(network := Print(167772160, 25));
    assert Normal(stored) && LanOf(stored) == wide;
    ClashesWith(store, "lab", request, narrow);
    var first := Normalize(store, "lab", request, pool, []);
    assert Chosen(request.network, request.ipv4) == Ok((narrow, 167772161));
    SecondPass(store, "lab", request, pool, [], []);
    assert Blocks(store, "lab", "lab", first.value, narrow);
  }

  // ---- BGP numbers ----

  /** An AS number of zero counts as none. */
  predicate HasAs(r: Router) {
    r.asn.Some? && r.asn.value != 0
  }

  /** The stored router takes part in the count of numbers in use. */
  predicate CountsFor(store: Store, p: Path, current: Path, request: Router)
    requires p in store
  {
    && store[p].WithRouter? && store[p].router.bgp
    && !(p == current && store[p].router.asn == request.asn && store[p].router.routerIp == request.routerIp)
  }

  function UsedAs(store: Store, current: Path, request: Router): set<int> {
    set p | p in store && CountsFor(store, p, current, request) && HasAs(store[p].router) :: store[p].router.asn.value
  }

  function UsedIps(store: Store, current: Path, request: Router): set<IpAddress> {
    set p | p in store && CountsFor(store, p, current, request) && store[p].router.routerIp.Some? :: store[p].router.routerIp.value
  }

  /** The loop of `_used_realnet_bgp_allocations`. */
  method UsedAllocations(store: Store, paths: seq<Path>, current: Path, request: Router) returns (asns: set<int>, ips: set<IpAddress>)
    requires forall p :: p in paths <==> p in store
    ensures asns == UsedAs(store, current, request) && ips == UsedIps(store, current, request)
  {
    asns, ips := {}, {};
    for i := 0 to |paths|
      invariant asns == set p | p in paths[..i] && CountsFor(store, p, current, request) && HasAs(store[p].router)
                            :: store[p].router.asn.value
      invariant ips == set p | p in paths[..i] && CountsFor(store, p, current, request) && store[p].router.routerIp.Some?
                           :: store[p].router.routerIp.value
    {
      var p := paths[i];
      assert paths[..i + 1] == paths[..i] + [p];
      if CountsFor(store, p, current, request) {
        var r := store[p].router;
        if HasAs(r) {
          asns := asns + {r.asn.value};
        }
        if r.routerIp.Some? {
          ips := ips + {r.routerIp.value};
        }
      }
    }
    assert paths[..|paths|] == paths;
  }

  /** The pools of the administrator's settings; an AS pool that does not parse is `None`. */
  datatype BgpPools = BgpPools(asns: Option<(int, int)>, ips: IpPool)

  /** `allocate_for_realnet_node`. */
  function Allocate(store: Store, current: Path, r: Router, pools: BgpPools): Result<Router> {
    if !r.bgp then Ok(r)
    else
      var asn :- if !HasAs(r) then FreeAs(pools.asns, UsedAs(store, current, r))
                 else if PrivateAs(r.asn.value) then Ok(r.asn.value) else Refused(NotPrivateAs);
      if pools.ips.NoIpPool? || r.routerIp.Some? then Ok(r.(asn := Some(asn)))
      else
        var ip :- FreeIp(pools.ips, UsedIps(store, current, r));
        Ok(r.(asn := Some(asn), routerIp := Some(ip)))
  }

  lemma FreeIpIsFree(pool: IpPool, used: set<IpAddress>)
    ensures FreeIp(pool, used).Ok? ==>
      IpPoolOk(pool) && InIpPool(pool, FreeIp(pool, used).value) && FreeIp(pool, used).value !in used
  {
    var r := FreeIp(pool, used);
    if r.Ok? {
      var taken := set a | a in used && a == AddressIn(pool, a.n) :: a.n as int;
      var a := r.value;
      assert a == AddressIn(pool, a.n) && a.n as int !in taken;
    }
  }

  /** Numbers asked for are kept.  Automatic ones: an AS number is private, a router address is of the pool, each
      differs from that of every BGP router stored by another lab, and a second pass keeps both. */
  lemma AutomaticNumbersAreNew(store: Store, current: Path, r: Router, pools: BgpPools, p: Path)
    requires r.bgp && Allocate(store, current, r, pools).Ok?
    ensures var got := Allocate(store, current, r, pools).value;
      && got == r.(asn := got.asn, routerIp := got.routerIp)
      && HasAs(got) && PrivateAs(got.asn.value)
      && (HasAs(r) ==> got.asn == r.asn) && (r.routerIp.Some? ==> got.routerIp == r.routerIp)
      && (r.routerIp.None? && got.routerIp.Some? ==> IpPoolOk(pools.ips) && InIpPool(pools.ips, got.routerIp.value))
      && (p in store && p != current && store[p].WithRouter? && store[p].router.bgp ==>
            && (!HasAs(r) ==> store[p].router.asn != got.asn)
            && (r.routerIp.None? && got.routerIp.Some? ==> store[p].router.routerIp != got.routerIp))
      && Allocate(store, current, got, pools) == Ok(got)
  {
    hide FreeIp, InIpPool, IpPoolOk;
    FreeIpIsFree(pools.ips, UsedIps(store, current, r));
    if p in store && p != current && store[p].WithRouter? && store[p].router.bgp {
      assert HasAs(store[p].router) ==> store[p].router.asn.value in UsedAs(store, current, r);
      assert store[p].router.routerIp.Some? ==> store[p].router.routerIp.value in UsedIps(store, current, r);
    }
  }
}
