/** What a save of a RealNet router gives for what it asks, in terms of addresses. */
module RealNetRequests {
  import opened Wrappers
  import opened Cidr
  import opened RealNet
  import opened RealNetSaves

  // ---- What texts name ----

  /** The text names the network: an address of it with its prefix length, or the one address that it consists of. */
  ghost predicate Names(t: Text, n: Net)
    requires n.len <= 32
  {
    match t.meaning
    case Block(ip, len) => n.len == len && Contains(n, ip)
    case Address(ip) => n.len == 32 && n.base == ip
    case _ => false
  }

  /** The address lies between two others of the network. */
  ghost predicate Inside(n: Net, ip: nat)
    requires n.len <= 32
  {
    Contains(n, ip) && exists low: nat, high: nat :: low < ip < high && Contains(n, low) && Contains(n, high)
  }

  /** A request with at least one of its texts asks for the network and the gateway. */
  ghost predicate Asks(request: Router, net: Net, gateway: Ip) {
    net.len <= 32 &&
    if request.ipv4.meaning.Blank? then
      Names(request.network, net) && net.len <= 30 && gateway as nat == net.base + 1
    else
      && (if request.network.meaning.Blank? then request.ipv4.meaning.Block? && Names(request.ipv4, net) else Names(request.network, net))
      && (request.ipv4.meaning.Address? || request.ipv4.meaning.Block?) && request.ipv4.meaning.ip == gateway && Inside(net, gateway)
  }

  /** The network that a stored router keeps from others. */
  ghost predicate Holds(r: Router, n: Net)
    requires n.len <= 32
  {
    if r.network.meaning.Blank? then r.ipv4.meaning.Block? && Names(r.ipv4, n) else Names(r.network, n)
  }

  /** Another lab's router holds the network, or the lab's own does with neither text as requested. */
  ghost predicate InUse(store: Store, current: Path, request: Router, n: Net)
    requires n.len <= 32
  {
    exists p :: p in store && HoldsAt(store, p, current, request, n)
  }

  ghost predicate HoldsAt(store: Store, p: Path, current: Path, request: Router, n: Net)
    requires p in store && n.len <= 32
  {
    && store[p].WithRouter? && Holds(store[p].router, n)
    && !(p == current && (store[p].router.network == request.network || store[p].router.ipv4 == request.ipv4))
  }

  /** No network in use has an address of this one. */
  ghost predicate Free(store: Store, current: Path, request: Router, net: Net)
    requires net.len <= 32
  {
    forall n: Lan, ip: nat :: InUse(store, current, request, n) ==> !(Contains(net, ip) && Contains(n, ip))
  }

  // ---- The functions in these terms ----

  lemma NamesNetOf(t: Text, n: Lan)
    requires Readable(t)
    ensures Names(t, n) <==> ParseNetwork(t) == Ok(n)
  {
    match t.meaning
    case Block(ip, len) => if Names(t, n) { NetOfMember(n, ip); }
    case Address(ip) =>
      if Names(t, n) {
        NetOfMember(n, ip);
      }
    case _ =>
  }

  lemma InsideMeans(n: Lan, ip: Ip)
    ensures Inside(n, ip) <==> GatewayOk(n, ip)
  {
    forall a: nat ensures Contains(n, a) <==> n.base <= a <= Broadcast(n) { BlockIsInterval(n, a); }
    BlockIsInterval(n, ip);
    hide Contains, Broadcast;
    if GatewayOk(n, ip) {
      assert n.base < ip < Broadcast(n) && Contains(n, n.base) && Contains(n, Broadcast(n));
    }
  }

  lemma HoldsMeans(r: Router, n: Lan)
    requires Readable(r.network) && Readable(r.ipv4)
    ensures Holds(r, n) <==> NetworkOf(r) == Some(n)
  {
    NamesNetOf(r.network, n);
    NamesNetOf(r.ipv4, n);
  }

  lemma UsedMeans(store: Store, current: Path, request: Router, n: Lan)
    requires Legible(store)
    ensures n in Used(store, Files(store), current, request) <==> InUse(store, current, request, n)
  {
    UsedMembers(store, Files(store), current, request, n);
    forall p | p in store ensures Claim(store, p, current, request) == Some(n) <==> HoldsAt(store, p, current, request, n) {
      if store[p].WithRouter? { HoldsMeans(store[p].router, n); }
    }
    hide HoldsAt, Claim;
  }

  lemma ClashesMeans(store: Store, current: Path, request: Router, net: Lan)
    requires Legible(store)
    ensures Clashes(net, Used(store, Files(store), current, request)) <==> !Free(store, current, request, net)
  {
    hide Used, Files, InUse, Contains, Clashes;
    var used := Used(store, Files(store), current, request);
    ClashesMeansShares(net, used);
    if Shares(net, used) {
      var i, ip :| 0 <= i < |used| && Contains(net, ip) && Contains(used[i], ip);
      UsedMeans(store, current, request, used[i]);
    }
    if !Free(store, current, request, net) {
      var n: Lan, ip: nat :| InUse(store, current, request, n) && Contains(net, ip) && Contains(n, ip);
      UsedMeans(store, current, request, n);
      var i :| 0 <= i < |used| && used[i] == n;
    }
  }

  /** A request with a text is accepted by the parsers exactly if it asks for a network and a gateway, and then for those. */
  lemma ChosenMeans(request: Router, net: Lan, gateway: Ip)
    requires Readable(request.network) && Readable(request.ipv4)
    requires !(request.network.meaning.Blank? && request.ipv4.meaning.Blank?)
    ensures Asks(request, net, gateway) <==> Chosen(request.network, request.ipv4) == Ok((net, gateway))
  {
    hide Inside, Contains;
    InsideMeans(net, gateway);
    NamesNetOf(request.network, net);
    NamesNetOf(request.ipv4, net);
    if !request.ipv4.meaning.Blank? && request.network.meaning.Blank? && request.ipv4.meaning.Block? {
      GatewayAlone(request.ipv4.meaning.ip, request.ipv4.meaning.len, net);
    }
  }

  lemma GatewayAlone(ip: Ip, len: nat, net: Lan)
    requires len <= 32
    ensures ParseNetwork(Print(NetOf(ip, len).base, len)) == Ok(NetOf(ip, len))
  {
    var n := NetOf(ip, len);
    assert Contains(n, n.base);
    NetOfMember(n, n.base);
  }

  // ---- What a save gives ----

  /** The pool has room for a block of 256 addresses. */
  ghost predicate PoolOk(pool: Text) {
    pool.meaning.Block? && pool.meaning.len <= 24
  }

  /** What is stored for the network and the gateway, in the printed form of the address library. */
  ghost predicate StoredAs(request: Router, net: Net, gateway: nat, r: Router) {
    && gateway < ADDRESSES
    && r == request.(network := Text(Block(net.base, net.len), 0), ipv4 := Text(Block(gateway, net.len), 0))
  }

  /** A request with a text is accepted exactly if it asks for a network and a gateway and no network in use has an
      address of that network, and then these are stored. */
  lemma RequestIsKept(store: Store, current: Path, request: Router, pool: Text, blocks: seq<Lan>)
    requires Legible(store) && Readable(request.network) && Readable(request.ipv4) && Readable(pool)
    requires PoolOk(pool) && forall n :: n in blocks ==> n.len == 24
    requires !(request.network.meaning.Blank? && request.ipv4.meaning.Blank?)
    ensures var got := Normalize(store, current, request, pool, blocks);
      && (got.Ok? <==> exists net: Lan, gateway: Ip :: Asks(request, net, gateway) && Free(store, current, request, net))
      && (got.Ok? ==> exists net: Lan, gateway: Ip ::
            Asks(request, net, gateway) && Free(store, current, request, net) && StoredAs(request, net, gateway, got.value))
  {
    hide Used, Files, Clashes, Chosen, Asks, Free;
    var chosen, got := Chosen(request.network, request.ipv4), Normalize(store, current, request, pool, blocks);
    if chosen.Ok? {
      var (net, gateway) := chosen.value;
      ChosenMeans(request, net, gateway);
      ClashesMeans(store, current, request, net);
      assert got.Ok? ==> StoredAs(request, net, gateway, got.value);
    }
    if net: Lan, gateway: Ip :| Asks(request, net, gateway) && Free(store, current, request, net) {
      ChosenMeans(request, net, gateway);
      ClashesMeans(store, current, request, net);
    }
  }

  /** A request without texts gets the first block of the shuffle that shares no address with a network in use, and its
      second address as the gateway; it is refused exactly if there is none. */
  lemma BlankGetsBlock(store: Store, current: Path, request: Router, pool: Text, blocks: seq<Lan>)
    requires Legible(store) && Readable(request.network) && Readable(request.ipv4) && Readable(pool)
    requires PoolOk(pool) && forall n :: n in blocks ==> n.len == 24
    requires request.network.meaning.Blank? && request.ipv4.meaning.Blank?
    ensures var got := Normalize(store, current, request, pool, blocks);
      && (got.Ok? <==> exists n :: n in blocks && Free(store, current, request, n))
      && (got.Ok? ==> exists i ::
            && 0 <= i < |blocks| && Free(store, current, request, blocks[i])
            && (forall j :: 0 <= j < i ==> !Free(store, current, request, blocks[j]))
            && StoredAs(request, blocks[i], blocks[i].base + 1, got.value))
  {
    hide Used, Files, Clashes, Free;
    var used, got := Used(store, Files(store), current, request), Normalize(store, current, request, pool, blocks);
    forall n: Lan ensures Clashes(n, used) <==> !Free(store, current, request, n) {
      ClashesMeans(store, current, request, n);
    }
    var i := FirstFreeAt(blocks, used);
    hide FirstFree, Normal, GatewayOk;
    if got.Ok? {
      FirstHost(blocks[i]);
      assert StoredAs(request, blocks[i], blocks[i].base + 1, got.value);
    }
  }

  lemma {:induction false} FirstFreeAt(blocks: seq<Lan>, used: seq<Lan>) returns (i: nat)
    ensures i <= |blocks| && forall j :: 0 <= j < i ==> Clashes(blocks[j], used)
    ensures i < |blocks| ==> !Clashes(blocks[i], used) && FirstFree(blocks, used) == Some(blocks[i])
    ensures i == |blocks| ==> FirstFree(blocks, used) == None
  {
    hide Clashes;
    if blocks == [] || !Clashes(blocks[0], used) {
      i := 0;
    } else {
      i := FirstFreeAt(blocks[1..], used);
      i := i + 1;
    }
  }

  /** Without a pool that holds a block, every request is refused. */
  lemma PoolIsNeeded(store: Store, current: Path, request: Router, pool: Text, blocks: seq<Lan>)
    requires Legible(store) && Readable(request.network) && Readable(request.ipv4) && Readable(pool)
    requires forall n :: n in blocks ==> n.len == 24
    ensures PoolOk(pool) <==> ParsePool(pool).Ok?
    ensures !PoolOk(pool) ==> Normalize(store, current, request, pool, blocks).Refused?
    ensures PoolOk(pool) ==> ParsePool(pool).value.len == pool.meaning.len && Contains(ParsePool(pool).value, pool.meaning.ip)
  {
    hide Used, Files, FirstFree, Chosen;
  }

  // ---- BGP numbers ----

  /** The pool of AS numbers is a range within one of the private ranges. */
  ghost predicate AsRange(pool: Option<(int, int)>, low: int, high: int) {
    && pool == Some((low, high)) && low <= high
    && ((64512 <= low && high <= 65534) || (4200000000 <= low && high <= 4294967294))
  }

  /** The pool of addresses contains the address: of a version 4 network all but its ends, of a version 6 network all
      but the first, and of the smallest networks all. */
  ghost predicate Offers(pool: IpPool, a: IpAddress) {
    match pool
    case NoIpPool => false
    case BadIpPoolText => false
    case CidrPool(net) => a.V4? && Contains(net, a.n) && (net.len < 31 ==> Inside(net, a.n))
    case RangePool(low, high) => a.V4? && low <= a.n <= high
    case CidrPool6(prefix, len) =>
      a.V6? && len <= 128 && High(a.n, 128 - len) == prefix && (len < 127 ==> NotFirst(a.n, 128 - len, prefix))
    case RangePool6(low, high) => a.V6? && low <= a.n <= high
  }

  /** Some lower number has the same high bits. */
  ghost predicate NotFirst(n: nat, k: nat, prefix: nat) {
    exists b: nat :: b < n && High(b, k) == prefix
  }

  /** A BGP router that counts has the number: another lab's, or the lab's own if it is not the one that asks. */
  ghost predicate AsTaken(store: Store, current: Path, r: Router, asn: int) {
    asn != 0 && exists p :: p in store && Counts(store, p, current, r) && store[p].router.asn == Some(asn)
  }

  ghost predicate IpTaken(store: Store, current: Path, r: Router, ip: IpAddress) {
    exists p :: p in store && Counts(store, p, current, r) && store[p].router.routerIp == Some(ip)
  }

  ghost predicate Counts(store: Store, p: Path, current: Path, r: Router)
    requires p in store
  {
    && store[p].WithRouter? && store[p].router.bgp
    && (p == current ==> store[p].router.asn != r.asn || store[p].router.routerIp != r.routerIp)
  }

  /** The AS number asked for, which has to be private, or the least of the pool that is not taken. */
  ghost predicate GetsAs(store: Store, current: Path, r: Router, pool: Option<(int, int)>, asn: int) {
    if r.asn.Some? && r.asn.value != 0 then
      asn == r.asn.value && (64512 <= asn <= 65534 || 4200000000 <= asn <= 4294967294)
    else exists low, high ::
      && AsRange(pool, low, high) && low <= asn <= high && !AsTaken(store, current, r, asn)
      && forall n :: low <= n < asn ==> AsTaken(store, current, r, n)
  }

  /** The address asked for, or the least of the pool that is not taken; without a pool, what was asked for. */
  ghost predicate GetsIp(store: Store, current: Path, r: Router, pool: IpPool, ip: Option<IpAddress>) {
    if pool.NoIpPool? || r.routerIp.Some? then ip == r.routerIp
    else
      && ip.Some? && Offers(pool, ip.value) && !IpTaken(store, current, r, ip.value)
      && forall a :: Offers(pool, a) && a.n < ip.value.n ==> IpTaken(store, current, r, a)
  }

  lemma OffersMeans(pool: IpPool, a: IpAddress)
    ensures IpPoolOk(pool) ==> (Offers(pool, a) <==> InIpPool(pool, a))
    ensures !IpPoolOk(pool) ==> !Offers(pool, a)
  {
    match pool
    case CidrPool(net) => EndsMeans(net, a.n);
    case CidrPool6(prefix, len) =>
      if len <= 128 {
        FirstMeans(prefix, 128 - len, a.n);
      }
    case _ =>
  }

  lemma EndsMeans(net: Lan, n: nat)
    ensures Contains(net, n) ==> (Inside(net, n) <==> n != net.base && n != Broadcast(net))
  {
    if Contains(net, n) {
      PoolBound(net, n);
      InsideMeans(net, n);
    }
  }

  lemma FirstMeans(prefix: nat, k: nat, n: nat)
    ensures High(n, k) == prefix ==> (n != Up(prefix, k) <==> NotFirst(n, k, prefix))
  {
    if High(n, k) == prefix {
      HighInterval(n, prefix, k);
      HighUp(prefix, k);
      if b: nat :| b < n && High(b, k) == prefix {
        HighInterval(b, prefix, k);
      }
    }
  }

  lemma AsTakenMeans(store: Store, current: Path, r: Router, asn: int)
    ensures asn in UsedAs(store, current, r) <==> AsTaken(store, current, r, asn)
  {
  }

  lemma IpTakenMeans(store: Store, current: Path, r: Router, ip: IpAddress)
    ensures ip in UsedIps(store, current, r) <==> IpTaken(store, current, r, ip)
  {
  }

  lemma AsRangeMeans(pool: Option<(int, int)>, low: int, high: int)
    ensures AsRange(pool, low, high) <==> ParseAsPool(pool) == Ok((low, high))
  {
    if pool.Some? {
      assert pool == Some((low, high)) <==> pool.value.0 == low && pool.value.1 == high;
    }
  }

  lemma GetsAsMeans(store: Store, current: Path, r: Router, pool: Option<(int, int)>, asn: int)
    ensures GetsAs(store, current, r, pool, asn) <==>
      if HasAs(r) then PrivateAs(r.asn.value) && asn == r.asn.value
      else FreeAs(pool, UsedAs(store, current, r)) == Ok(asn)
  {
    hide ParseAsPool, AsRange, AsTaken, UsedAs;
    forall n ensures n in UsedAs(store, current, r) <==> AsTaken(store, current, r, n) { AsTakenMeans(store, current, r, n); }
    forall low, high ensures AsRange(pool, low, high) <==> ParseAsPool(pool) == Ok((low, high)) { AsRangeMeans(pool, low, high); }
    if !HasAs(r) && ParseAsPool(pool).Ok? {
      var (low, high) := ParseAsPool(pool).value;
      assert AsRange(pool, low, high);
    }
  }

  lemma GetsIpMeans(store: Store, current: Path, r: Router, pool: IpPool, ip: IpAddress)
    requires !pool.NoIpPool? && r.routerIp.None?
    ensures GetsIp(store, current, r, pool, Some(ip)) <==> FreeIp(pool, UsedIps(store, current, r)) == Ok(ip)
  {
    hide Offers, IpTaken, UsedIps, InIpPool, IpPoolOk, FreeIp;
    var used := UsedIps(store, current, r);
    forall a ensures (a in used <==> IpTaken(store, current, r, a)) && (Offers(pool, a) <==> IpPoolOk(pool) && InIpPool(pool, a)) {
      IpTakenMeans(store, current, r, a);
      OffersMeans(pool, a);
    }
    FreeIpExact(pool, used, ip);
  }

  /** The least unused address of the pool. */
  lemma FreeIpExact(pool: IpPool, used: set<IpAddress>, ip: IpAddress)
    ensures FreeIp(pool, used) == Ok(ip) <==>
      && IpPoolOk(pool) && InIpPool(pool, ip) && ip !in used
      && forall a :: InIpPool(pool, a) && a.n < ip.n ==> a in used
  {
    if IpPoolOk(pool) {
      var (low, high) := IpBounds(pool);
      var taken := set a | a in used && a == AddressIn(pool, a.n) :: a.n as int;
      forall k: nat ensures k in taken <==> AddressIn(pool, k) in used { assert AddressIn(pool, k).n == k; }
      assert ip == AddressIn(pool, ip.n) <==> ip.V6? == AddressIn(pool, 0).V6?;
      hide InIpPool, IpPoolOk, IpBounds;
      var least := LeastFree(low, high, taken);
      if least.Some? {
        var got := AddressIn(pool, least.value);
        assert InIpPool(pool, got) && got !in used;
        forall a | InIpPool(pool, a) && a.n < got.n ensures a in used { assert a == AddressIn(pool, a.n); }
      } else {
        forall a | InIpPool(pool, a) ensures a in used { assert a == AddressIn(pool, a.n); }
      }
    }
  }

  /** The router with an AS number and an address that it gets. */
  ghost predicate Given(store: Store, current: Path, r: Router, pools: BgpPools, got: Router) {
    && got.asn.Some? && got == r.(asn := got.asn, routerIp := got.routerIp)
    && GetsAs(store, current, r, pools.asns, got.asn.value) && GetsIp(store, current, r, pools.ips, got.routerIp)
  }

  /** A BGP router gets an AS number and, if there is a pool of addresses, a router address, and nothing else about it
      changes; it is refused exactly if one of them cannot be had.  A router without BGP stays as it is. */
  lemma AllocatesBoth(store: Store, current: Path, r: Router, pools: BgpPools)
    ensures var got := Allocate(store, current, r, pools);
      && (!r.bgp ==> got == Ok(r))
      && (r.bgp ==>
            && (got.Ok? <==> (exists asn :: GetsAs(store, current, r, pools.asns, asn))
                             && exists ip :: GetsIp(store, current, r, pools.ips, ip))
            && (got.Ok? ==> Given(store, current, r, pools, got.value)))
  {
    hide FreeAs, FreeIp, GetsAs, UsedAs, UsedIps;
    var got := Allocate(store, current, r, pools);
    forall asn ensures GetsAs(store, current, r, pools.asns, asn) <==>
      if HasAs(r) then PrivateAs(r.asn.value) && asn == r.asn.value else FreeAs(pools.asns, UsedAs(store, current, r)) == Ok(asn)
    {
      GetsAsMeans(store, current, r, pools.asns, asn);
    }
    if pools.ips.NoIpPool? || r.routerIp.Some? {
      assert GetsIp(store, current, r, pools.ips, r.routerIp);
    } else {
      NeedsIp(store, current, r, pools.ips);
    }
    hide GetsIp;
  }

  lemma NeedsIp(store: Store, current: Path, r: Router, pool: IpPool)
    requires !pool.NoIpPool? && r.routerIp.None?
    ensures var free := FreeIp(pool, UsedIps(store, current, r));
      && (forall ip :: GetsIp(store, current, r, pool, ip) <==> free.Ok? && ip == Some(free.value))
      && (free.Ok? ==> GetsIp(store, current, r, pool, Some(free.value)))
  {
    hide FreeIp, UsedIps;
    forall ip ensures GetsIp(store, current, r, pool, ip) <==>
      FreeIp(pool, UsedIps(store, current, r)).Ok? && ip == Some(FreeIp(pool, UsedIps(store, current, r)).value)
    {
      if ip.Some? { GetsIpMeans(store, current, r, pool, ip.value); }
    }
  }
}
