/** LAN networks, gateways and BGP numbers of RealNet routers (services/realnet_bgp.py). */
module RealNet {
  import opened Wrappers
  import opened Cidr

  // ---- Texts and what they parse to ----

  /** What the address library makes of a text, with surrounding blanks ignored. */
  datatype Meaning = Blank | Garbage | Six | Address(ip: Ip) | Block(ip: Ip, len: nat)

  /** A text as entered or stored: its meaning, and which of the spellings of that meaning it is; spelling 0 is
      the one the address library prints. */
  datatype Text = Text(meaning: Meaning, spelling: nat)

  predicate Readable(t: Text) {
    t.meaning.Block? ==> t.meaning.len <= 32
  }

  function Print(ip: Ip, len: nat): Text {
    Text(Block(ip, len), 0)
  }

  datatype Refusal =
    | BadPool | BadNetwork | NotIpv4 | TooSmall | PrefixMissing | BadGateway | GatewayOutside | GatewayIsEnd
    | OverlapsExisting | PoolExhausted | BadAsPool | NotPrivateAs | AsPoolExhausted | BadIpPool | IpPoolExhausted

  datatype Result<+T> = Ok(value: T) | Refused(why: Refusal) {
    predicate IsFailure() { Refused? }
    function PropagateFailure<U>(): Result<U> requires Refused? { Refused(why) }
    function Extract(): T requires Ok? { value }
  }

  /** `_parse_lan_network`. */
  function ParseNetwork(t: Text): (r: Result<Lan>)
    requires Readable(t)
  {
    match t.meaning
    case Blank => Refused(BadNetwork)
    case Garbage => Refused(BadNetwork)
    case Six => Refused(NotIpv4)
    case Address(ip) => Ok(NetOf(ip, 32))
    case Block(ip, len) => Ok(NetOf(ip, len))
  }

  /** `_parse_lan_pair`. */
  function ParsePair(network: Text, gateway: Text): (r: Result<(Lan, Ip)>)
    requires Readable(network) && Readable(gateway)
    ensures r.Ok? ==> GatewayOk(r.value.0, r.value.1)
  {
    var net :- ParseNetwork(network);
    match gateway.meaning
    case Blank => Refused(BadGateway)
    case Garbage => Refused(BadGateway)
    case Six => Refused(NotIpv4)
    case _ =>
      var ip := gateway.meaning.ip;
      if !Contains(net, ip) then Refused(GatewayOutside)
      else if ip == net.base || ip == Broadcast(net) then Refused(GatewayIsEnd)
      else Ok((net, ip))
  }

  /** The gateway is an address of the network other than its first and last. */
  predicate GatewayOk(net: Lan, ip: Ip) {
    Contains(net, ip) && ip != net.base && ip != Broadcast(net)
  }

  // ---- Stored routers ----

  type Path = string

  datatype IpAddress = V4(n: nat) | V6(n: nat)

  datatype Router = Router(network: Text, ipv4: Text, bgp: bool, asn: Option<int>, routerIp: Option<IpAddress>)

  /** A topology file: one that does not load, one without a RealNet router, or one with its only router. */
  datatype Lab = Unreadable | NoRouter | WithRouter(router: Router)

  type Store = map<Path, Lab>

  /** `_network_from_lan_extra`, where a failure means that the router counts for nothing. */
  function NetworkOf(r: Router): (n: Option<Lan>)
    requires Readable(r.network) && Readable(r.ipv4)
  {
    if !r.network.meaning.Blank? then
      var p := ParseNetwork(r.network);
      if p.Ok? then Some(p.value) else None
    else if r.ipv4.meaning.Block? then Some(NetOf(r.ipv4.meaning.ip, r.ipv4.meaning.len))
    else None
  }

  ghost predicate Legible(store: Store) {
    forall p :: p in store && store[p].WithRouter? ==> Readable(store[p].router.network) && Readable(store[p].router.ipv4)
  }

  /** The network a file keeps from others, for a request made for the router of `current`. */
  function Claim(store: Store, p: Path, current: Path, request: Router): (n: Option<Lan>)
    requires p in store && Legible(store)
  {
    if !store[p].WithRouter? then None
    else if p == current && (store[p].router.network == request.network || store[p].router.ipv4 == request.ipv4) then None
    else NetworkOf(store[p].router)
  }

  function Used(store: Store, paths: seq<Path>, current: Path, request: Router): (r: seq<Lan>)
    requires Legible(store) && forall p :: p in paths ==> p in store
  {
    if paths == [] then []
    else
      var claim := Claim(store, paths[0], current, request);
      (if claim.Some? then [claim.value] else []) + Used(store, paths[1..], current, request)
  }

  lemma {:induction false} UsedMembers(store: Store, paths: seq<Path>, current: Path, request: Router, n: Lan)
    requires Legible(store) && forall p :: p in paths ==> p in store
    ensures n in Used(store, paths, current, request) <==>
      exists p :: p in paths && Claim(store, p, current, request) == Some(n)
  {
    if paths != [] {
      UsedMembers(store, paths[1..], current, request, n);
      assert forall p :: p in paths <==> p == paths[0] || p in paths[1..];
    }
  }

  lemma {:induction false} UsedAppend(store: Store, a: seq<Path>, b: seq<Path>, current: Path, request: Router)
    requires Legible(store) && (forall p :: p in a + b ==> p in store)
    ensures forall p :: p in a || p in b ==> p in a + b
    ensures Used(store, a + b, current, request) == Used(store, a, current, request) + Used(store, b, current, request)
  {
    hide Claim;
    assert forall p :: p in a || p in b ==> p in a + b;
    if a == [] {
      assert a + b == b;
    } else {
      assert (a + b)[1..] == a[1..] + b;
      UsedAppend(store, a[1..], b, current, request);
    }
  }

  /** The loop of `_used_realnet_lan_networks`. */
  method UsedNetworks(store: Store, paths: seq<Path>, current: Path, request: Router) returns (used: seq<Lan>)
    requires Legible(store) && forall p :: p in paths ==> p in store
    ensures used == Used(store, paths, current, request)
  {
    used := [];
    for i := 0 to |paths|
      invariant used == Used(store, paths[..i], current, request)
    {
      var p := paths[i];
      UsedAppend(store, paths[..i], [p], current, request);
      assert paths[..i + 1] == paths[..i] + [p] && [p][1..] == [];
      var claim := Claim(store, p, current, request);
      if claim.Some? {
        used := used + [claim.value];
      }
    }
    assert paths[..|paths|] == paths;
  }

  predicate Clashes(net: Lan, used: seq<Lan>) {
    exists i :: 0 <= i < |used| && Overlaps(net, used[i])
  }

  // ---- Searches ----

  /** The first block of the list that clashes with nothing. */
  function FirstFree(blocks: seq<Lan>, used: seq<Lan>): (r: Option<Lan>)
    ensures r.Some? ==> r.value in blocks && !Clashes(r.value, used)
    ensures r.None? ==> forall n :: n in blocks ==> Clashes(n, used)
  {
    if blocks == [] then None
    else if !Clashes(blocks[0], used) then Some(blocks[0])
    else FirstFree(blocks[1..], used)
  }

  /** The loop of `_first_free_realnet_lan` over the shuffled blocks. */
  method FirstFreeLan(blocks: seq<Lan>, used: seq<Lan>) returns (r: Option<Lan>)
    ensures r == FirstFree(blocks, used)
  {
    for i := 0 to |blocks|
      invariant FirstFree(blocks[i..], used) == FirstFree(blocks, used)
    {
      assert blocks[i..][0] == blocks[i] && blocks[i..][1..] == blocks[i + 1..];
      var clash := false;
      for j := 0 to |used|
        invariant clash <==> exists k :: 0 <= k < j && Overlaps(blocks[i], used[k])
      {
        if Overlaps(blocks[i], used[j]) {
          clash := true;
        }
      }
      if !clash {
        return Some(blocks[i]);
      }
    }
    assert blocks[|blocks|..] == [];
    return None;
  }

  /** Some shuffle of the pool's /24 blocks. */
  ghost predicate Shuffled(pool: Lan, blocks: seq<Lan>) {
    pool.len <= 24 && multiset(blocks) == multiset(Subnets(pool))
  }

  lemma ShuffledMembers(pool: Lan, blocks: seq<Lan>)
    requires Shuffled(pool, blocks)
    ensures forall n :: n in blocks <==> n in Subnets(pool)
  {
    forall n ensures n in blocks <==> n in Subnets(pool) {
      assert n in blocks <==> n in multiset(blocks);
      assert n in Subnets(pool) <==> n in multiset(Subnets(pool));
    }
  }

  /** Some address of the block belongs to one of the networks. */
  ghost predicate Shares(n: Lan, used: seq<Lan>) {
    exists i, ip :: 0 <= i < |used| && Contains(n, ip) && Contains(used[i], ip)
  }

  lemma ClashesMeansShares(n: Lan, used: seq<Lan>)
    ensures Clashes(n, used) <==> Shares(n, used)
  {
    hide Contains, Overlaps;
    if Clashes(n, used) {
      var i :| 0 <= i < |used| && Overlaps(n, used[i]);
      OverlapsMeansShared(n, used[i]);
    }
    if Shares(n, used) {
      var i, ip :| 0 <= i < |used| && Contains(n, ip) && Contains(used[i], ip);
      OverlapsMeansShared(n, used[i]);
    }
  }

  /** For any shuffle, the search returns a /24 of the pool that shares no address with a network in use, and it
      fails exactly when every /24 of the pool shares an address with one. */
  lemma SearchIsExact(pool: Lan, blocks: seq<Lan>, used: seq<Lan>)
    requires Shuffled(pool, blocks)
    ensures FirstFree(blocks, used).Some? ==>
      var n := FirstFree(blocks, used).value;
      n in Subnets(pool) && !Shares(n, used) && forall ip :: Contains(n, ip) ==> Contains(pool, ip)
    ensures FirstFree(blocks, used).None? <==> forall i :: 0 <= i < |Subnets(pool)| ==> Shares(Subnets(pool)[i], used)
  {
    hide Clashes, Shares, Contains, Subnets, FirstFree;
    ShuffledMembers(pool, blocks);
    var r := FirstFree(blocks, used);
    if r.Some? {
      var n := r.value;
      ClashesMeansShares(n, used);
      assert n in Subnets(pool);
      forall ip | Contains(n, ip) ensures Contains(pool, ip) { SubnetsPartition(pool, ip); }
    } else {
      forall i | 0 <= i < |Subnets(pool)| ensures Shares(Subnets(pool)[i], used) {
        assert Subnets(pool)[i] in blocks;
        ClashesMeansShares(Subnets(pool)[i], used);
      }
    }
  }

  // ---- AS numbers and router addresses ----

  /** Private AS numbers: section 5 of RFC 6996. */
  predicate PrivateAs(asn: int) {
    64512 <= asn <= 65534 || 4200000000 <= asn <= 4294967294
  }

  /** `_parse_as_pool`; `None` is a text that is not `<low>-<high>`. */
  function ParseAsPool(pool: Option<(int, int)>): (r: Result<(int, int)>)
    ensures r.Ok? ==> r.value.0 <= r.value.1 && forall asn :: r.value.0 <= asn <= r.value.1 ==> PrivateAs(asn)
  {
    if pool.None? then Refused(BadAsPool)
    else
      var (low, high) := pool.value;
      if low > high then Refused(BadAsPool)
      else if !PrivateAs(low) || !PrivateAs(high) then Refused(NotPrivateAs)
      else if !((low >= 64512 && high <= 65534) || (low >= 4200000000 && high <= 4294967294)) then Refused(BadAsPool)
      else Ok((low, high))
  }

  /** The least unused number, always private; failure exactly when the pool is malformed or full. */
  method FirstFreeAs(pool: Option<(int, int)>, used: set<int>) returns (r: Result<int>)
    ensures r.Ok? ==> (ParseAsPool(pool).Ok? && PrivateAs(r.value) && r.value !in used)
    ensures r.Ok? ==>
      (var (low, high) := ParseAsPool(pool).value; low <= r.value <= high && forall asn :: low <= asn < r.value ==> asn in used)
    ensures r.Refused? && ParseAsPool(pool).Ok? ==>
      (var (low, high) := ParseAsPool(pool).value; forall asn :: low <= asn <= high ==> asn in used)
    ensures r == FreeAs(pool, used)
  {
    var range := ParseAsPool(pool);
    if range.Refused? {
      return Refused(range.why);
    }
    var (low, high) := range.value;
    for asn := low to high + 1
      invariant forall a :: low <= a < asn ==> a in used
      invariant LeastFree(low, high, used) == LeastFree(asn, high, used)
    {
      if asn !in used {
        return Ok(asn);
      }
    }
    return Refused(AsPoolExhausted);
  }

  function LeastFree(low: int, high: int, used: set<int>): (r: Option<int>)
    ensures r.Some? ==> low <= r.value <= high && r.value !in used && forall a :: low <= a < r.value ==> a in used
    ensures r.None? ==> forall a :: low <= a <= high ==> a in used
    decreases high - low
  {
    if low > high then None else if low !in used then Some(low) else LeastFree(low + 1, high, used)
  }

  function FreeAs(pool: Option<(int, int)>, used: set<int>): Result<int> {
    var range :- ParseAsPool(pool);
    var r := LeastFree(range.0, range.1, used);
    if r.Some? then Ok(r.value) else Refused(AsPoolExhausted)
  }

  /** `_parse_ip_pool`: nothing, a text that is refused (also a range that mixes versions), a CIDR pool, or a range.
      A version 6 CIDR pool is given by its prefix without the host bits. */
  datatype IpPool =
    | NoIpPool | BadIpPoolText
    | CidrPool(net: Lan) | RangePool(low: Ip, high: Ip)
    | CidrPool6(prefix: nat, len: nat) | RangePool6(low6: nat, high6: nat)

  predicate IpPoolOk(p: IpPool) {
    match p
    case NoIpPool => true
    case BadIpPoolText => false
    case CidrPool(_) => true
    case RangePool(low, high) => low <= high
    case CidrPool6(_, len) => len <= 128
    case RangePool6(low, high) => low <= high
  }

  /** The addresses of the pool: of a version 4 network all but its ends, of a version 6 network all but the first,
      and of the smallest networks all. */
  predicate InIpPool(p: IpPool, a: IpAddress)
    requires IpPoolOk(p)
  {
    match p
    case NoIpPool => false
    case CidrPool(net) => a.V4? && Contains(net, a.n) && (net.len < 31 ==> a.n != net.base && a.n != Broadcast(net))
    case RangePool(low, high) => a.V4? && low <= a.n <= high
    case CidrPool6(prefix, len) =>
      a.V6? && High(a.n, 128 - len) == prefix && (len < 127 ==> a.n != Up(prefix, 128 - len))
    case RangePool6(low, high) => a.V6? && low <= a.n <= high
  }

  function AddressIn(p: IpPool, n: nat): IpAddress {
    if p.CidrPool6? || p.RangePool6? then V6(n) else V4(n)
  }

  /** The pool is an interval of addresses of one version. */
  function IpBounds(p: IpPool): (r: (int, int))
    requires IpPoolOk(p)
    ensures forall a :: InIpPool(p, a) <==> r.0 <= a.n <= r.1 && a == AddressIn(p, a.n)
    ensures r.0 >= 0
  {
    match p
    case NoIpPool => (1, 0)
    case RangePool(low, high) => (low, high)
    case RangePool6(low, high) => (low, high)
    case CidrPool(net) =>
      forall ip: nat ensures Contains(net, ip) <==> net.base <= ip <= Broadcast(net) { BlockIsInterval(net, ip); }
      if net.len < 31 then (net.base + 1, Broadcast(net) - 1) else (net.base, Broadcast(net))
    case CidrPool6(prefix, len) =>
      var k := 128 - len;
      var first, end := Up(prefix, k), Up(prefix + 1, k);
      forall ip: nat ensures High(ip, k) == prefix <==> first <= ip < end { HighInterval(ip, prefix, k); }
      if len < 127 then (first + 1, end - 1) else (first, end - 1)
  }

  function FreeIp(pool: IpPool, used: set<IpAddress>): Result<IpAddress> {
    if !IpPoolOk(pool) then Refused(BadIpPool)
    else
      var (low, high) := IpBounds(pool);
      var taken := set a | a in used && a == AddressIn(pool, a.n) :: a.n as int;
      var r := LeastFree(low, high, taken);
      if r.Some? then Ok(AddressIn(pool, r.value)) else Refused(IpPoolExhausted)
  }

  /** The least unused address of the pool; failure exactly when the pool is malformed or full. */
  method FirstFreeIp(pool: IpPool, used: set<IpAddress>) returns (r: Result<IpAddress>)
    ensures r.Ok? ==> IpPoolOk(pool) && InIpPool(pool, r.value) && r.value !in used
    ensures r.Ok? ==> forall a :: InIpPool(pool, a) && a.n < r.value.n ==> a in used
    ensures r.Refused? <==> !IpPoolOk(pool) || forall a :: InIpPool(pool, a) ==> a in used
    ensures r == FreeIp(pool, used)
  {
    if !IpPoolOk(pool) {
      return Refused(BadIpPool);
    }
    var (low, high) := IpBounds(pool);
    ghost var taken := set a | a in used && a == AddressIn(pool, a.n) :: a.n as int;
    assert forall k: nat :: AddressIn(pool, k) in used <==> k in taken by {
      forall k: nat ensures AddressIn(pool, k) in used <==> k in taken { assert AddressIn(pool, k).n == k; }
    }
    hide IpBounds, InIpPool, IpPoolOk;
    if low > high {
      return Refused(IpPoolExhausted);
    }
    for n := low to high + 1
      invariant forall k: nat :: low <= k < n ==> AddressIn(pool, k) in used
    {
      if AddressIn(pool, n) !in used {
        assert InIpPool(pool, AddressIn(pool, n));
        return Ok(AddressIn(pool, n));
      }
    }
    return Refused(IpPoolExhausted);
  }
}
