/** IPv4 blocks: the addresses that agree in their high bits. */
module Cidr {

  const ADDRESSES: nat := 0x1_0000_0000

  type Ip = x: nat | x < 0x1_0000_0000

  /** The address without its `k` low bits. */
  function High(ip: nat, k: nat): nat
    decreases k
  {
    if k == 0 then ip else High(ip / 2, k - 1)
  }

  /** The number followed by `k` zero bits. */
  function Up(p: nat, k: nat): nat {
    if k == 0 then p else 2 * Up(p, k - 1)
  }

  /** Dropping `k` bits gives `p` exactly between `p` and `p + 1` followed by `k` zeros. */
  lemma {:induction false} HighInterval(ip: nat, p: nat, k: nat)
    ensures High(ip, k) == p <==> Up(p, k) <= ip < Up(p + 1, k)
    decreases k
  {
    if k > 0 { HighInterval(ip / 2, p, k - 1); }
  }

  lemma {:induction false} HighSplit(ip: nat, i: nat, j: nat)
    ensures High(ip, i + j) == High(High(ip, i), j)
    decreases i
  {
    if i > 0 { HighSplit(ip / 2, i - 1, j); }
  }

  lemma {:induction false} UpIncreases(p: nat, k: nat)
    ensures p <= Up(p, k) < Up(p + 1, k) && Up(p + 1, k) == Up(p, k) + Up(1, k)
  {
    if k > 0 { UpIncreases(p, k - 1); }
  }

  lemma HighUp(p: nat, k: nat)
    ensures High(Up(p, k), k) == p
  {
    UpIncreases(p, k);
    HighInterval(Up(p, k), p, k);
  }

  // ---- Blocks ----

  /** A block: its network address and its prefix length. */
  datatype Net = Net(base: Ip, len: nat)

  /** The number of host bits. */
  function Host(len: nat): nat
    requires len <= 32
  {
    32 - len
  }

  predicate ValidNet(n: Net) {
    n.len <= 32 && Up(High(n.base, Host(n.len)), Host(n.len)) == n.base
  }

  type Lan = n: Net | ValidNet(n) witness Net(0, 32)

  /** An address is in the network if it has the network's prefix. */
  predicate Contains(n: Net, ip: nat)
    requires n.len <= 32
  {
    High(ip, Host(n.len)) == High(n.base, Host(n.len))
  }

  function Broadcast(n: Net): nat
    requires n.len <= 32
  {
    UpIncreases(High(n.base, Host(n.len)), Host(n.len));
    Up(High(n.base, Host(n.len)) + 1, Host(n.len)) - 1
  }

  /** The addresses of a block are those from its network to its broadcast address. */
  lemma BlockIsInterval(n: Net, ip: nat)
    requires ValidNet(n)
    ensures Contains(n, ip) <==> n.base <= ip <= Broadcast(n)
    ensures n.base <= Broadcast(n)
  {
    HighInterval(ip, High(n.base, Host(n.len)), Host(n.len));
    UpIncreases(High(n.base, Host(n.len)), Host(n.len));
  }

  /** `IPv4Network.overlaps`: an end of one lies in the other. */
  predicate Overlaps(a: Net, b: Net)
    requires a.len <= 32 && b.len <= 32
  {
    Contains(b, a.base) || Contains(b, Broadcast(a)) || Contains(a, b.base) || Contains(a, Broadcast(b))
  }

  /** The test on the ends is right: it holds exactly if the blocks share an address. */
  lemma OverlapsMeansShared(a: Net, b: Net)
    requires ValidNet(a) && ValidNet(b)
    ensures Overlaps(a, b) <==> exists ip :: Contains(a, ip) && Contains(b, ip)
  {
    forall ip: nat ensures (Contains(a, ip) <==> a.base <= ip <= Broadcast(a)) && (Contains(b, ip) <==> b.base <= ip <= Broadcast(b)) {
      BlockIsInterval(a, ip);
      BlockIsInterval(b, ip);
    }
    BlockIsInterval(a, 0);
    BlockIsInterval(b, 0);
    if Overlaps(a, b) {
      var ip := if a.base < b.base then b.base else a.base;
      assert Contains(a, ip) && Contains(b, ip);
    }
  }

  /** Sharing an address with a block of shorter prefix means lying inside it. */
  lemma SharedMeansInside(a: Net, b: Net, shared: nat, ip: nat)
    requires a.len <= b.len <= 32 && Contains(a, shared) && Contains(b, shared) && Contains(b, ip)
    ensures Contains(a, ip)
  {
    HighSplit(shared, Host(b.len), b.len - a.len);
    HighSplit(ip, Host(b.len), b.len - a.len);
  }

  /** Two blocks are nested or share no address. */
  lemma NestedOrDisjoint(a: Net, b: Net)
    requires ValidNet(a) && ValidNet(b) && a.len <= b.len
    ensures Overlaps(a, b) <==> (forall ip :: Contains(b, ip) ==> Contains(a, ip))
    ensures !Overlaps(a, b) <==> (forall ip :: Contains(b, ip) ==> !Contains(a, ip))
  {
    OverlapsMeansShared(a, b);
    assert Contains(b, b.base);
    if Overlaps(a, b) {
      var shared :| Contains(a, shared) && Contains(b, shared);
      forall ip | Contains(b, ip) ensures Contains(a, ip) {
        SharedMeansInside(a, b, shared, ip);
      }
    }
  }

  /** `ip_network(..., strict=False)`: the block an address lies in. */
  function NetOf(ip: Ip, len: nat): (n: Net)
    requires len <= 32
    ensures ValidNet(n) && Contains(n, ip) && n.len == len
  {
    var p, k := High(ip, Host(len)), Host(len);
    HighInterval(ip, p, k);
    HighUp(p, k);
    Net(Up(p, k), len)
  }

  /** An address of a block leads back to the block. */
  lemma NetOfMember(n: Net, ip: Ip)
    requires ValidNet(n) && Contains(n, ip)
    ensures NetOf(ip, n.len) == n
  {
  }

  // ---- The /24 blocks of a pool ----

  lemma High8(x: nat)
    ensures High(x, 8) == x / 256
  {
    HighInterval(x, x / 256, 8);
    Up8(x / 256);
    Up8(x / 256 + 1);
  }

  lemma Up8(p: nat)
    ensures Up(p, 8) == 256 * p
  {
    assert Up(p, 1) == 2 * p;
    assert Up(p, 2) == 4 * p;
    assert Up(p, 3) == 8 * p;
    assert Up(p, 4) == 16 * p;
    assert Up(p, 5) == 32 * p;
    assert Up(p, 6) == 64 * p;
    assert Up(p, 7) == 128 * p;
  }

  /** How many /24 blocks the pool has. */
  function BlockCount(pool: Net): nat
    requires pool.len <= 24
  {
    Up(1, 24 - pool.len)
  }

  /** In steps of 256 addresses, the pool is a run of `BlockCount` steps. */
  lemma PoolHolds(pool: Net, ip: nat)
    requires ValidNet(pool) && pool.len <= 24
    ensures pool.base % 256 == 0
    ensures Contains(pool, ip) <==> pool.base / 256 <= ip / 256 < pool.base / 256 + BlockCount(pool)
  {
    hide High, Up;
    var k, p := 24 - pool.len, High(pool.base, Host(pool.len));
    assert Host(pool.len) == 8 + k;
    UpSplit(p, 8, k);
    Up8(Up(p, k));
    assert pool.base == 256 * Up(p, k);
    HighSplit(ip, 8, k);
    High8(ip);
    HighInterval(ip / 256, p, k);
    UpIncreases(p, k);
  }

  /** A /24 block is one such step. */
  lemma BlockHolds(base: Ip, ip: nat)
    requires base % 256 == 0
    ensures ValidNet(Net(base, 24))
    ensures Contains(Net(base, 24), ip) <==> ip / 256 == base / 256
  {
    High8(base);
    High8(ip);
    Up8(base / 256);
    hide High, Up;
  }

  lemma BlockInPool(pool: Net, i: nat)
    requires ValidNet(pool) && pool.len <= 24 && i < BlockCount(pool)
    ensures pool.base + 256 * i < ADDRESSES && ValidNet(Net(pool.base + 256 * i, 24))
  {
    hide High, Up, Contains, ValidNet;
    PoolHolds(pool, pool.base + 256 * i);
    PoolBound(pool, pool.base + 256 * i);
    BlockHolds(pool.base + 256 * i, 0);
  }

  lemma {:induction false} UpSplit(p: nat, i: nat, j: nat)
    ensures Up(p, i + j) == Up(Up(p, j), i)
    decreases i
  {
    if i > 0 { UpSplit(p, i - 1, j); }
  }

  /** A block ends below 2^32. */
  lemma PoolBound(n: Net, ip: nat)
    requires n.len <= 32 && Contains(n, ip)
    ensures ip < ADDRESSES
  {
    var k := Host(n.len);
    HighSplit(ip, k, n.len);
    HighSplit(n.base, k, n.len);
    assert High(ip, 32) == High(n.base, 32);
    Up32();
    HighInterval(n.base, 0, 32);
    HighInterval(ip, 0, 32);
    UpZero(32);
  }

  lemma {:induction false} UpZero(k: nat)
    ensures Up(0, k) == 0
  {
    if k > 0 { UpZero(k - 1); }
  }

  lemma Up32()
    ensures Up(1, 32) == ADDRESSES
  {
    UpSplit(1, 8, 24);
    UpSplit(1, 8, 16);
    UpSplit(1, 8, 8);
    Up8(1);
    Up8(256);
    Up8(65536);
    Up8(16777216);
  }

  function BlockAt(pool: Lan, i: nat): (n: Lan)
    requires pool.len <= 24 && i < BlockCount(pool)
    ensures n.len == 24 && n.base == pool.base + 256 * i
  {
    BlockInPool(pool, i);
    Net(pool.base + 256 * i, 24)
  }

  /** `pool.subnets(new_prefix=24)`, in order; a /24 pool is its own only block. */
  function Subnets(pool: Lan): (r: seq<Lan>)
    requires pool.len <= 24
    ensures |r| == BlockCount(pool) && forall i :: 0 <= i < |r| ==> r[i].len == 24 && r[i].base == pool.base + 256 * i
  {
    seq<Lan>(BlockCount(pool), i requires 0 <= i < BlockCount(pool) => BlockAt(pool, i))
  }

  /** The blocks share nothing, and together are exactly the pool. */
  lemma SubnetsPartition(pool: Lan, ip: nat)
    requires pool.len <= 24
    ensures Contains(pool, ip) <==> exists i :: 0 <= i < |Subnets(pool)| && Contains(Subnets(pool)[i], ip)
    ensures forall i, j ::
      (0 <= i < j < |Subnets(pool)|) ==> !(Contains(Subnets(pool)[i], ip) && Contains(Subnets(pool)[j], ip))
  {
    hide High, Up, Contains, ValidNet, BlockCount;
    var ns := Subnets(pool);
    PoolHolds(pool, ip);
    forall i | 0 <= i < |ns| ensures Contains(ns[i], ip) <==> ip / 256 == pool.base / 256 + i {
      BlockHolds(ns[i].base, ip);
    }
    if Contains(pool, ip) {
      assert Contains(ns[ip / 256 - pool.base / 256], ip);
    }
  }
}
