/** Sequences of saves and imports of RealNet routers: when LANs and BGP numbers of all labs stay apart. */
module RealNetRuns {
  import opened Wrappers
  import opened Cidr
  import opened RealNet
  import opened RealNetSaves

  // ---- Events ----

  /** `Save` is one request for the router of a lab; `again` is the shuffle of the second pass that an edit makes.
      `Import` stores the router of a drawing as it was drawn.  `Clear` takes the router or the lab away, and `Spoil`
      leaves a file that does not load. */
  datatype Event =
    | Save(path: Path, request: Router, pool: Text, blocks: seq<Lan>, again: Option<seq<Lan>>, pools: BgpPools)
    | Import(path: Path, router: Router)
    | Clear(path: Path)
    | Spoil(path: Path)

  ghost predicate Possible(e: Event) {
    && (e.Save? ==>
          && Readable(e.request.network) && Readable(e.request.ipv4) && Readable(e.pool)
          && ShuffleOk(e.pool, e.blocks) && (e.again.Some? ==> ShuffleOk(e.pool, e.again.value)))
    && (e.Import? ==> Readable(e.router.network) && Readable(e.router.ipv4))
  }

  ghost predicate ShuffleOk(pool: Text, blocks: seq<Lan>)
    requires Readable(pool)
  {
    && (forall n :: n in blocks ==> n.len == 24)
    && (ParsePool(pool).Ok? ==> Shuffled(ParsePool(pool).value, blocks))
  }

  /** `_normalize_realnet_extra`. */
  function Pass(store: Store, current: Path, request: Router, pool: Text, blocks: seq<Lan>, pools: BgpPools): (r: Result<Router>)
    requires Legible(store) && Readable(request.network) && Readable(request.ipv4) && Readable(pool)
    requires forall n :: n in blocks ==> n.len == 24
    ensures r.Ok? ==> Readable(r.value.network) && Readable(r.value.ipv4)
  {
    var n :- Normalize(store, current, request, pool, blocks);
    Allocate(store, current, n, pools)
  }

  /** What a save stores: the result of the only pass, or of the second one. */
  ghost function Saved(store: Store, e: Event): (r: Result<Router>)
    requires Legible(store) && Possible(e) && e.Save?
    ensures r.Ok? ==> Readable(r.value.network) && Readable(r.value.ipv4)
  {
    var first :- Pass(store, e.path, e.request, e.pool, e.blocks, e.pools);
    if e.again.None? then Ok(first) else Pass(store, e.path, first, e.pool, e.again.value, e.pools)
  }

  /** A save changes no more of the request than its LAN texts and its numbers, and leaves a BGP router with a private AS
      number and, if there is a pool, an address. */
  lemma SaveGives(store: Store, e: Event)
    requires Legible(store) && Possible(e) && e.Save? && Saved(store, e).Ok?
    ensures var r := Saved(store, e).value;
      && r == e.request.(network := r.network, ipv4 := r.ipv4, asn := r.asn, routerIp := r.routerIp)
      && r.network.meaning.Block? && r.ipv4.meaning.Block?
      && (!r.bgp ==> r.asn == e.request.asn && r.routerIp == e.request.routerIp)
      && (r.bgp ==> r.asn.Some? && (64512 <= r.asn.value <= 65534 || 4200000000 <= r.asn.value <= 4294967294)
                    && (!e.pools.ips.NoIpPool? ==> r.routerIp.Some?))
  {
    var first := Pass(store, e.path, e.request, e.pool, e.blocks, e.pools).value;
    PassGives(store, e.path, e.request, e.pool, e.blocks, e.pools);
    if e.again.Some? {
      PassGives(store, e.path, first, e.pool, e.again.value, e.pools);
    }
    hide Pass;
  }

  lemma PassGives(store: Store, current: Path, request: Router, pool: Text, blocks: seq<Lan>, pools: BgpPools)
    requires Legible(store) && Readable(request.network) && Readable(request.ipv4) && Readable(pool)
    requires (forall n :: n in blocks ==> n.len == 24) && Pass(store, current, request, pool, blocks, pools).Ok?
    ensures var r := Pass(store, current, request, pool, blocks, pools).value;
      && r == request.(network := r.network, ipv4 := r.ipv4, asn := r.asn, routerIp := r.routerIp)
      && r.network.meaning.Block? && r.ipv4.meaning.Block?
      && (!r.bgp ==> r.asn == request.asn && r.routerIp == request.routerIp)
      && (r.bgp ==> r.asn.Some? && (64512 <= r.asn.value <= 65534 || 4200000000 <= r.asn.value <= 4294967294)
                    && (!pools.ips.NoIpPool? ==> r.routerIp.Some?))
  {
    hide Used, Files, Clashes, FirstFree, Chosen, FreeIp, UsedAs, UsedIps;
    NormalizedShape(store, current, request, pool, blocks);
    var n := Normalize(store, current, request, pool, blocks).value;
    hide Normalize;
    if n.bgp { AutomaticNumbersAreNew(store, current, n, pools, current); }
  }

  /** The store after an event; a refused save leaves it as it was. */
  ghost function Next(store: Store, e: Event): (r: Store)
    requires Legible(store) && Possible(e)
    ensures Legible(r)
  {
    match e
    case Clear(p) => store - {p}
    case Spoil(p) => store[p := Unreadable]
    case Import(p, router) => store[p := WithRouter(router)]
    case Save(p, _, _, _, _, _) =>
      var saved := Saved(store, e);
      if saved.Refused? then store else store[p := WithRouter(saved.value)]
  }

  ghost predicate AllPossible(events: seq<Event>) {
    forall i :: 0 <= i < |events| ==> Possible(events[i])
  }

  /** The store after the events, from no labs at all. */
  ghost function Run(events: seq<Event>): (r: Store)
    requires AllPossible(events)
    ensures Legible(r)
  {
    if events == [] then map[] else Next(Run(events[..|events| - 1]), events[|events| - 1])
  }

  lemma RunSplit(events: seq<Event>, n: nat)
    requires AllPossible(events) && n < |events|
    ensures Run(events[..n + 1]) == Next(Run(events[..n]), events[n])
  {
    assert events[..n + 1][..n] == events[..n];
  }

  // ---- LANs ----

  lemma PassIsApart(store: Store, current: Path, request: Router, pool: Text, blocks: seq<Lan>, pools: BgpPools)
    requires Inv(store) && Readable(request.network) && Readable(request.ipv4) && Readable(pool)
    requires forall n :: n in blocks ==> n.len == 24
    ensures Legible(store)
    ensures Pass(store, current, request, pool, blocks, pools).Ok? ==>
      Fits(store, current, Pass(store, current, request, pool, blocks, pools).value)
  {
    hide Allocate, Normalize, Apart;
    NormalizedIsApart(store, current, request, pool, blocks, current);
    var n := Normalize(store, current, request, pool, blocks);
    if n.Ok? {
      AllocateKeepsLan(store, current, n.value, pools);
      forall p | p in store && p != current && store[p].WithRouter? ensures Apart(LanOf(n.value), LanOf(store[p].router)) {
        NormalizedIsApart(store, current, request, pool, blocks, p);
      }
    }
  }

  lemma AllocateKeepsLan(store: Store, current: Path, r: Router, pools: BgpPools)
    ensures Allocate(store, current, r, pools).Ok? ==>
      var got := Allocate(store, current, r, pools).value; got.network == r.network && got.ipv4 == r.ipv4
  {
  }

  /** The router is normalized and its LAN shares no address with that of another lab. */
  ghost predicate Fits(store: Store, current: Path, r: Router) {
    && Normal(r)
    && forall q :: q in store && q != current && store[q].WithRouter? ==>
         Normal(store[q].router) && Apart(LanOf(r), LanOf(store[q].router))
  }

  /** Putting a router into a store keeps it in order exactly if the router fits. */
  lemma PutKeeps(store: Store, current: Path, r: Router)
    requires Inv(store)
    ensures Inv(store[current := WithRouter(r)]) <==> Fits(store, current, r)
  {
    hide Apart, Normal;
    var after := store[current := WithRouter(r)];
    if Fits(store, current, r) {
      forall p | p in store && p != current && store[p].WithRouter? ensures Apart(LanOf(store[p].router), LanOf(r)) {
        ApartIffNoOverlap(LanOf(r), LanOf(store[p].router));
      }
    }
    if Inv(after) {
      assert after[current].router == r;
      assert forall q :: q in store && q != current ==> after[q] == store[q];
    }
  }

  /** An import keeps LANs apart exactly if the router in the drawing is normalized and overlaps no other lab's. */
  lemma ImportKeeps(store: Store, p: Path, r: Router)
    requires Inv(store) && Possible(Import(p, r))
    ensures Legible(store)
    ensures Inv(Next(store, Import(p, r))) <==>
      && Normal(r)
      && forall q :: q in store && q != p && store[q].WithRouter? ==> Apart(LanOf(r), LanOf(store[q].router))
  {
    InvIsLegible(store);
    PutKeeps(store, p, r);
  }

  lemma InvIsLegible(store: Store)
    requires Inv(store)
    ensures Legible(store)
  {
  }

  /** Every event but an import that does not fit keeps every router normalized and all LANs apart. */
  lemma EventKeeps(store: Store, e: Event)
    requires Inv(store) && Possible(e)
    ensures Legible(store)
    ensures Inv(Next(store, e)) <==> (e.Import? ==> Fits(store, e.path, e.router))
  {
    InvIsLegible(store);
    hide Apart, Fits, Pass;
    match e
    case Import(p, r) => PutKeeps(store, p, r);
    case Save(p, request, pool, blocks, again, pools) =>
      PassIsApart(store, p, request, pool, blocks, pools);
      var first := Pass(store, p, request, pool, blocks, pools);
      if first.Ok? && again.Some? {
        PassIsApart(store, p, first.value, pool, again.value, pools);
      }
      if Saved(store, e).Ok? {
        PutKeeps(store, p, Saved(store, e).value);
      }
    case _ =>
  }

  /** An import made as the event of that number fitted the labs of that moment. */
  ghost predicate FitsAt(events: seq<Event>, i: nat)
    requires AllPossible(events) && i < |events|
  {
    events[i].Import? ==> Fits(Run(events[..i]), events[i].path, events[i].router)
  }

  ghost predicate ApartAt(events: seq<Event>, n: nat)
    requires AllPossible(events) && n <= |events|
  {
    Inv(Run(events[..n]))
  }

  ghost predicate ImportsFit(events: seq<Event>)
    requires AllPossible(events)
  {
    forall i :: 0 <= i < |events| ==> FitsAt(events, i)
  }

  lemma ApartNext(events: seq<Event>, n: nat)
    requires AllPossible(events) && n < |events| && ApartAt(events, n)
    ensures ApartAt(events, n + 1) <==> FitsAt(events, n)
  {
    hide Inv, Fits, Next, Run;
    RunSplit(events, n);
    EventKeeps(Run(events[..n]), events[n]);
  }

  lemma {:induction false} FittingStaysApart(events: seq<Event>, n: nat)
    requires AllPossible(events) && ImportsFit(events) && n <= |events|
    ensures ApartAt(events, n)
  {
    hide FitsAt;
    if n > 0 {
      FittingStaysApart(events, n - 1);
      ApartNext(events, n - 1);
    }
  }

  /** Over every sequence of saves and imports, all LANs are apart at every moment exactly if every import fitted. */
  lemma LansApartExactly(events: seq<Event>)
    requires AllPossible(events)
    ensures (forall n :: 0 <= n <= |events| ==> ApartAt(events, n)) <==> ImportsFit(events)
  {
    hide FitsAt, ApartAt;
    if ImportsFit(events) {
      forall n | 0 <= n <= |events| ensures ApartAt(events, n) {
        FittingStaysApart(events, n);
      }
    }
    if forall n :: 0 <= n <= |events| ==> ApartAt(events, n) {
      forall i | 0 <= i < |events| ensures FitsAt(events, i) {
        ApartNext(events, i);
      }
    }
  }

  /** After a sequence of saves and fitting imports, in every two labs that load the LANs share no address, each
      gateway is an address of its LAN other than its first and last, and saving a router again would not change it. */
  lemma LansStayApart(events: seq<Event>, p: Path, q: Path, pool: Text, blocks: seq<Lan>)
    requires AllPossible(events) && ImportsFit(events)
    requires Readable(pool) && ParsePool(pool).Ok? && ShuffleOk(pool, blocks)
    requires p in Run(events) && Run(events)[p].WithRouter?
    ensures var store := Run(events);
      var r := store[p].router;
      && Normal(r) && GatewayOk(LanOf(r), r.ipv4.meaning.ip)
      && (q in store && q != p && store[q].WithRouter? ==>
            Normal(store[q].router) && forall ip :: !(Contains(LanOf(r), ip) && Contains(LanOf(store[q].router), ip)))
      && Readable(r.network) && Readable(r.ipv4) && Normalize(store, p, r, pool, blocks) == Ok(r)
  {
    FittingStaysApart(events, |events|);
    assert events[..|events|] == events;
    var store := Run(events);
    assert Inv(store);
    hide Run, ImportsFit;
    NormalizingAgain(store, p, pool, blocks);
    if q in store && q != p && store[q].WithRouter? {
      assert Apart(LanOf(store[p].router), LanOf(store[q].router));
    }
  }

  // ---- After an import that does not fit ----

  /** A router whose texts are stored as requested is refused if it overlaps one of another lab. */
  lemma ClashIsRefused(store: Store, p: Path, q: Path, pool: Text, blocks: seq<Lan>)
    requires Legible(store) && Readable(pool) && ParsePool(pool).Ok? && forall n :: n in blocks ==> n.len == 24
    requires p in store && q in store && p != q && store[p].WithRouter? && store[q].WithRouter?
    requires Normal(store[p].router) && Normal(store[q].router)
    requires Overlaps(LanOf(store[p].router), LanOf(store[q].router))
    ensures Normalize(store, p, store[p].router, pool, blocks) == Refused(OverlapsExisting)
  {
    hide Overlaps, Normal, ValidNet, GatewayOk;
    var r, n := store[p].router, LanOf(store[q].router);
    NormalReads(r);
    NormalReads(store[q].router);
    var files := Files(store);
    var used := Used(store, files, p, r);
    UsedMembers(store, files, p, r, n);
    assert q in files && Claim(store, q, p, r) == Some(n);
    assert n in used;
  }

  /** Once a normalized router has been imported whose LAN shares addresses with another lab's, a plain save of either
      lab is refused. */
  lemma MisfitBlocksBothLabs(store: Store, p: Path, q: Path, r: Router, pool: Text, blocks: seq<Lan>)
    requires Inv(store) && Normal(r) && Readable(pool) && ParsePool(pool).Ok? && forall n :: n in blocks ==> n.len == 24
    requires q in store && q != p && store[q].WithRouter? && !Apart(LanOf(r), LanOf(store[q].router))
    ensures Legible(store) && Possible(Import(p, r))
    ensures var after := Next(store, Import(p, r));
      && Readable(store[q].router.network) && Readable(store[q].router.ipv4)
      && Normalize(after, p, r, pool, blocks) == Refused(OverlapsExisting)
      && Normalize(after, q, store[q].router, pool, blocks) == Refused(OverlapsExisting)
  {
    InvIsLegible(store);
    NormalReads(r);
    NormalReads(store[q].router);
    ApartIffNoOverlap(LanOf(r), LanOf(store[q].router));
    ApartIffNoOverlap(LanOf(store[q].router), LanOf(r));
    var after := Next(store, Import(p, r));
    ClashIsRefused(after, p, q, pool, blocks);
    ClashIsRefused(after, q, p, pool, blocks);
  }

  /** 10.0.0.0/24 with gateway 10.0.0.1/24. */
  const TEN: Router := Router(Print(167772160, 24), Print(167772161, 24), false, None, None)

  lemma TenIsNormal()
    ensures Normal(TEN) && LanOf(TEN) == Net(167772160, 24)
    ensures Contains(LanOf(TEN), 167772162) && !Apart(LanOf(TEN), LanOf(TEN))
  {
    ExampleNets();
    BlockHolds(167772160, 167772162);
  }

  lemma FirstSave(pool: Text, blocks: seq<Lan>, pools: BgpPools)
    requires Readable(pool) && ParsePool(pool).Ok? && ShuffleOk(pool, blocks)
    ensures Possible(Save("a", TEN, pool, blocks, None, pools))
    ensures Next(map[], Save("a", TEN, pool, blocks, None, pools)) == map["a" := WithRouter(TEN)]
  {
    TenIsNormal();
    hide ValidNet, Contains, Normal;
    NormalReads(TEN);
    var none: Store := map[];
    ClashesWith(none, "a", TEN, LanOf(TEN));
    assert Normalize(none, "a", TEN, pool, blocks) == Ok(TEN);
  }

  /** Lab "a" is saved with that router and its drawing is imported into lab "b": the LANs share every address, and
      the next plain save of either lab is refused. */
  lemma ImportedTwice(pool: Text, blocks: seq<Lan>, pools: BgpPools)
    requires Readable(pool) && ParsePool(pool).Ok? && ShuffleOk(pool, blocks)
    ensures var events := [Save("a", TEN, pool, blocks, None, pools), Import("b", TEN)];
      && AllPossible(events) && Run(events) == map["a" := WithRouter(TEN), "b" := WithRouter(TEN)]
      && !Inv(Run(events)) && Normal(TEN) && Contains(LanOf(TEN), 167772162)
      && Normalize(Run(events), "b", TEN, pool, blocks) == Refused(OverlapsExisting)
      && Normalize(Run(events), "a", TEN, pool, blocks) == Refused(OverlapsExisting)
  {
    TenIsNormal();
    var save, draw := Save("a", TEN, pool, blocks, None, pools), Import("b", TEN);
    var events := [save, draw];
    assert events[..1] == [save] && [save][..0] == [];
    assert Run([]) == map[];
    FirstSave(pool, blocks, pools);
    assert Run([save]) == map["a" := WithRouter(TEN)];
    assert Inv(Run([save]));
    assert Run(events) == Next(Run([save]), draw);
    hide *;
    MisfitBlocksBothLabs(Run([save]), "b", "a", TEN, pool, blocks);
    ImportKeeps(Run([save]), "b", TEN);
  }

  // ---- BGP numbers ----

  datatype Kind = AsNumber | RouterAddress

  datatype Number = Asn(n: int) | At(ip: IpAddress)

  /** The number a BGP router stores or asks for; a router without BGP has none that counts. */
  function NumberOf(r: Router, k: Kind): Option<Number> {
    if !r.bgp then None
    else if k.AsNumber? then (if HasAs(r) then Some(Asn(r.asn.value)) else None)
    else if r.routerIp.Some? then Some(At(r.routerIp.value)) else None
  }

  function LabNumber(lab: Lab, k: Kind): Option<Number> {
    if lab.WithRouter? then NumberOf(lab.router, k) else None
  }

  /** No two labs' BGP routers have the same number. */
  ghost predicate Distinct(store: Store, k: Kind) {
    forall p, q :: p in store && q in store && p != q && LabNumber(store[p], k).Some? ==>
      LabNumber(store[p], k) != LabNumber(store[q], k)
  }

  /** No other lab has the number of this router. */
  ghost predicate Alone(store: Store, current: Path, r: Router, k: Kind) {
    NumberOf(r, k).Some? ==> forall q :: q in store && q != current ==> LabNumber(store[q], k) != NumberOf(r, k)
  }

  lemma PutDistinct(store: Store, current: Path, r: Router, k: Kind)
    requires Distinct(store, k)
    ensures Distinct(store[current := WithRouter(r)], k) <==> Alone(store, current, r, k)
  {
    hide NumberOf;
    var after := store[current := WithRouter(r)];
    assert LabNumber(after[current], k) == NumberOf(r, k);
    assert forall q :: q in store && q != current ==> after[q] == store[q];
  }

  /** A number asked for is kept, and one that is not is given out alone. */
  lemma AllocatedAlone(store: Store, current: Path, r: Router, pools: BgpPools, k: Kind)
    requires Allocate(store, current, r, pools).Ok?
    ensures var got := Allocate(store, current, r, pools).value;
      && Allocate(store, current, got, pools) == Ok(got)
      && (NumberOf(r, k).Some? ==> NumberOf(got, k) == NumberOf(r, k))
      && (NumberOf(r, k).None? ==> Alone(store, current, got, k))
  {
    if r.bgp {
      hide Allocate;
      AutomaticNumbersAreNew(store, current, r, pools, current);
      forall q | q in store && q != current
        ensures NumberOf(r, k).None? && NumberOf(Allocate(store, current, r, pools).value, k).Some? ==>
          LabNumber(store[q], k) != NumberOf(Allocate(store, current, r, pools).value, k)
      {
        AutomaticNumbersAreNew(store, current, r, pools, q);
      }
    }
  }

  /** Normalizing the LAN leaves the rest of the request alone. */
  lemma NormalizeKeepsNumbers(store: Store, current: Path, request: Router, pool: Text, blocks: seq<Lan>, k: Kind)
    requires Legible(store) && Readable(request.network) && Readable(request.ipv4) && Readable(pool)
    requires forall n :: n in blocks ==> n.len == 24
    ensures var n := Normalize(store, current, request, pool, blocks);
      n.Ok? ==> NumberOf(n.value, k) == NumberOf(request, k)
  {
    hide Used, Files, FirstFree, Clashes, Chosen;
  }

  lemma PassNumbers(store: Store, current: Path, request: Router, pool: Text, blocks: seq<Lan>, pools: BgpPools, k: Kind)
    requires Legible(store) && Readable(request.network) && Readable(request.ipv4) && Readable(pool)
    requires forall n :: n in blocks ==> n.len == 24
    requires Pass(store, current, request, pool, blocks, pools).Ok?
    ensures var got := Pass(store, current, request, pool, blocks, pools).value;
      Alone(store, current, got, k) <==> Alone(store, current, request, k)
  {
    hide Allocate, Normalize;
    NormalizeKeepsNumbers(store, current, request, pool, blocks, k);
    AllocatedAlone(store, current, Normalize(store, current, request, pool, blocks).value, pools, k);
  }

  /** The number that the event would store as it is given, if it is stored, is no other lab's. */
  ghost predicate AsksAlone(store: Store, e: Event, k: Kind)
    requires Legible(store) && Possible(e)
  {
    match e
    case Save(p, request, _, _, _, _) => Saved(store, e).Ok? ==> Alone(store, p, request, k)
    case Import(p, router) => Alone(store, p, router, k)
    case _ => true
  }

  /** Numbers stay distinct exactly if the number entered by hand or drawn is no other lab's; automatic ones never clash. */
  lemma EventDistinct(store: Store, e: Event, k: Kind)
    requires Legible(store) && Distinct(store, k) && Possible(e)
    ensures Distinct(Next(store, e), k) <==> AsksAlone(store, e, k)
  {
    hide Pass, Alone, NumberOf;
    match e
    case Import(p, r) => PutDistinct(store, p, r, k);
    case Save(p, request, pool, blocks, again, pools) =>
      if Saved(store, e).Ok? {
        PassNumbers(store, p, request, pool, blocks, pools, k);
        if again.Some? {
          PassNumbers(store, p, Pass(store, p, request, pool, blocks, pools).value, pool, again.value, pools, k);
        }
        PutDistinct(store, p, Saved(store, e).value, k);
      }
    case _ =>
  }

  ghost predicate DistinctAt(events: seq<Event>, n: nat, k: Kind)
    requires AllPossible(events) && n <= |events|
  {
    Distinct(Run(events[..n]), k)
  }

  ghost predicate AsksAloneAt(events: seq<Event>, i: nat, k: Kind)
    requires AllPossible(events) && i < |events|
  {
    AsksAlone(Run(events[..i]), events[i], k)
  }

  lemma DistinctNext(events: seq<Event>, n: nat, k: Kind)
    requires AllPossible(events) && n < |events| && DistinctAt(events, n, k)
    ensures DistinctAt(events, n + 1, k) <==> AsksAloneAt(events, n, k)
  {
    hide Distinct, AsksAlone, Next, Run;
    RunSplit(events, n);
    EventDistinct(Run(events[..n]), events[n], k);
  }

  lemma {:induction false} AskingAloneStaysDistinct(events: seq<Event>, n: nat, k: Kind)
    requires AllPossible(events) && n <= |events|
    requires forall i :: 0 <= i < n ==> AsksAloneAt(events, i, k)
    ensures DistinctAt(events, n, k)
  {
    hide AsksAloneAt;
    if n > 0 {
      AskingAloneStaysDistinct(events, n - 1, k);
      DistinctNext(events, n - 1, k);
    }
  }

  /** Over every sequence, the numbers of all labs' BGP routers are distinct at every moment exactly if no number
      entered by hand or drawn was another lab's when it was stored. */
  lemma NumbersDistinctExactly(events: seq<Event>, k: Kind)
    requires AllPossible(events)
    ensures (forall n :: 0 <= n <= |events| ==> DistinctAt(events, n, k)) <==>
      (forall i :: 0 <= i < |events| ==> AsksAloneAt(events, i, k))
  {
    hide AsksAloneAt, DistinctAt;
    if forall i :: 0 <= i < |events| ==> AsksAloneAt(events, i, k) {
      forall n | 0 <= n <= |events| ensures DistinctAt(events, n, k) {
        AskingAloneStaysDistinct(events, n, k);
      }
    }
    if forall n :: 0 <= n <= |events| ==> DistinctAt(events, n, k) {
      forall i | 0 <= i < |events| ensures AsksAloneAt(events, i, k) {
        DistinctNext(events, i, k);
      }
    }
  }

  /** A save leaves the number blank, or sends back the one stored for the lab's BGP router; nothing is imported
      with a number. */
  ghost predicate Automatic(store: Store, e: Event, k: Kind) {
    match e
    case Save(p, request, _, _, _, _) =>
      NumberOf(request, k).None? || (p in store && LabNumber(store[p], k) == NumberOf(request, k))
    case Import(_, router) => NumberOf(router, k).None?
    case _ => true
  }

  ghost predicate AutomaticAt(events: seq<Event>, i: nat, k: Kind)
    requires AllPossible(events) && i < |events|
  {
    Automatic(Run(events[..i]), events[i], k)
  }

  lemma {:induction false} AutomaticIsAlone(events: seq<Event>, n: nat, k: Kind)
    requires AllPossible(events) && n <= |events|
    requires forall i :: 0 <= i < n ==> AutomaticAt(events, i, k)
    ensures DistinctAt(events, n, k)
  {
    if n > 0 {
      AutomaticIsAlone(events, n - 1, k);
      assert AutomaticAt(events, n - 1, k);
      AutomaticAsksAlone(Run(events[..n - 1]), events[n - 1], k);
      DistinctNext(events, n - 1, k);
    }
  }

  lemma AutomaticAsksAlone(store: Store, e: Event, k: Kind)
    requires Legible(store) && Distinct(store, k) && Possible(e) && Automatic(store, e, k)
    ensures AsksAlone(store, e, k)
  {
    hide Saved, NumberOf;
  }

  /** If every number is left to the program, no two labs' BGP routers ever have the same. */
  lemma AutomaticNumbersStayDistinct(events: seq<Event>, k: Kind, p: Path, q: Path)
    requires AllPossible(events) && forall i :: 0 <= i < |events| ==> AutomaticAt(events, i, k)
    ensures var store := Run(events);
      p in store && q in store && p != q && LabNumber(store[p], k).Some? ==> LabNumber(store[p], k) != LabNumber(store[q], k)
  {
    hide AutomaticAt, LabNumber, Run;
    AutomaticIsAlone(events, |events|, k);
    assert events[..|events|] == events;
  }

  /** A normalized router that fits and has the stored network is taken as it is, up to its numbers. */
  lemma FittingPass(store: Store, p: Path, r: Router, pool: Text, blocks: seq<Lan>, pools: BgpPools)
    requires Inv(store) && Fits(store, p, r) && Readable(pool) && ParsePool(pool).Ok? && ShuffleOk(pool, blocks)
    requires p in store && store[p].WithRouter? ==> store[p].router.network == r.network
    ensures Legible(store) && Possible(Save(p, r, pool, blocks, None, pools))
    ensures Saved(store, Save(p, r, pool, blocks, None, pools)) == Allocate(store, p, r, pools)
    ensures Allocate(store, p, r, pools).Ok? ==> Inv(store[p := WithRouter(Allocate(store, p, r, pools).value)])
  {
    hide Allocate, Overlaps, ValidNet, GatewayOk;
    InvIsLegible(store);
    NormalReads(r);
    ClashesWith(store, p, r, LanOf(r));
    forall q | q in store ensures !Blocks(store, q, p, r, LanOf(r)) {
      assert q == p || !store[q].WithRouter? || Apart(LanOf(r), LanOf(store[q].router));
    }
    assert Normalize(store, p, r, pool, blocks) == Ok(r);
    EventKeeps(store, Save(p, r, pool, blocks, None, pools));
  }

  /** 10.0.1.0/24 with gateway 10.0.1.1/24, with BGP and no number yet. */
  const EAST: Router := Router(Print(167772416, 24), Print(167772417, 24), true, None, None)

  const POOLS: BgpPools := BgpPools(Some((64512, 65534)), NoIpPool)

  lemma NeighboursFit()
    ensures Normal(TEN) && Normal(EAST) && Apart(LanOf(TEN), LanOf(EAST)) && Apart(LanOf(EAST), LanOf(TEN))
  {
    TenIsNormal();
    var net := Net(167772416, 24);
    BlockHolds(167772416, 0);
    FirstHost(net);
    forall ip: nat ensures !(Contains(Net(167772160, 24), ip) && Contains(net, ip)) {
      BlockHolds(167772160, ip);
      BlockHolds(167772416, ip);
    }
    hide Contains, ValidNet;
    OverlapsMeansShared(Net(167772160, 24), net);
    OverlapsMeansShared(net, Net(167772160, 24));
  }

  /** The stores of the example: AS 64512 with BGP off, the same number given out, and BGP on again. */
  function Stage(on: bool, given: bool): Store {
    var a := WithRouter(TEN.(asn := Some(64512), bgp := on));
    if given then map["a" := a, "b" := WithRouter(EAST.(asn := Some(64512)))] else map["a" := a]
  }

  lemma StageInv(on: bool, given: bool)
    ensures Inv(Stage(on, given))
  {
    NeighboursFit();
    hide GatewayOk, ValidNet, Apart;
  }

  lemma FirstNumber(on: bool)
    ensures Allocate(Stage(false, false), "b", EAST, POOLS) == Ok(EAST.(asn := Some(64512)))
    ensures var a := TEN.(asn := Some(64512), bgp := on);
      forall store: Store :: Allocate(store, "a", a, POOLS) == Ok(a)
  {
    assert UsedAs(Stage(false, false), "b", EAST) == {};
  }

  lemma StageStep(store: Store, p: Path, r: Router, pool: Text, blocks: seq<Lan>, got: Router)
    requires Inv(store) && Fits(store, p, r) && Readable(pool) && ParsePool(pool).Ok? && ShuffleOk(pool, blocks)
    requires p in store && store[p].WithRouter? ==> store[p].router.network == r.network
    requires Allocate(store, p, r, POOLS) == Ok(got)
    ensures Legible(store) && Possible(Save(p, r, pool, blocks, None, POOLS))
    ensures Next(store, Save(p, r, pool, blocks, None, POOLS)) == store[p := WithRouter(got)]
  {
    hide Fits, Inv, Allocate, Saved;
    FittingPass(store, p, r, pool, blocks, POOLS);
  }

  lemma Stages(pool: Text, blocks: seq<Lan>)
    requires Readable(pool) && ParsePool(pool).Ok? && ShuffleOk(pool, blocks)
    ensures Legible(map[]) && Legible(Stage(false, false)) && Legible(Stage(false, true))
    ensures var a := TEN.(asn := Some(64512));
      var first, second, third := Save("a", a, pool, blocks, None, POOLS), Save("b", EAST, pool, blocks, None, POOLS),
                                  Save("a", a.(bgp := true), pool, blocks, None, POOLS);
      && Possible(first) && Possible(second) && Possible(third)
      && Next(map[], first) == Stage(false, false)
      && Next(Stage(false, false), second) == Stage(false, true)
      && Next(Stage(false, true), third) == Stage(true, true)
  {
    var a := TEN.(asn := Some(64512));
    NeighboursFit();
    hide ValidNet, GatewayOk, Apart, Inv, ShuffleOk, Possible, Next, Allocate;
    FirstNumber(false);
    FirstNumber(true);
    StageInv(false, false);
    StageInv(false, true);
    assert Inv(map[]) by { EmptyInv(); }
    StageStep(map[], "a", a, pool, blocks, a);
    StageStep(Stage(false, false), "b", EAST, pool, blocks, EAST.(asn := Some(64512)));
    StageStep(Stage(false, true), "a", a.(bgp := true), pool, blocks, a.(bgp := true));
  }

  lemma EmptyInv()
    ensures Inv(map[])
  {
  }

  lemma ThreeEvents(a: Event, b: Event, c: Event)
    requires Possible(a) && Possible(b) && Possible(c)
    ensures Run([a, b, c]) == Next(Next(Next(map[], a), b), c)
  {
    assert AllPossible([a]) && AllPossible([a, b]) && AllPossible([a, b, c]);
    hide Possible, Next;
    assert [a, b, c][..2] == [a, b] && [a, b][..1] == [a] && [a][..0] == [];
    assert Run([a]) == Next(Run([]), a);
    assert Run([a, b]) == Next(Run([a]), b);
  }

  /** Sending back the stored number is not enough when BGP was off: its number is given to another lab meanwhile.
      Lab "a" is saved without BGP but with AS 64512, lab "b" gets 64512 automatically, and "a" turns BGP on. */
  lemma SwitchedOffNumberIsReused(pool: Text, blocks: seq<Lan>)
    requires Readable(pool) && ParsePool(pool).Ok? && ShuffleOk(pool, blocks)
    ensures var a := TEN.(asn := Some(64512));
      var events := [Save("a", a, pool, blocks, None, POOLS), Save("b", EAST, pool, blocks, None, POOLS),
                     Save("a", a.(bgp := true), pool, blocks, None, POOLS)];
      && AllPossible(events)
      && Run(events) == map["a" := WithRouter(a.(bgp := true)), "b" := WithRouter(EAST.(asn := Some(64512)))]
      && !Distinct(Run(events), AsNumber)
  {
    hide Next, Run, Possible;
    var a := TEN.(asn := Some(64512));
    Stages(pool, blocks);
    ThreeEvents(Save("a", a, pool, blocks, None, POOLS), Save("b", EAST, pool, blocks, None, POOLS),
                Save("a", a.(bgp := true), pool, blocks, None, POOLS));
    var store := Stage(true, true);
    assert LabNumber(store["a"], AsNumber) == LabNumber(store["b"], AsNumber);
  }
}
