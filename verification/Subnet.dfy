/**
 Allocation of management addresses and of per-namespace container subnets
 (`coolify-cli/src/wireguard/subnet.rs`). Maps keyed by strings stand for `BTreeMap`s.
 */
module Subnet {
  import opened Ipv4
  import opened Ordering
  import opened Allocator

  datatype Error = BadPrefix | DuplicateHost | DuplicateNamespace | PoolExhausted | NeverReturns

  datatype Result<T> = Ok(value: T) | Err(error: Error)

  predicate HasDuplicate(s: seq<string>)
    ensures HasDuplicate(s) <==> !Distinct(s)
  {
    s != [] && (s[|s| - 1] in s[..|s| - 1] || HasDuplicate(s[..|s| - 1]))
  }

  // ----- subnets -----

  function Step(prefix: PrefixLen): (step: U32)
    ensures step > 0
    ensures prefix > 0 ==> step == Pow2(32 - prefix)
  {
    if prefix == 0 then 1
    else
      StepFits(prefix);
      Pow2(32 - prefix)
  }

  lemma {:induction false} StepFits(prefix: PrefixLen)
    requires prefix > 0
    ensures Pow2(32 - prefix) <= TOP
  {
    Pow2Whole();
    Pow2Add(32 - prefix, prefix);
    MulMonotone(2, Pow2(prefix), Pow2(32 - prefix));
    assert Pow2(prefix) * Pow2(32 - prefix) == Pow2(32 - prefix) * Pow2(prefix);
  }

  predicate Usable(pool: Net, prefix: PrefixLen, net: Net) {
    net.prefix == prefix && pool.Contains(net.Network())
  }

  /** The network numbers of the existing subnets that may be kept. */
  function SubnetClaims(pool: Net, prefix: PrefixLen, existing: map<string, Net>): map<string, U32> {
    map h | h in existing && Usable(pool, prefix, existing[h]) :: existing[h].Network()
  }

  function NetOf(prefix: PrefixLen, kept: map<string, U32>, existing: map<string, Net>, h: string, n: U32): Net {
    if h in kept && h in existing then existing[h] else Net(n, prefix)
  }

  function Allocate(pool: Net, prefix: nat, existing: map<string, Net>, hosts: seq<string>): Result<map<string, Net>> {
    if prefix < pool.prefix || prefix > 32 then Err(BadPrefix)
    else if HasDuplicate(hosts) then Err(DuplicateHost)
    else
      var claim := SubnetClaims(pool, prefix, existing);
      match Assign(hosts, claim, pool.Network(), pool.Broadcast(), Step(prefix))
      case Full => Err(PoolExhausted)
      case Hangs => Err(NeverReturns)
      case Done(m) =>
        var kept := Keep(Sort(hosts), claim);
        Ok(map h | h in m :: NetOf(prefix, kept, existing, h, m[h]))
  }

  /** How many blocks of the given prefix the pool holds. */
  function Capacity(pool: Net, prefix: PrefixLen): (c: nat)
    requires pool.prefix <= prefix
    ensures c > 0
  {
    Pow2(prefix - pool.prefix)
  }

  /** The first addresses of those blocks. */
  ghost function Blocks(pool: Net, prefix: PrefixLen): set<int> {
    Slots(pool.Network(), pool.Broadcast(), Pow2(32 - prefix))
  }

  ghost predicate Disjoint(a: Net, b: Net) {
    a.Broadcast() < b.Network() || b.Broadcast() < a.Network()
  }

  ghost predicate Inside(pool: Net, net: Net) {
    pool.Network() <= net.Network() && net.Broadcast() <= pool.Broadcast()
  }

  ghost function Networks(nets: map<string, Net>): map<string, U32> {
    map h | h in nets :: nets[h].Network()
  }

  /** `h` comes first, in key order, among the hosts whose usable claim has this network number. */
  ghost predicate FirstClaim(pool: Net, prefix: PrefixLen, existing: map<string, Net>, hosts: seq<string>, h: string) {
    && h in existing && Usable(pool, prefix, existing[h])
    && forall g :: g in hosts && g in existing && Less(g, h) && Usable(pool, prefix, existing[g]) ==>
         existing[g].Network() != existing[h].Network()
  }

  /** A first claim is kept as it was written; anyone else gets an aligned block, and a host
      that lost its claim does not get that block back. */
  ghost predicate Placed(pool: Net, prefix: PrefixLen, existing: map<string, Net>, hosts: seq<string>,
                         h: string, net: Net)
  {
    && net.prefix == prefix && Inside(pool, net)
    && (if FirstClaim(pool, prefix, existing, hosts, h) then net == existing[h] else
          && net.addr == net.Network()
          && (h in existing && Usable(pool, prefix, existing[h]) ==> net.Network() != existing[h].Network()))
  }

  ghost predicate GoodSubnets(pool: Net, prefix: PrefixLen, existing: map<string, Net>, hosts: seq<string>,
                              nets: map<string, Net>)
  {
    && nets.Keys == Names(hosts)
    && (forall h :: h in nets ==> Placed(pool, prefix, existing, hosts, h, nets[h]))
    && (forall g, h :: g in nets && h in nets && g != h ==> Disjoint(nets[g], nets[h]))
    && FirstFit(hosts, Keep(Sort(hosts), SubnetClaims(pool, prefix, existing)), Networks(nets), Blocks(pool, prefix))
  }

  // ----- the blocks of a pool -----

  lemma Multiples(a: int, b: int, t: nat)
    requires t > 0 && a % t == 0 && b % t == 0
    ensures a < b ==> a + t <= b
    ensures OnGrid(b, a, t)
  {
    var k := b / t - a / t;
    assert a == (a / t) * t && b == (b / t) * t;
    assert b - a == k * t;
    if a < b {
      if k <= 0 {
        MulMonotone(0, -k, t);
      } else {
        MulMonotone(1, k, t);
      }
    }
    DivUnique(b - a, t, k, 0);
  }

  lemma OnGridMultiple(x: int, start: int, t: nat)
    requires t > 0 && start % t == 0 && OnGrid(x, start, t)
    ensures x % t == 0
  {
    var k := start / t + (x - start) / t;
    assert start == (start / t) * t && x - start == ((x - start) / t) * t;
    assert x == k * t;
    DivUnique(x, t, k, 0);
  }

  lemma {:induction false} SlotCount(start: int, last: int, count: nat, t: nat)
    requires t > 0 && last == start + count * t - 1
    ensures |Slots(start, last, t)| == count
    decreases count
  {
    if count == 0 {
      assert Slots(start, last, t) == {};
    } else {
      PeelOne(count, t);
      SlotCount(start + t, last, count - 1, t);
      SlotsStep(start, last, t);
      SlotApart(start, last, t);
    }
  }

  lemma PeelOne(count: nat, t: nat)
    requires count > 0 && t > 0
    ensures count * t == t + (count - 1) * t >= t
  {
    MulMonotone(0, count - 1, t);
  }

  lemma SlotApart(start: int, last: int, t: nat)
    requires t > 0
    ensures start !in Slots(start + t, last, t)
    ensures |{start} + Slots(start + t, last, t)| == 1 + |Slots(start + t, last, t)|
  {
  }

  lemma PoolGeometry(pool: Net, prefix: PrefixLen)
    requires pool.prefix <= prefix
    ensures pool.Broadcast() + 1 == pool.Network() + Capacity(pool, prefix) * Pow2(32 - prefix)
    ensures pool.Network() % Pow2(32 - prefix) == 0
    ensures (pool.Broadcast() + 1) % Pow2(32 - prefix) == 0
    ensures |Blocks(pool, prefix)| == Capacity(pool, prefix)
  {
    var t, c := Pow2(32 - prefix), Capacity(pool, prefix);
    Pow2Add(prefix - pool.prefix, 32 - prefix);
    pool.WithinSpace();
    FinerMultiple(pool.Network(), c, t);
    SlotCount(pool.Network(), pool.Broadcast(), c, t);
  }

  lemma FinerMultiple(n: nat, c: nat, t: nat)
    requires c > 0 && t > 0 && c * t > 0 && n % (c * t) == 0
    ensures n % t == 0 && (n + c * t) % t == 0
  {
    var q := n / (c * t);
    assert n == q * (c * t) == (q * c) * t;
    MultipleMod(q * c, t);
    assert n + c * t == (q * c + c) * t;
    MultipleMod(q * c + c, t);
  }

  lemma BlockInside(pool: Net, prefix: PrefixLen, net: Net)
    requires pool.prefix <= prefix == net.prefix
    requires pool.Contains(net.Network())
    ensures net.Network() in Blocks(pool, prefix) && Inside(pool, net)
  {
    PoolGeometry(pool, prefix);
    net.WithinSpace();
    Multiples(pool.Network(), net.Network(), Pow2(32 - prefix));
    Multiples(net.Network(), pool.Broadcast() + 1, Pow2(32 - prefix));
  }

  lemma BlockNet(pool: Net, prefix: PrefixLen, n: U32)
    requires pool.prefix <= prefix && n in Blocks(pool, prefix)
    ensures Net(n, prefix).Network() == n && Inside(pool, Net(n, prefix))
  {
    PoolGeometry(pool, prefix);
    OnGridMultiple(n, pool.Network(), Pow2(32 - prefix));
    BlockInside(pool, prefix, Net(n, prefix));
  }

  lemma SamePrefixDisjoint(a: Net, b: Net)
    requires a.prefix == b.prefix && a.Network() != b.Network()
    ensures Disjoint(a, b)
  {
    a.WithinSpace();
    b.WithinSpace();
    Multiples(a.Network(), b.Network(), a.Size());
    Multiples(b.Network(), a.Network(), a.Size());
  }

  lemma BlocksAreSearched(pool: Net, prefix: PrefixLen)
    requires pool.prefix <= prefix
    ensures Searches(Blocks(pool, prefix), pool.Network(), pool.Broadcast(), Step(prefix))
  {
    if prefix > 0 {
      SlotsAreSearched(pool.Network(), pool.Broadcast(), Step(prefix));
    } else {
      PoolGeometry(pool, 0);
      Pow2Whole();
      SlotsStep(pool.Network(), pool.Broadcast(), Pow2(32));
      assert Blocks(pool, 0) == {pool.Network()};
    }
  }

  // ----- exactness -----

  lemma {:induction false} NamesSize(s: seq<string>)
    requires Distinct(s)
    ensures |Names(s)| == |s|
  {
    if s != [] {
      var front, h := s[..|s| - 1], s[|s| - 1];
      assert s == front + [h];
      NamesSize(front);
      NamesSnoc(front, h);
      assert h !in Names(front);
    }
  }

  /** Whether a claim is kept, in terms of the key order instead of positions. */
  lemma KeepByName(hosts: seq<string>, claim: map<string, U32>, h: string)
    requires Distinct(hosts) && h in hosts && h in claim
    ensures h in Keep(Sort(hosts), claim) <==>
            forall g :: g in hosts && g in claim && Less(g, h) ==> claim[g] != claim[h]
  {
    var order := Sort(hosts);
    SortMembers(hosts);
    SortStrict(hosts);
    StrictIsDistinct(order);
    var i :| 0 <= i < |order| && order[i] == h;
    KeepFirstClaim(order, claim, i);
    forall g | g in hosts ensures g in order[..i] <==> Less(g, h) {
      SortedPrefix(order, i, g);
    }
    assert forall g :: g in order[..i] ==> g in hosts;
  }

  lemma SortedPrefix(order: seq<string>, i: nat, g: string)
    requires StrictlySorted(order) && i < |order| && g in order
    ensures g in order[..i] <==> Less(g, order[i])
  {
    var j :| 0 <= j < |order| && order[j] == g;
    LessTrichotomy(g, order[i]);
    if j < i {
      assert order[..i][j] == g;
    }
  }

  lemma StrictIsDistinct(s: seq<string>)
    requires StrictlySorted(s)
    ensures Distinct(s)
  {
    forall i, j | 0 <= i < j < |s| ensures s[i] != s[j] {
      LessTrichotomy(s[i], s[j]);
    }
  }

  lemma AssignExact(hosts: seq<string>, claim: map<string, U32>, slots: set<int>, start: U32, last: int, step: U32)
    requires step > 0 && Searches(slots, start, last, step) && Distinct(hosts)
    requires forall h :: h in claim ==> claim[h] in slots
    requires last < TOP || |hosts| <= |slots|
    ensures match Assign(hosts, claim, start, last, step)
            case Done(m) =>
              |hosts| <= |slots| && m.Keys == Names(hosts) && Good(hosts, Keep(Sort(hosts), claim), slots, m)
            case Full => |hosts| > |slots|
            case Hangs => false
  {
    var kept := Keep(Sort(hosts), claim);
    SortMembers(hosts);
    KeepValues(Sort(hosts), claim);
    NamesSize(hosts);
    assert kept.Keys + Names(hosts) == Names(hosts);
    FillExact(hosts, kept, slots, start, last, step);
  }

  /** For distinct hosts and a prefix inside the pool, allocation succeeds exactly when there are
      enough blocks, and then it keeps first claims and fills the rest first-fit. */
  lemma AllocateExact(pool: Net, prefix: PrefixLen, existing: map<string, Net>, hosts: seq<string>)
    requires pool.prefix <= prefix && Distinct(hosts)
    requires pool.Broadcast() < TOP || |hosts| <= Capacity(pool, prefix)
    ensures match Allocate(pool, prefix, existing, hosts)
            case Ok(nets) => |hosts| <= Capacity(pool, prefix) && GoodSubnets(pool, prefix, existing, hosts, nets)
            case Err(e) => e == PoolExhausted && |hosts| > Capacity(pool, prefix)
  {
    var claim := SubnetClaims(pool, prefix, existing);
    PoolGeometry(pool, prefix);
    BlocksAreSearched(pool, prefix);
    forall h | h in claim ensures claim[h] in Blocks(pool, prefix) {
      BlockInside(pool, prefix, existing[h]);
    }
    AssignExact(hosts, claim, Blocks(pool, prefix), pool.Network(), pool.Broadcast(), Step(prefix));
    var r := Allocate(pool, prefix, existing, hosts);
    if r.Ok? {
      var m := Assign(hosts, claim, pool.Network(), pool.Broadcast(), Step(prefix)).m;
      SubnetsGood(pool, prefix, existing, hosts, m, r.value);
    }
  }

  lemma SubnetsGood(pool: Net, prefix: PrefixLen, existing: map<string, Net>, hosts: seq<string>,
                    m: map<string, U32>, nets: map<string, Net>)
    requires pool.prefix <= prefix && Distinct(hosts) && m.Keys == Names(hosts)
    requires Good(hosts, Keep(Sort(hosts), SubnetClaims(pool, prefix, existing)), Blocks(pool, prefix), m)
    requires nets == map h | h in m ::
               NetOf(prefix, Keep(Sort(hosts), SubnetClaims(pool, prefix, existing)), existing, h, m[h])
    ensures GoodSubnets(pool, prefix, existing, hosts, nets)
  {
    hide FirstFit, Keep, Placed, Disjoint, NetOf, Sort, Blocks, SubnetClaims, Names;
    forall h | h in nets
      ensures nets[h].Network() == m[h] && nets[h].prefix == prefix && Placed(pool, prefix, existing, hosts, h, nets[h])
    {
      SubnetOfHost(pool, prefix, existing, hosts, m, h);
    }
    assert Networks(nets) == m;
    forall g, h | g in nets && h in nets && g != h ensures Disjoint(nets[g], nets[h]) {
      SamePrefixDisjoint(nets[g], nets[h]);
    }
  }

  lemma SubnetOfHost(pool: Net, prefix: PrefixLen, existing: map<string, Net>, hosts: seq<string>,
                     m: map<string, U32>, h: string)
    requires pool.prefix <= prefix && Distinct(hosts) && m.Keys == Names(hosts) && h in m
    requires Good(hosts, Keep(Sort(hosts), SubnetClaims(pool, prefix, existing)), Blocks(pool, prefix), m)
    ensures var net := NetOf(prefix, Keep(Sort(hosts), SubnetClaims(pool, prefix, existing)), existing, h, m[h]);
            net.Network() == m[h] && net.prefix == prefix && Placed(pool, prefix, existing, hosts, h, net)
  {
    var claim := SubnetClaims(pool, prefix, existing);
    var kept := Keep(Sort(hosts), claim);
    if h in claim {
      KeepByName(hosts, claim, h);
      assert h in kept <==> FirstClaim(pool, prefix, existing, hosts, h);
      if h in kept {
        BlockInside(pool, prefix, existing[h]);
      } else {
        LostClaim(hosts, claim, m, h);
        BlockNet(pool, prefix, m[h]);
      }
    } else {
      BlockNet(pool, prefix, m[h]);
    }
  }

  /** A host that lost its claim is not given that number after all. */
  lemma LostClaim(hosts: seq<string>, claim: map<string, U32>, m: map<string, U32>, h: string)
    requires h in hosts && h in claim && h !in Keep(Sort(hosts), claim)
    requires h in m && Injective(m)
    requires forall g :: g in Keep(Sort(hosts), claim) ==> g in m && m[g] == claim[g]
    ensures m[h] != claim[h]
  {
    var kept := Keep(Sort(hosts), claim);
    SortMembers(hosts);
    KeepValues(Sort(hosts), claim);
    assert Claimed(Sort(hosts), claim, claim[h]);
    var g :| g in kept && kept[g] == claim[h];
  }

  // ----- a pool that ends at 255.255.255.255 -----

  lemma {:induction false} NeverFullAtTop(hosts: seq<string>, kept: map<string, U32>, start: U32, step: U32)
    requires step > 0
    ensures Fill(hosts, kept, start, TOP, step) != Full
  {
    if hosts != [] {
      var front := Fill(hosts[..|hosts| - 1], kept, start, TOP, step);
      NeverFullAtTop(hosts[..|hosts| - 1], kept, start, step);
      if front.Done? {
        NeverExhaustedAtTop(front.m.Values, start, step);
      }
    }
  }

  ghost predicate MeetsPromise(pool: Net, prefix: PrefixLen, existing: map<string, Net>, hosts: seq<string>)
    requires pool.prefix <= prefix
  {
    match Allocate(pool, prefix, existing, hosts)
    case Ok(nets) => |hosts| <= Capacity(pool, prefix) && GoodSubnets(pool, prefix, existing, hosts, nets)
    case Err(e) => e == PoolExhausted && |hosts| > Capacity(pool, prefix)
  }

  /** The promise fails exactly for a pool that ends at 255.255.255.255 and is asked for more
      blocks than it has: saturation then hides the exhaustion. */
  lemma PromiseHoldsIff(pool: Net, prefix: PrefixLen, existing: map<string, Net>, hosts: seq<string>)
    requires pool.prefix <= prefix && Distinct(hosts)
    ensures MeetsPromise(pool, prefix, existing, hosts) <==>
            (pool.Broadcast() < TOP || |hosts| <= Capacity(pool, prefix))
  {
    if pool.Broadcast() < TOP || |hosts| <= Capacity(pool, prefix) {
      AllocateExact(pool, prefix, existing, hosts);
    } else {
      NeverFullAtTop(hosts, Keep(Sort(hosts), SubnetClaims(pool, prefix, existing)), pool.Network(), Step(prefix));
    }
  }

  /** Any three hosts asking 255.255.255.252/30 for /31 subnets: the third is given
      255.255.255.255/31, which is the second host's block again. */
  lemma OverlapAtTop(pool: Net, a: string, b: string, c: string)
    requires pool == Net(0xFFFF_FFFC, 30)
    requires a != b && b != c && a != c
    ensures var r := Allocate(pool, 31, map[], [a, b, c]);
            && r.Ok? && b in r.value && c in r.value
            && r.value[c].addr == TOP && r.value[c].Network() == r.value[b].Network()
  {
    var hosts := [a, b, c];
    TopPool();
    FillAtTop(a, b, c);
    AllocateUnclaimed(pool, 31, hosts, 0xFFFF_FFFC, 2);
  }

  lemma TopPool()
    ensures Net(0xFFFF_FFFC, 30).Network() == 0xFFFF_FFFC && Net(0xFFFF_FFFC, 30).Broadcast() == TOP
    ensures Step(31) == 2
    ensures Net(0xFFFF_FFFE, 31).Network() == Net(0xFFFF_FFFF, 31).Network()
  {
    assert Pow2(1) == 2 && Pow2(2) == 4;
  }

  lemma AllocateUnclaimed(pool: Net, prefix: PrefixLen, hosts: seq<string>, start: U32, step: U32)
    requires pool.prefix <= prefix && Distinct(hosts)
    requires start == pool.Network() && step == Step(prefix)
    requires Fill(hosts, map[], start, pool.Broadcast(), step).Done?
    ensures var m := Fill(hosts, map[], start, pool.Broadcast(), step).m;
            Allocate(pool, prefix, map[], hosts) == Ok(map h | h in m :: Net(m[h], prefix))
  {
    var m, kept := Fill(hosts, map[], start, pool.Broadcast(), step).m, Keep(Sort(hosts), map[]);
    assert SubnetClaims(pool, prefix, map[]) == map[];
    assert kept == map[];
    assert (map h | h in m :: NetOf(prefix, kept, map[], h, m[h])) == map h | h in m :: Net(m[h], prefix);
  }

  lemma FillAtTop(a: string, b: string, c: string)
    requires a != b && b != c && a != c
    ensures Fill([a, b, c], map[], 0xFFFF_FFFC, TOP, 2) ==
            Done(map[a := 0xFFFF_FFFC, b := 0xFFFF_FFFE, c := 0xFFFF_FFFF])
  {
    var hosts, base := [a, b, c], 0xFFFF_FFFC;
    var m1: map<string, U32>, m2: map<string, U32> := map[a := base], map[a := base, b := base + 2];
    assert hosts[..2] == [a, b] && [a, b][..1] == [a];
    assert Fill([a], map[], base, TOP, 2) == Done(m1);
    assert m1[a] == base;
    assert m1.Values == {base};
    assert FirstFree(m1.Values, base + 2, TOP, 2) == Found(base + 2);
    assert Fill([a, b], map[], base, TOP, 2) == Done(m2);
    assert m2[a] == base && m2[b] == base + 2;
    assert m2.Values == {base, base + 2};
    assert FirstFree(m2.Values, TOP, TOP, 2) == Found(TOP);
    assert FirstFree(m2.Values, base + 2, TOP, 2) == Found(TOP);
  }

  // ----- management addresses -----

  predicate UsableIp(pool: Net, ip: U32) {
    ip != pool.Network() && ip != pool.Broadcast() && pool.Contains(ip)
  }

  function MgmtClaims(pool: Net, existing: map<string, U32>): map<string, U32> {
    map h | h in existing && UsableIp(pool, existing[h]) :: existing[h]
  }

  function AllocateMgmt(pool: Net, existing: map<string, U32>, hosts: seq<string>): Result<map<string, U32>> {
    if HasDuplicate(hosts) then Err(DuplicateHost)
    else
      match Assign(hosts, MgmtClaims(pool, existing), SaturatingAdd(pool.Network(), 1), pool.Broadcast() - 1, 1)
      case Full => Err(PoolExhausted)
      case Hangs => Err(NeverReturns)
      case Done(m) => Ok(m)
  }

  ghost function HostIps(pool: Net): set<int> {
    Slots(pool.Network() + 1, pool.Broadcast() - 1, 1)
  }

  /** Every address strictly between the network and the broadcast address. */
  lemma HostIpsAre(pool: Net)
    ensures forall ip :: ip in HostIps(pool) <==> pool.Network() < ip < pool.Broadcast()
    ensures |HostIps(pool)| == if pool.Size() < 2 then 0 else pool.Size() - 2
    ensures Searches(HostIps(pool), SaturatingAdd(pool.Network(), 1), pool.Broadcast() - 1, 1)
  {
    var start, last := SaturatingAdd(pool.Network(), 1), pool.Broadcast() - 1;
    assert forall x: int {:trigger OnGrid(x, start, 1)} :: OnGrid(x, start, 1);
    if pool.Size() < 2 {
      assert HostIps(pool) == {} == Slots(start, last, 1);
    } else {
      SlotCount(start, last, pool.Size() - 2, 1);
    }
    SlotsAreSearched(start, last, 1);
  }

  ghost predicate FirstIpClaim(pool: Net, existing: map<string, U32>, hosts: seq<string>, h: string) {
    && h in existing && UsableIp(pool, existing[h])
    && forall g :: g in hosts && g in existing && Less(g, h) ==> existing[g] != existing[h]
  }

  ghost predicate GoodMgmt(pool: Net, existing: map<string, U32>, hosts: seq<string>, ips: map<string, U32>) {
    && ips.Keys == Names(hosts)
    && Injective(ips)
    && (forall h :: h in ips ==> UsableIp(pool, ips[h]))
    && (forall h :: h in ips && h in existing && UsableIp(pool, existing[h]) ==>
          (FirstIpClaim(pool, existing, hosts, h) <==> ips[h] == existing[h]))
    && FirstFit(hosts, Keep(Sort(hosts), MgmtClaims(pool, existing)), ips, HostIps(pool))
  }

  /** Management addresses: every pool is handled, even one that ends at 255.255.255.255,
      because the search stops before the broadcast address. */
  lemma AllocateMgmtExact(pool: Net, existing: map<string, U32>, hosts: seq<string>)
    requires Distinct(hosts)
    ensures match AllocateMgmt(pool, existing, hosts)
            case Ok(ips) => |hosts| <= |HostIps(pool)| && GoodMgmt(pool, existing, hosts, ips)
            case Err(e) => e == PoolExhausted && |hosts| > |HostIps(pool)|
  {
    var claim := MgmtClaims(pool, existing);
    HostIpsAre(pool);
    AssignExact(hosts, claim, HostIps(pool), SaturatingAdd(pool.Network(), 1), pool.Broadcast() - 1, 1);
    var r := AllocateMgmt(pool, existing, hosts);
    if r.Ok? {
      forall h | h in r.value && h in claim
        ensures FirstIpClaim(pool, existing, hosts, h) <==> r.value[h] == existing[h]
      {
        KeepByName(hosts, claim, h);
        if h !in Keep(Sort(hosts), claim) {
          LostClaim(hosts, claim, r.value, h);
        }
      }
    }
  }

  // ----- one subnet per namespace and host -----

  function Key(ns: string, h: string): string { ns + "/" + h }

  type Subnets = map<string, map<string, Net>>

  function Row(ns: string, hosts: seq<string>): seq<(string, string)> {
    seq(|hosts|, i requires 0 <= i < |hosts| => (ns, hosts[i]))
  }

  /** All (namespace, host) pairs in the order the loops visit them. */
  function Pairs(namespaces: seq<string>, hosts: seq<string>): seq<(string, string)> {
    if namespaces == [] then []
    else Pairs(namespaces[..|namespaces| - 1], hosts) + Row(namespaces[|namespaces| - 1], hosts)
  }

  lemma {:induction false} PairsAre(namespaces: seq<string>, hosts: seq<string>, p: (string, string))
    ensures p in Pairs(namespaces, hosts) <==> p.0 in namespaces && p.1 in hosts
  {
    if namespaces != [] {
      var front, ns := namespaces[..|namespaces| - 1], namespaces[|namespaces| - 1];
      assert namespaces == front + [ns];
      PairsAre(front, hosts, p);
      if p.0 == ns && p.1 in hosts {
        var i :| 0 <= i < |hosts| && hosts[i] == p.1;
        assert Row(ns, hosts)[i] == p;
      }
    }
  }

  function Keys(pairs: seq<(string, string)>): (r: seq<string>)
    ensures |r| == |pairs|
    ensures forall i :: 0 <= i < |pairs| ==> r[i] == Key(pairs[i].0, pairs[i].1)
  {
    seq(|pairs|, i requires 0 <= i < |pairs| => Key(pairs[i].0, pairs[i].1))
  }

  predicate Has(subnets: Subnets, ns: string, h: string) {
    ns in subnets && h in subnets[ns]
  }

  /** The existing subnets under their flat keys. */
  function Flatten(existing: Subnets, pairs: seq<(string, string)>): (flat: map<string, Net>)
    ensures forall k :: k in flat ==> k in Keys(pairs)
  {
    if pairs == [] then map[]
    else
      var front, (ns, h) := pairs[..|pairs| - 1], pairs[|pairs| - 1];
      assert Keys(pairs) == Keys(front) + [Key(ns, h)];
      var flat := Flatten(existing, front);
      if Has(existing, ns, h) then flat[Key(ns, h) := existing[ns][h]] else flat
  }

  function AllocateNamespaced(pool: Net, prefix: nat, existing: Subnets, namespaces: seq<string>, hosts: seq<string>)
    : Result<Subnets>
  {
    if HasDuplicate(namespaces) then Err(DuplicateNamespace)
    else
      var pairs := Pairs(namespaces, hosts);
      match Allocate(pool, prefix, Flatten(existing, pairs), Keys(pairs))
      case Err(e) => Err(e)
      case Ok(flat) =>
        Ok(if hosts == [] then map[] else
           map ns | ns in namespaces :: map h | h in hosts && Key(ns, h) in flat :: flat[Key(ns, h)])
  }

  /** A host keeps the very subnet it reports if that has the right prefix length, starts inside the pool,
      and no host with an earlier name reports such a one at the same place. */
  lemma FirstClaimKept(pool: Net, prefix: PrefixLen, existing: map<string, Net>, hosts: seq<string>, h: string)
    requires Allocate(pool, prefix, existing, hosts).Ok? && pool.prefix <= prefix && Distinct(hosts)
    requires pool.Broadcast() < TOP || |hosts| <= Capacity(pool, prefix)
    requires h in hosts && h in existing
    requires existing[h].prefix == prefix && pool.Network() <= existing[h].Network() <= pool.Broadcast()
    requires forall g :: g in hosts && g in existing && Less(g, h) && existing[g].prefix == prefix ==>
               existing[g].Network() != existing[h].Network()
    ensures h in Allocate(pool, prefix, existing, hosts).value && Allocate(pool, prefix, existing, hosts).value[h] == existing[h]
  {
    hide FirstFit, Assign, Keep, Disjoint;
    AllocateExact(pool, prefix, existing, hosts);
    var nets := Allocate(pool, prefix, existing, hosts).value;
    assert h in nets && Placed(pool, prefix, existing, hosts, h, nets[h]);
    assert FirstClaim(pool, prefix, existing, hosts, h);
  }

  // ----- re-allocation -----

  /** Allocating again with the previous result as the existing subnets changes nothing. */
  lemma AllocateIdempotent(pool: Net, prefix: PrefixLen, existing: map<string, Net>, hosts: seq<string>)
    requires pool.prefix <= prefix
    requires pool.Broadcast() < TOP || |hosts| <= Capacity(pool, prefix)
    requires Allocate(pool, prefix, existing, hosts).Ok?
    ensures var nets := Allocate(pool, prefix, existing, hosts).value;
            Allocate(pool, prefix, nets, hosts) == Ok(nets)
  {
    var nets := Allocate(pool, prefix, existing, hosts).value;
    AllocateExact(pool, prefix, existing, hosts);
    OwnClaims(pool, prefix, existing, hosts, nets);
    AllocateExact(pool, prefix, nets, hosts);
    KeptAll(pool, prefix, nets, hosts, Allocate(pool, prefix, nets, hosts).value);
  }

  lemma OwnClaims(pool: Net, prefix: PrefixLen, existing: map<string, Net>, hosts: seq<string>, nets: map<string, Net>)
    requires GoodSubnets(pool, prefix, existing, hosts, nets)
    ensures forall h :: h in nets ==> FirstClaim(pool, prefix, nets, hosts, h)
  {
    forall h | h in nets ensures FirstClaim(pool, prefix, nets, hosts, h) {
      assert Placed(pool, prefix, existing, hosts, h, nets[h]);
      LessTrichotomy(h, h);
    }
  }

  lemma KeptAll(pool: Net, prefix: PrefixLen, nets: map<string, Net>, hosts: seq<string>, again: map<string, Net>)
    requires nets.Keys == Names(hosts)
    requires forall h :: h in nets ==> FirstClaim(pool, prefix, nets, hosts, h)
    requires GoodSubnets(pool, prefix, nets, hosts, again)
    ensures again == nets
  {
    forall h | h in nets ensures again[h] == nets[h] {
      assert Placed(pool, prefix, nets, hosts, h, again[h]);
    }
  }

  lemma MgmtIdempotent(pool: Net, existing: map<string, U32>, hosts: seq<string>, now: map<string, U32>)
    requires AllocateMgmt(pool, existing, hosts).Ok?
    requires var ips := AllocateMgmt(pool, existing, hosts).value;
             forall h :: h in ips ==> h in now && now[h] == ips[h]
    ensures AllocateMgmt(pool, now, hosts) == AllocateMgmt(pool, existing, hosts)
  {
    AllocateMgmtExact(pool, existing, hosts);
    AllocateMgmtExact(pool, now, hosts);
    MgmtKeptAll(pool, AllocateMgmt(pool, existing, hosts).value, now, hosts, AllocateMgmt(pool, now, hosts).value);
  }

  lemma MgmtKeptAll(pool: Net, ips: map<string, U32>, now: map<string, U32>, hosts: seq<string>, again: map<string, U32>)
    requires ips.Keys == Names(hosts) && Injective(ips)
    requires forall h :: h in ips ==> UsableIp(pool, ips[h])
    requires forall h :: h in ips ==> h in now && now[h] == ips[h]
    requires GoodMgmt(pool, now, hosts, again)
    ensures again == ips
  {
    forall h | h in ips ensures again[h] == ips[h] {
      LessTrichotomy(h, h);
      assert FirstIpClaim(pool, now, hosts, h);
    }
  }

  /** The same question for management addresses. */
  lemma MgmtExtend(pool: Net, held: map<string, U32>, existing: map<string, U32>, oldHosts: seq<string>, hosts: seq<string>)
    requires held.Keys == Names(oldHosts) <= Names(hosts)
    requires forall h :: h in held ==> h in existing && existing[h] == held[h] && UsableIp(pool, held[h])
    requires Injective(held)
    requires AllocateMgmt(pool, existing, hosts).Ok?
    ensures var ips := AllocateMgmt(pool, existing, hosts).value;
            forall h :: h in held ==>
              (h in ips && ips[h] == held[h] <==>
               !exists g :: g in hosts && g !in oldHosts && g in existing && Less(g, h) && existing[g] == existing[h])
  {
    AllocateMgmtExact(pool, existing, hosts);
    var ips := AllocateMgmt(pool, existing, hosts).value;
    forall h | h in held
      ensures h in ips && ips[h] == held[h] <==>
              !exists g :: g in hosts && g !in oldHosts && g in existing && Less(g, h) && existing[g] == existing[h]
    {
      LessTrichotomy(h, h);
      assert FirstIpClaim(pool, existing, hosts, h) <==> ips[h] == existing[h];
    }
  }

  // ----- namespaces -----

  lemma {:induction false} FlattenExact(existing: Subnets, pairs: seq<(string, string)>, p: (string, string))
    requires Distinct(Keys(pairs)) && p in pairs
    ensures Key(p.0, p.1) in Flatten(existing, pairs) <==> Has(existing, p.0, p.1)
    ensures Has(existing, p.0, p.1) ==> Flatten(existing, pairs)[Key(p.0, p.1)] == existing[p.0][p.1]
  {
    hide Key, Distinct;
    var front, last := pairs[..|pairs| - 1], pairs[|pairs| - 1];
    assert pairs == front + [last];
    assert Keys(pairs) == Keys(front) + [Key(last.0, last.1)];
    DistinctFront(Keys(front), Key(last.0, last.1));
    if p in front {
      var i :| 0 <= i < |front| && front[i] == p;
      assert Keys(front)[i] == Key(p.0, p.1);
      FlattenExact(existing, front, p);
    }
  }

  lemma DistinctFront(front: seq<string>, k: string)
    requires Distinct(front + [k])
    ensures Distinct(front)
    ensures k !in front
  {
    var s := front + [k];
    assert forall i :: 0 <= i < |front| ==> front[i] == s[i] && s[i] != s[|front|];
  }

  /** Only the existing subnets of the given pairs matter. */
  lemma {:induction false} FlattenLocal(a: Subnets, b: Subnets, pairs: seq<(string, string)>)
    requires forall p :: p in pairs ==>
      (Has(a, p.0, p.1) <==> Has(b, p.0, p.1)) && (Has(a, p.0, p.1) ==> a[p.0][p.1] == b[p.0][p.1])
    ensures Flatten(a, pairs) == Flatten(b, pairs)
  {
    if pairs != [] {
      assert pairs[|pairs| - 1] in pairs;
      FlattenLocal(a, b, pairs[..|pairs| - 1]);
    }
  }
}
