/** Which peer of a written WireGuard file a packet goes to. */
module Routing {
  import opened Ipv4
  import opened Ordering
  import opened Allocator
  import opened Text
  import opened Subnet
  import opened Namespaces
  import opened Mesh
  import opened NamespaceProbe
  import opened Apply
  import opened Convergence
  import opened Extending
  import WgConfig

  /** The address is the management address of `q` or lies in one of its subnets. */
  ghost predicate Owns(d: Desired, al: Allocation, q: string, ip: U32) {
    ip == MgmtOf(al, q) || (q in d.nodes && exists ns :: ns in d.namespaces && SubnetOf(al, ns, q).Contains(ip))
  }

  /** WireGuard's cryptokey routing: the peer's AllowedIPs contain the address. */
  ghost predicate RoutesTo(p: WgConfig.PeerConfig, ip: U32) {
    ip == p.mgmtIp || exists i :: 0 <= i < |p.containerSubnets| && p.containerSubnets[i].Contains(ip)
  }

  lemma RoutesToOwner(d: Desired, probed: MeshState, al: Allocation, q: string, ip: U32)
    requires q in probed
    ensures RoutesTo(PeerFor(d, probed, al, q), ip) <==> Owns(d, al, q, ip)
  {
    var nss := Sort(d.namespaces);
    SortMembers(d.namespaces);
    var nets := Nets(HostSubnets(al, nss, q));
    forall ns | ns in d.namespaces ensures exists i :: 0 <= i < |nets| && nets[i] == SubnetOf(al, ns, q) {
      var i :| 0 <= i < |nss| && nss[i] == ns;
      assert nets[i] == SubnetOf(al, ns, q);
    }
    forall i | 0 <= i < |nets| ensures exists ns :: ns in d.namespaces && nets[i] == SubnetOf(al, ns, q) {
      assert nss[i] in d.namespaces && nets[i] == SubnetOf(al, nss[i], q);
    }
  }

  ghost predicate DisjointPools(d: Desired) { Disjoint(d.mgmtPool, d.containerPool) }

  lemma MgmtInPool(d: Desired, cur: MeshState, al: Allocation)
    requires AllocateMesh(d, cur) == Result<Allocation>.Ok(al)
    ensures al.mgmt.Keys == Names(d.hosts) && Injective(al.mgmt)
    ensures forall h :: h in al.mgmt ==> d.mgmtPool.Contains(al.mgmt[h])
  {
    hide AllocateNamespaced, AssignedSubnets, AssignedMgmt, AllocateMgmt, Injective;
    MgmtIsGood(d.mgmtPool, AssignedMgmt(cur), d.hosts, al.mgmt);
  }

  lemma SubnetsInPool(d: Desired, cur: MeshState, al: Allocation)
    requires AllocateMesh(d, cur) == Result<Allocation>.Ok(al) && PoolSound(d)
    ensures d.containerPool.prefix <= d.containerPrefix <= 32
    ensures GoodPairs(d.containerPool, d.containerPrefix, Pairs(d.namespaces, d.nodes), al.subnets)
  {
    hide AllocateMgmt, AssignedSubnets, AssignedMgmt, AllocateNamespaced, GoodPairs;
    PrefixIsValid(d.containerPool, d.containerPrefix, AssignedSubnets(cur), d.namespaces, d.nodes);
    NamespacedExact(d.containerPool, d.containerPrefix, AssignedSubnets(cur), d.namespaces, d.nodes);
  }

  /** A container subnet of one host holds no address of any host, except its own. */
  lemma SubnetApart(d: Desired, cur: MeshState, al: Allocation, ns: string, p: string, q: string, ip: U32)
    requires AllocateMesh(d, cur) == Result<Allocation>.Ok(al) && PoolSound(d) && DisjointPools(d)
    requires p in d.nodes && ns in d.namespaces && SubnetOf(al, ns, p).Contains(ip)
    requires q in d.hosts && Owns(d, al, q, ip)
    ensures p == q
  {
    hide AllocateMesh, PoolSound, Pairs;
    MgmtInPool(d, cur, al);
    SubnetsInPool(d, cur, al);
    PairsAre(d.namespaces, d.nodes, (ns, p));
    assert Fitting(d.containerPool, d.containerPrefix, al.subnets, (ns, p));
    assert d.containerPool.Contains(ip);
    assert q in al.mgmt;
    assert ip != MgmtOf(al, q);
    var m :| m in d.namespaces && SubnetOf(al, m, q).Contains(ip);
    PairsAre(d.namespaces, d.nodes, (m, q));
    assert Fitting(d.containerPool, d.containerPrefix, al.subnets, (m, q));
    assert (m, q) != (ns, p) ==> Separate(al.subnets, (m, q), (ns, p));
  }

  /** No address belongs to two hosts of one allocation. */
  lemma OneOwner(d: Desired, cur: MeshState, al: Allocation, p: string, q: string, ip: U32)
    requires AllocateMesh(d, cur) == Result<Allocation>.Ok(al) && PoolSound(d) && DisjointPools(d)
    requires p in d.hosts && q in d.hosts && Owns(d, al, p, ip) && Owns(d, al, q, ip)
    ensures p == q
  {
    hide AllocateMesh, PoolSound, DisjointPools;
    MgmtInPool(d, cur, al);
    if ip != MgmtOf(al, p) {
      var ns :| ns in d.namespaces && SubnetOf(al, ns, p).Contains(ip);
      SubnetApart(d, cur, al, ns, p, q, ip);
    } else if ip != MgmtOf(al, q) {
      var ns :| ns in d.namespaces && SubnetOf(al, ns, q).Contains(ip);
      SubnetApart(d, cur, al, ns, q, p, ip);
    } else {
      assert p in al.mgmt && q in al.mgmt;
    }
  }

  function Others(hosts: seq<string>, self: string): (r: seq<string>)
    ensures forall p :: p in r <==> p in hosts && p != self
  {
    if hosts == [] then []
    else
      var front, p := hosts[..|hosts| - 1], hosts[|hosts| - 1];
      assert hosts == front + [p];
      Others(front, self) + (if p != self then [p] else [])
  }

  lemma {:induction false} OthersDistinct(hosts: seq<string>, self: string)
    requires Distinct(hosts)
    ensures Distinct(Others(hosts, self))
  {
    if hosts != [] {
      var front, p := hosts[..|hosts| - 1], hosts[|hosts| - 1];
      OthersDistinct(front, self);
      assert p !in front;
    }
  }

  /** With every key known, the file lists each other host once. */
  lemma {:induction false} PeersAreOthers(d: Desired, probed: MeshState, al: Allocation, hosts: seq<string>, self: string)
    requires forall p :: p in hosts && p != self ==> p in probed && probed[p].wg.publicKey != ""
    ensures |PeersFor(d, probed, al, hosts, self)| == |Others(hosts, self)|
    ensures forall i :: 0 <= i < |Others(hosts, self)| ==>
              Others(hosts, self)[i] in probed &&
              PeersFor(d, probed, al, hosts, self)[i] == PeerFor(d, probed, al, Others(hosts, self)[i])
  {
    hide PeerFor;
    if hosts != [] {
      PeersAreOthers(d, probed, al, hosts[..|hosts| - 1], self);
    }
  }

  /** Every address of another host goes to that host's entry and to no other; none of the host's
      own addresses goes to a peer. */
  lemma UniqueRoute(d: Desired, cur: MeshState, probed: MeshState, al: Allocation, self: string, q: string, ip: U32)
    requires AllocateMesh(d, cur) == Result<Allocation>.Ok(al) && PoolSound(d) && DisjointPools(d)
    requires self in d.hosts && q in d.hosts && Owns(d, al, q, ip)
    requires forall p :: p in d.hosts && p != self ==> p in probed && probed[p].wg.publicKey != ""
    ensures var peers := PeersFor(d, probed, al, d.hosts, self);
            if q == self then forall j :: 0 <= j < |peers| ==> !RoutesTo(peers[j], ip)
            else exists i :: 0 <= i < |peers| && peers[i] == PeerFor(d, probed, al, q) && RoutesTo(peers[i], ip)
                   && forall j :: 0 <= j < |peers| && j != i ==> !RoutesTo(peers[j], ip)
  {
    hide AllocateMesh, PoolSound, DisjointPools, Owns, RoutesTo, PeerFor, PeersFor, Others;
    var others, peers := Others(d.hosts, self), PeersFor(d, probed, al, d.hosts, self);
    PeersAreOthers(d, probed, al, d.hosts, self);
    HostsDistinct(d, cur);
    OthersDistinct(d.hosts, self);
    forall j | 0 <= j < |peers| ensures RoutesTo(peers[j], ip) <==> others[j] == q {
      assert others[j] in others;
      RoutesToOwner(d, probed, al, others[j], ip);
      if Owns(d, al, others[j], ip) {
        OneOwner(d, cur, al, others[j], q, ip);
      }
    }
    if q != self {
      var i :| 0 <= i < |others| && others[i] == q;
      assert RoutesTo(peers[i], ip);
    }
  }

  lemma HostsDistinct(d: Desired, cur: MeshState)
    requires AllocateMesh(d, cur).Ok?
    ensures Distinct(d.hosts)
  {
    hide AllocateNamespaced, AssignedSubnets, AssignedMgmt, Assign, Distinct;
  }

  // ----- the same, read from the file -----

  /** One of the texts after AllowedIPs is a network that holds the address. */
  ghost predicate FileRoutes(p: WgConfig.Peer, ip: U32) {
    exists i :: 0 <= i < |p.allowedIps| && TextHolds(p.allowedIps[i], ip)
  }

  ghost predicate TextHolds(s: string, ip: U32) { ParseNet(s).Some? && ParseNet(s).value.Contains(ip) }

  lemma SingleAddress(a: U32, ip: U32)
    ensures Net(a, 32).Contains(ip) <==> ip == a
  {
    assert Pow2(0) == 1 && Net(a, 32).Size() == 1;
  }

  lemma ShownHolds(net: Net, ip: U32)
    ensures TextHolds(WgConfig.ShowNet(net), ip) <==> net.Contains(ip)
  {
    NetRoundTrip(net);
  }

  lemma AllowedHolds(c: WgConfig.PeerConfig, i: nat, ip: U32)
    requires i <= |c.containerSubnets|
    ensures |WgConfig.AllowedIps(c)| == |c.containerSubnets| + 1
    ensures TextHolds(WgConfig.AllowedIps(c)[i], ip) <==> if i == 0 then ip == c.mgmtIp else c.containerSubnets[i - 1].Contains(ip)
  {
    hide TextHolds, WgConfig.ShowIp;
    if i == 0 {
      assert Show(32) == "32" by { assert Show(3) == "3"; }
      assert WgConfig.ShowNet(Net(c.mgmtIp, 32)) == WgConfig.ShowIp(c.mgmtIp) + "/32";
      ShownHolds(Net(c.mgmtIp, 32), ip);
      SingleAddress(c.mgmtIp, ip);
    } else {
      ShownHolds(c.containerSubnets[i - 1], ip);
    }
  }

  lemma FileRoutesIff(c: WgConfig.PeerConfig, port: WgConfig.U16, ip: U32)
    ensures FileRoutes(WgConfig.PeerOf(c, port), ip) <==> RoutesTo(c, ip)
  {
    hide TextHolds, WgConfig.EndpointAddr;
    var texts := WgConfig.AllowedIps(c);
    forall i | 0 <= i <= |c.containerSubnets|
      ensures |texts| == |c.containerSubnets| + 1
      ensures TextHolds(texts[i], ip) <==> if i == 0 then ip == c.mgmtIp else c.containerSubnets[i - 1].Contains(ip)
    {
      AllowedHolds(c, i, ip);
    }
    AllowedHolds(c, 0, ip);
    hide WgConfig.AllowedIps;
    if RoutesTo(c, ip) {
      if ip == c.mgmtIp {
        assert TextHolds(texts[0], ip);
      } else {
        var j :| 0 <= j < |c.containerSubnets| && c.containerSubnets[j].Contains(ip);
        assert TextHolds(texts[j + 1], ip);
      }
    }
    if FileRoutes(WgConfig.PeerOf(c, port), ip) {
      var i :| 0 <= i < |texts| && TextHolds(texts[i], ip);
      if i > 0 { assert c.containerSubnets[i - 1].Contains(ip); }
    }
  }

  /** In the file a host is given, read back as text: an address of another host is held by the
      AllowedIPs of the entry with that host's key and of no other entry, and an own address by none. */
  lemma FileRoutesUniquely(d: Desired, cur: MeshState, probed: MeshState, al: Allocation, private: string,
                           self: string, q: string, ip: U32)
    requires AllocateMesh(d, cur) == Result<Allocation>.Ok(al) && PoolSound(d) && DisjointPools(d)
    requires self in d.hosts && q in d.hosts && Owns(d, al, q, ip) && CleanLine(private)
    requires forall p :: p in d.hosts && p != self ==> p in probed && probed[p].wg.publicKey != ""
    requires forall p :: p in d.hosts && p in probed ==> CleanLine(probed[p].wg.publicKey) && CleanLine(EndpointFor(d, p))
    ensures var port := ListenPortFor(d, self);
            var peers := WgConfig.ParseConfig(WgConfig.RenderConfig(MgmtOf(al, self), port, private,
                                                                    PeersFor(d, probed, al, d.hosts, self))).peers;
            if q == self then forall j :: 0 <= j < |peers| ==> !FileRoutes(peers[j], ip)
            else exists i :: 0 <= i < |peers| && peers[i].publicKey == probed[q].wg.publicKey && FileRoutes(peers[i], ip)
                   && forall j :: 0 <= j < |peers| && j != i ==> !FileRoutes(peers[j], ip)
  {
    hide AllocateMesh, PoolSound, DisjointPools, Owns, RoutesTo, PeersFor, FileRoutes, EndpointFor, CleanLine, MgmtOf, ListenPortFor,
         WgConfig.ParseConfig, WgConfig.RenderConfig, WgConfig.CleanPeer, WgConfig.AllowedIps, WgConfig.EndpointAddr;
    var port, written := ListenPortFor(d, self), PeersFor(d, probed, al, d.hosts, self);
    PeersAreClean(d, probed, al, d.hosts, self);
    CleanIs(private);
    WgConfig.ConfigRoundTrip(MgmtOf(al, self), port, private, written);
    UniqueRoute(d, cur, probed, al, self, q, ip);
    forall i | 0 <= i < |written| ensures FileRoutes(WgConfig.PeersOf(written, port)[i], ip) <==> RoutesTo(written[i], ip) {
      FileRoutesIff(written[i], port, ip);
    }
  }

  /** How a host is reached: as configured, or else by its name up to the first colon. */
  ghost predicate ReachedAs(d: Desired, q: string, e: string) {
    if q in d.endpoints then e == d.endpoints[q]
    else ':' !in e && (q == e || exists rest: string :: q == e + ":" + rest)
  }

  lemma EndpointReaches(d: Desired, q: string)
    ensures ReachedAs(d, q, EndpointFor(d, q))
  {
    if q !in d.endpoints {
      var i := IndexOf(q, ':');
      if i < |q| {
        assert q == q[..i] + ":" + q[i + 1..];
      }
    }
  }

  /** The file a host is given has, for each other host, an entry with its key and the place it is
      reached at: with its own port if that has one, and else with the port the file is written for. */
  lemma NeighbourWritten(d: Desired, probed: MeshState, al: Allocation, private: string, self: string, q: string)
    requires self in d.hosts && q in d.hosts && q != self && CleanLine(private)
    requires forall p :: p in d.hosts && p != self ==> p in probed && probed[p].wg.publicKey != ""
    requires forall p :: p in d.hosts && p in probed ==> CleanLine(probed[p].wg.publicKey) && CleanLine(EndpointFor(d, p))
    ensures var port: WgConfig.U16 := if self in d.listenPorts then d.listenPorts[self] else d.listenPort;
            var file := WgConfig.ParseConfig(WgConfig.RenderConfig(MgmtOf(al, self), ListenPortFor(d, self), private,
                                                                   PeersFor(d, probed, al, d.hosts, self)));
            && file.ip == Some(MgmtOf(al, self)) && file.listenPort == port
            && exists i, e :: 0 <= i < |file.peers| && ReachedAs(d, q, e)
                 && file.peers[i].publicKey == probed[q].wg.publicKey && file.peers[i].keepalive == 25
                 && file.peers[i].endpoint == if WgConfig.HasPort(e) then e else e + ":" + Show(port)
  {
    hide PeersFor, EndpointFor, CleanLine, MgmtOf, WgConfig.ParseConfig, WgConfig.RenderConfig, WgConfig.CleanPeer, WgConfig.HasPort,
         Others, ReachedAs;
    var others, written := Others(d.hosts, self), PeersFor(d, probed, al, d.hosts, self);
    PeersAreClean(d, probed, al, d.hosts, self);
    CleanIs(private);
    PeersAreOthers(d, probed, al, d.hosts, self);
    var i :| 0 <= i < |others| && others[i] == q;
    WgConfig.WrittenPeer(MgmtOf(al, self), ListenPortFor(d, self), private, written, i);
    EndpointReaches(d, q);
  }
}
