/**
 Plan, apply, probe and plan again: when the second plan is empty.
 */
module Convergence {
  import opened Ipv4
  import opened Text
  import opened Ordering
  import opened Subnet
  import opened Namespaces
  import opened Mesh
  import opened Intent
  import opened NamespaceProbe
  import opened Apply
  import opened PlanRuns
  import WgConfig
  import Allocator

  /** One host after all three phases. */
  function Ended(d: Desired, t: Texts, actions: seq<Action>, probed: MeshState, al: Allocation,
                 st: ServerState, key: KeyPair, h: string, r: Remote): Remote
  {
    var r2 := Phase2(d, t, actions, probed, al, h, Phase1(d, actions, st, key, h, r));
    if IsCooldNode(d, h) then Phase3(d, t, actions, al, h, r2) else r2
  }

  function NewKey(s: ServerState, key: KeyPair): string {
    if s.wg.keysExist then s.wg.publicKey else key.publicKey
  }

  /** `s` is what a probe of a host with these facts reports, what it reads as text aside. */
  predicate Reports(s: ServerState, f: ServerState) {
    s == f.(wg := f.wg.(mgmtIp := s.wg.mgmtIp, listenPort := s.wg.listenPort, peers := s.wg.peers),
            podman := f.podman.(namespaces := s.podman.namespaces))
  }

  /** `s` reports this network as it is. */
  predicate Seen(s: ServerState, nets: Networks, ns: string) {
    ns in s.podman.namespaces && s.podman.namespaces[ns] == Reported(nets, ns)
  }

  ghost predicate CleanNetworks(r: Remote, nss: seq<string>) {
    forall ns :: ns in nss ==> CleanNetwork(r.facts.podman.namespaces, ns)
  }

  /** What a probe reads about the networks is what there is. */
  lemma ProbeSees(r: Remote, nss: seq<string>, ns: string)
    requires CleanNetworks(r, nss) && ns in nss
    ensures Seen(Probe(r, nss), r.facts.podman.namespaces, ns)
  {
    hide WgConfig.ParseConfig, ParseNamespaces, NetworkLines, CleanNetwork;
    NamespacesRoundTrip([], r.facts.podman.namespaces, nss);
    assert [] + NetworkLines(r.facts.podman.namespaces, nss) == NetworkLines(r.facts.podman.namespaces, nss);
  }

  // ----- what the phases leave behind on one host -----

  lemma TunnelAfter(d: Desired, t: Texts, plan: seq<Action>, cur: MeshState, probed: MeshState, al: Allocation,
                    key: KeyPair, h: string, r: Remote)
    requires h in d.hosts && h in cur && Reports(cur[h], r.facts) && plan == AllActions(d, t, cur, al, d.hosts)
    requires StateOf(probed, h).wg.active == cur[h].wg.active
    ensures var e := Ended(d, t, plan, probed, al, cur[h], key, h, r).facts;
            e.wg.installed && e.wg.keysExist && e.wg.publicKey == NewKey(cur[h], key) && e.wg.active
  {
    hide ShouldRun, AllActions, NeedsConfig, ApplyNetworks, FirewallHash, ConfigHash, UnitHash, WgConfig.RenderConfig, PeersFor;
    TunnelSteps(d, t, cur, al, h, plan);
  }

  lemma ConfigAfter(d: Desired, t: Texts, plan: seq<Action>, cur: MeshState, probed: MeshState, al: Allocation,
                    key: KeyPair, h: string, r: Remote)
    requires h in d.hosts && h in cur && Reports(cur[h], r.facts) && plan == AllActions(d, t, cur, al, d.hosts)
    ensures var private := if cur[h].wg.keysExist then r.privateKey else key.privateKey;
            Ended(d, t, plan, probed, al, cur[h], key, h, r).config ==
            if NeedsConfig(d, cur, al, h) then
              WgConfig.RenderConfig(MgmtOf(al, h), ListenPortFor(d, h), private, PeersFor(d, probed, al, d.hosts, h))
            else r.config
  {
    hide ShouldRun, AllActions, NeedsConfig, ApplyNetworks, FirewallHash, ConfigHash, UnitHash, WgConfig.RenderConfig, PeersFor;
    TunnelSteps(d, t, cur, al, h, plan);
  }

  lemma PodmanAfter(d: Desired, t: Texts, plan: seq<Action>, cur: MeshState, probed: MeshState, al: Allocation,
                    key: KeyPair, h: string, r: Remote)
    requires h in d.hosts && h in cur && Reports(cur[h], r.facts) && plan == AllActions(d, t, cur, al, d.hosts)
    requires IsNode(d, h)
    ensures var e := Ended(d, t, plan, probed, al, cur[h], key, h, r).facts;
            && e.podman.podmanInstalled && e.podman.podmanSocketActive && e.podman.ipForward && !FirewallDrift(d, t, e, al, h)
            && e.podman.namespaces == ApplyNetworks(plan, al, h, Sort(d.namespaces), r.facts.podman.namespaces)
  {
    hide ShouldRun, AllActions, FirewallHash, Phase1, Phase2, Phase3;
    PodmanSteps(d, t, cur, al, h, plan);
    var r1 := Phase1(d, plan, cur[h], key, h, r);
    Phase1Podman(d, plan, cur[h], key, h, r);
    Phase2Podman(d, t, plan, probed, al, h, r1);
    Phase3Podman(d, t, plan, al, h, Phase2(d, t, plan, probed, al, h, r1));
  }

  lemma Phase1Podman(d: Desired, plan: seq<Action>, st: ServerState, key: KeyPair, h: string, r: Remote)
    requires IsNode(d, h)
    ensures var p, e := r.facts.podman, Phase1(d, plan, st, key, h, r).facts.podman;
            && e.podmanInstalled == (p.podmanInstalled || (!st.podman.podmanInstalled && ShouldRun(plan, h, InstallPodman, "")))
            && e.podmanSocketActive == (p.podmanSocketActive || (!st.podman.podmanSocketActive && ShouldRun(plan, h, EnablePodmanSocket, "")))
            && e.ipForward == (p.ipForward || (!st.podman.ipForward && ShouldRun(plan, h, EnableIpForward, "")))
            && e.namespaces == p.namespaces && e.firewallActive == p.firewallActive
            && e.defaultDenyActive == p.defaultDenyActive && e.firewallHash == p.firewallHash
  {
    hide ShouldRun;
  }

  lemma Phase2Podman(d: Desired, t: Texts, plan: seq<Action>, probed: MeshState, al: Allocation, h: string, r: Remote)
    requires IsNode(d, h)
    ensures var p, e := r.facts.podman, Phase2(d, t, plan, probed, al, h, r).facts.podman;
            var firewall := ShouldRun(plan, h, InstallFirewall, "");
            && e.podmanInstalled == p.podmanInstalled && e.podmanSocketActive == p.podmanSocketActive && e.ipForward == p.ipForward
            && e.namespaces == ApplyNetworks(plan, al, h, Sort(d.namespaces), p.namespaces)
            && e.firewallActive == (p.firewallActive || firewall)
            && e.defaultDenyActive == (if firewall then d.defaultDeny else p.defaultDenyActive)
            && e.firewallHash == if firewall then FirewallHash(d, t, al, h) else p.firewallHash
  {
    hide ShouldRun, ApplyNetworks, FirewallHash, WgConfig.RenderConfig, PeersFor, Sort;
  }

  lemma Phase3Podman(d: Desired, t: Texts, plan: seq<Action>, al: Allocation, h: string, r: Remote)
    ensures Phase3(d, t, plan, al, h, r).facts.podman == r.facts.podman
  {
    hide ShouldRun, ConfigHash, UnitHash;
  }

  lemma CooldAfter(d: Desired, t: Texts, plan: seq<Action>, cur: MeshState, probed: MeshState, al: Allocation,
                   key: KeyPair, h: string, r: Remote)
    requires h in d.hosts && h in cur && Reports(cur[h], r.facts) && plan == AllActions(d, t, cur, al, d.hosts)
    requires IsCooldNode(d, h)
    ensures var e := Ended(d, t, plan, probed, al, cur[h], key, h, r).facts;
            && e.services.corrosionInstalled && e.services.corrosionVersion == d.corrosionVersion
            && e.services.cooldInstalled && e.services.cooldVersion == d.cooldVersion
            && e.services.corrosionConfigHash == ConfigHash(d, t, al, h)
            && e.services.schemaExists && e.services.schemaHash == t.hash(t.schema)
            && e.services.corrosionActive && e.services.cooldActive && e.services.cooldUnitHash == UnitHash(d, t, al, h)
  {
    hide ShouldRun, AllActions, NeedsConfig, ApplyNetworks, FirewallHash, ConfigHash, UnitHash, WgConfig.RenderConfig, PeersFor;
    CooldSteps(d, t, cur, al, h, plan);
  }

  predicate GoodNetwork(nets: Networks, al: Allocation, ns: string, h: string) {
    ns in nets && nets[ns] == FreshNetwork(al, ns, h)
  }

  predicate SameNetwork(nets: Networks, before: Networks, ns: string) {
    (ns in nets <==> ns in before) && (ns in nets ==> nets[ns] == before[ns])
  }

  /** Each network is left as the plan wants it; the others are not touched. */
  lemma {:induction false} NetworksAfter(d: Desired, t: Texts, plan: seq<Action>, cur: MeshState, al: Allocation,
                                         h: string, nss: seq<string>, before: Networks, ns: string)
    requires h in d.hosts && h in cur && IsNode(d, h) && plan == AllActions(d, t, cur, al, d.hosts)
    requires forall m :: m in nss ==> m in d.namespaces && m != "" && Seen(cur[h], before, m)
    ensures ns in nss ==> GoodNetwork(ApplyNetworks(plan, al, h, nss, before), al, ns, h)
    ensures ns !in nss ==> SameNetwork(ApplyNetworks(plan, al, h, nss, before), before, ns)
  {
    hide ShouldRun, AllActions, ApplyNetwork, MissingNetwork, DriftedNetwork, SubnetOf, IsNode, GoodNetwork, SameNetwork, Seen;
    if nss == [] {
      NetworkSelf(before, ns);
    } else {
      var front, m := nss[..|nss| - 1], nss[|nss| - 1];
      assert nss == front + [m];
      assert forall x :: x in nss <==> x in front || x == m;
      var nets := ApplyNetworks(plan, al, h, front, before);
      NetworksAfter(d, t, plan, cur, al, h, front, before, m);
      NetworkSteps(d, t, cur, al, h, m, plan);
      OneNetworkAfter(plan, cur[h], al, h, m, before, nets);
      if ns != m {
        NetworksAfter(d, t, plan, cur, al, h, front, before, ns);
        NetworkChain(ApplyNetwork(plan, al, h, m, nets), nets, before, al, ns, h);
      }
    }
  }

  lemma NetworkSelf(nets: Networks, ns: string)
    ensures SameNetwork(nets, nets, ns)
  {
  }

  lemma NetworkChain(nets: Networks, mid: Networks, before: Networks, al: Allocation, ns: string, h: string)
    requires SameNetwork(nets, mid, ns)
    ensures GoodNetwork(mid, al, ns, h) ==> GoodNetwork(nets, al, ns, h)
    ensures SameNetwork(mid, before, ns) ==> SameNetwork(nets, before, ns)
  {
  }

  lemma OneNetworkAfter(plan: seq<Action>, s: ServerState, al: Allocation, h: string, ns: string, before: Networks, nets: Networks)
    requires Seen(s, before, ns)
    requires GoodNetwork(nets, al, ns, h) || SameNetwork(nets, before, ns)
    requires ShouldRun(plan, h, CreateNetwork, ns) <==> MissingNetwork(s, ns)
    requires ShouldRun(plan, h, RecreateNetwork, ns) <==> DriftedNetwork(s, ns, SubnetOf(al, ns, h))
    ensures GoodNetwork(ApplyNetwork(plan, al, h, ns, nets), al, ns, h)
    ensures forall m :: m != ns ==> SameNetwork(ApplyNetwork(plan, al, h, ns, nets), nets, m)
  {
    hide ShouldRun;
  }

  // ----- keys -----

  lemma {:induction false} KeysAgree(hosts: seq<string>, a: MeshState, b: MeshState, self: string)
    requires forall p :: p in hosts && p != self ==> p in a && p in b && a[p].wg.publicKey == b[p].wg.publicKey
    ensures DesiredKeys(hosts, a, self) == DesiredKeys(hosts, b, self)
  {
    if hosts != [] {
      KeysAgree(hosts[..|hosts| - 1], a, b, self);
    }
  }

  /** The peers written into a file are the known keys of the other hosts. */
  lemma {:induction false} WrittenKeys(d: Desired, probed: MeshState, al: Allocation, hosts: seq<string>, self: string, port: WgConfig.U16)
    ensures PeerKeys(WgConfig.PeersOf(PeersFor(d, probed, al, hosts, self), port)) == DesiredKeys(hosts, probed, self)
  {
    if hosts != [] {
      hide WgConfig.AllowedIps, WgConfig.EndpointAddr, EndpointFor, MgmtOf, HostSubnets, Nets, Sort;
      var front := hosts[..|hosts| - 1];
      WrittenKeys(d, probed, al, front, self, port);
      assert PeersFor(d, probed, al, front, self) + [] == PeersFor(d, probed, al, front, self);
    }
  }

  predicate CleanLine(s: string) { Trimmed(s) && '\n' !in s }

  lemma {:induction false} PeersAreClean(d: Desired, probed: MeshState, al: Allocation, hosts: seq<string>, self: string)
    requires forall p :: p in hosts && p in probed ==> CleanLine(probed[p].wg.publicKey) && CleanLine(EndpointFor(d, p))
    ensures forall i :: 0 <= i < |PeersFor(d, probed, al, hosts, self)| ==> WgConfig.CleanPeer(PeersFor(d, probed, al, hosts, self)[i])
  {
    if hosts != [] {
      PeersAreClean(d, probed, al, hosts[..|hosts| - 1], self);
    }
  }

  // ----- one host, as the next probe sees it -----

  ghost predicate PodmanSettled(d: Desired, t: Texts, al: Allocation, h: string, s: ServerState) {
    && s.podman.podmanInstalled && s.podman.podmanSocketActive && s.podman.ipForward && !FirewallDrift(d, t, s, al, h)
    && forall ns :: ns in d.namespaces ==> GoodNetwork(s.podman.namespaces, al, ns, h)
  }

  ghost predicate CooldSettled(d: Desired, t: Texts, al: Allocation, h: string, s: ServerState) {
    && s.services.corrosionInstalled && s.services.corrosionVersion == d.corrosionVersion
    && s.services.cooldInstalled && s.services.cooldVersion == d.cooldVersion
    && s.services.corrosionConfigHash == ConfigHash(d, t, al, h)
    && s.services.schemaExists && s.services.schemaHash == t.hash(t.schema)
    && s.services.corrosionActive && s.services.cooldActive && s.services.cooldUnitHash == UnitHash(d, t, al, h)
  }

  ghost predicate TunnelSettled(d: Desired, cur: MeshState, probed: MeshState, al: Allocation, key: KeyPair, h: string, s: ServerState)
    requires h in cur
  {
    && s.wg.installed && s.wg.keysExist && s.wg.active && s.wg.publicKey == NewKey(cur[h], key)
    && s.wg.mgmtIp == Some(MgmtOf(al, h))
    && (|d.hosts| > 1 ==> s.wg.listenPort == ListenPortFor(d, h))
    && (if NeedsConfig(d, cur, al, h) then PeerKeys(s.wg.peers) == DesiredKeys(d.hosts, probed, h) else s.wg.peers == cur[h].wg.peers)
  }

  ghost predicate CleanRemote(r: Remote) {
    CleanLine(r.privateKey) && CleanLine(r.facts.wg.publicKey) && (r.facts.wg.keysExist <==> r.facts.wg.publicKey != "")
  }

  ghost predicate CleanKey(k: KeyPair) {
    CleanLine(k.privateKey) && CleanLine(k.publicKey) && k.publicKey != ""
  }

  lemma CleanIs(s: string)
    requires CleanLine(s)
    ensures Trimmed(s) && '\n' !in s
  {
  }

  lemma ConfigKept(d: Desired, cur: MeshState, al: Allocation, h: string)
    requires h in cur && !NeedsConfig(d, cur, al, h)
    ensures cur[h].wg.mgmtIp == Some(MgmtOf(al, h)) && (|d.hosts| > 1 ==> cur[h].wg.listenPort == ListenPortFor(d, h))
    ensures Difference(DesiredKeys(d.hosts, cur, h), PeerKeys(cur[h].wg.peers)) == []
    ensures !KeyPending(d.hosts, cur, h) && cur[h].wg.keysExist && cur[h].wg.installed
  {
    hide DesiredKeys, PeerKeys, Difference, KeyPending;
  }

  lemma TunnelSettles(d: Desired, t: Texts, plan: seq<Action>, cur: MeshState, probed: MeshState, al: Allocation,
                      key: KeyPair, h: string, r: Remote)
    requires h in d.hosts && h in cur && cur[h] == Probe(r, d.namespaces) && plan == AllActions(d, t, cur, al, d.hosts)
    requires StateOf(probed, h).wg.active == cur[h].wg.active
    requires CleanRemote(r) && CleanKey(key)
    requires forall p :: p in d.hosts && p in probed ==> CleanLine(probed[p].wg.publicKey) && CleanLine(EndpointFor(d, p))
    ensures TunnelSettled(d, cur, probed, al, key, h, Probe(Ended(d, t, plan, probed, al, cur[h], key, h, r), d.namespaces))
  {
    hide AllActions, Ended, DesiredKeys, PeersFor, WgConfig.RenderConfig, WgConfig.ParseConfig, WgConfig.PeersOf,
         PeerKeys, NeedsConfig, MgmtOf, ListenPortFor, EndpointFor, CleanLine, WgConfig.CleanPeer;
    TunnelAfter(d, t, plan, cur, probed, al, key, h, r);
    ConfigAfter(d, t, plan, cur, probed, al, key, h, r);
    if NeedsConfig(d, cur, al, h) {
      PeersAreClean(d, probed, al, d.hosts, h);
      var private := if cur[h].wg.keysExist then r.privateKey else key.privateKey;
      CleanIs(private);
      WgConfig.ConfigRoundTrip(MgmtOf(al, h), ListenPortFor(d, h), private, PeersFor(d, probed, al, d.hosts, h));
      WrittenKeys(d, probed, al, d.hosts, h, ListenPortFor(d, h));
    } else {
      ConfigKept(d, cur, al, h);
    }
  }

  lemma PodmanSettles(d: Desired, t: Texts, plan: seq<Action>, cur: MeshState, probed: MeshState, al: Allocation,
                      key: KeyPair, h: string, r: Remote)
    requires h in d.hosts && h in cur && cur[h] == Probe(r, d.namespaces) && plan == AllActions(d, t, cur, al, d.hosts)
    requires IsNode(d, h) && CleanNames(d) && CleanNetworks(r, d.namespaces)
    ensures PodmanSettled(d, t, al, h, Probe(Ended(d, t, plan, probed, al, cur[h], key, h, r), d.namespaces))
  {
    hide AllActions, Ended, WgConfig.ParseConfig, ApplyNetworks, GoodNetwork, FirewallHash, SameNetwork, Sort, IsNode, Seen,
         ParseNamespaces, NetworkReport, CleanNetworks, CleanNetwork;
    PodmanAfter(d, t, plan, cur, probed, al, key, h, r);
    SortMembers(d.namespaces);
    forall ns | ns in d.namespaces ensures Seen(cur[h], r.facts.podman.namespaces, ns) {
      ProbeSees(r, d.namespaces, ns);
    }
    var e := Ended(d, t, plan, probed, al, cur[h], key, h, r);
    forall ns | ns in d.namespaces ensures GoodNetwork(e.facts.podman.namespaces, al, ns, h) {
      NetworksAfter(d, t, plan, cur, al, h, Sort(d.namespaces), r.facts.podman.namespaces, ns);
    }
    GoodIsClean(d, al, h, e);
    forall ns | ns in d.namespaces ensures GoodNetwork(Probe(e, d.namespaces).podman.namespaces, al, ns, h) {
      ProbeSees(e, d.namespaces, ns);
      GoodIsSeen(Probe(e, d.namespaces), e.facts.podman.namespaces, al, ns, h);
    }
  }

  /** Namespaces have names that can be printed and read back. */
  ghost predicate CleanNames(d: Desired) {
    "" !in d.namespaces && forall ns :: ns in d.namespaces ==> CleanField(ns) && Trimmed(ns)
  }

  lemma GoodIsClean(d: Desired, al: Allocation, h: string, r: Remote)
    requires CleanNames(d) && forall ns :: ns in d.namespaces ==> GoodNetwork(r.facts.podman.namespaces, al, ns, h)
    ensures CleanNetworks(r, d.namespaces)
  {
    hide CleanField, Trimmed;
  }

  lemma GoodIsSeen(s: ServerState, nets: Networks, al: Allocation, ns: string, h: string)
    requires Seen(s, nets, ns) && GoodNetwork(nets, al, ns, h)
    ensures GoodNetwork(s.podman.namespaces, al, ns, h)
  {
  }

  lemma CooldSettles(d: Desired, t: Texts, plan: seq<Action>, cur: MeshState, probed: MeshState, al: Allocation,
                     key: KeyPair, h: string, r: Remote)
    requires h in d.hosts && h in cur && cur[h] == Probe(r, d.namespaces) && plan == AllActions(d, t, cur, al, d.hosts)
    requires IsCooldNode(d, h)
    ensures CooldSettled(d, t, al, h, Probe(Ended(d, t, plan, probed, al, cur[h], key, h, r), d.namespaces))
  {
    hide AllActions, Ended, WgConfig.ParseConfig, ConfigHash, UnitHash, IsCooldNode;
    CooldAfter(d, t, plan, cur, probed, al, key, h, r);
  }

  // ----- the next allocation -----

  lemma SubnetOfAssigned(cur: MeshState, ns: string, h: string)
    ensures Has(AssignedSubnets(cur), ns, h) <==> h in cur && ns in cur[h].podman.namespaces && cur[h].podman.namespaces[ns].subnet.Some?
    ensures Has(AssignedSubnets(cur), ns, h) ==> AssignedSubnets(cur)[ns][h] == cur[h].podman.namespaces[ns].subnet.value
  {
  }

  /** Room in the container pool, or a pool that does not end at 255.255.255.255. */
  ghost predicate PoolSound(d: Desired) {
    d.containerPool.prefix <= d.containerPrefix <= 32 ==>
      Roomy(d.containerPool, d.containerPrefix, d.namespaces, d.nodes)
  }

  lemma PrefixIsValid(pool: Net, prefix: nat, existing: Subnets, namespaces: seq<string>, hosts: seq<string>)
    requires AllocateNamespaced(pool, prefix, existing, namespaces, hosts).Ok?
    ensures pool.prefix <= prefix <= 32
  {
  }

  /** Once every host holds what it was given, everyone is given the same again. */
  lemma MgmtStays(d: Desired, cur: MeshState, al: Allocation, cur': MeshState)
    requires AllocateMgmt(d.mgmtPool, AssignedMgmt(cur), d.hosts) == Result<map<string, U32>>.Ok(al.mgmt)
    requires forall h :: h in d.hosts ==> h in cur' && cur'[h].wg.mgmtIp == Some(MgmtOf(al, h))
    ensures AllocateMgmt(d.mgmtPool, AssignedMgmt(cur'), d.hosts) == Result<map<string, U32>>.Ok(al.mgmt)
  {
    AllocateMgmtExact(d.mgmtPool, AssignedMgmt(cur), d.hosts);
    hide AllocateMgmt;
    forall h | h in al.mgmt ensures h in AssignedMgmt(cur') && AssignedMgmt(cur')[h] == al.mgmt[h] {
      assert h in d.hosts;
    }
    MgmtIdempotent(d.mgmtPool, AssignedMgmt(cur), d.hosts, AssignedMgmt(cur'));
  }

  lemma SubnetsStay(d: Desired, cur: MeshState, al: Allocation, cur': MeshState)
    requires PoolSound(d)
    requires AllocateNamespaced(d.containerPool, d.containerPrefix, AssignedSubnets(cur), d.namespaces, d.nodes) ==
             Result<Subnets>.Ok(al.subnets)
    requires forall h :: h in d.nodes ==> h in cur && h in cur'
    requires forall h :: h in d.nodes && d.installPodman ==>
               forall ns :: ns in d.namespaces ==> GoodNetwork(cur'[h].podman.namespaces, al, ns, h)
    requires forall h :: h in d.nodes && !d.installPodman ==> cur'[h].podman.namespaces == cur[h].podman.namespaces
    ensures AllocateNamespaced(d.containerPool, d.containerPrefix, AssignedSubnets(cur'), d.namespaces, d.nodes) ==
            Result<Subnets>.Ok(al.subnets)
  {
    var pool, prefix, pairs := d.containerPool, d.containerPrefix, Pairs(d.namespaces, d.nodes);
    PrefixIsValid(pool, prefix, AssignedSubnets(cur), d.namespaces, d.nodes);
    if d.installPodman {
      hide AllocateNamespaced, AssignedSubnets, Pairs;
      NamespacedExact(pool, prefix, AssignedSubnets(cur), d.namespaces, d.nodes);
      forall p | p in pairs ensures Same(AssignedSubnets(cur'), al.subnets, p) {
        PairsAre(d.namespaces, d.nodes, p);
        SubnetOfAssigned(cur', p.0, p.1);
        assert Fitting(pool, prefix, al.subnets, p);
        assert GoodNetwork(cur'[p.1].podman.namespaces, al, p.0, p.1);
      }
      NamespacedIdempotent(pool, prefix, AssignedSubnets(cur), AssignedSubnets(cur'), d.namespaces, d.nodes, al.subnets);
    } else {
      hide Allocate, AssignedSubnets, Flatten, Pairs, Keys;
      forall p | p in pairs
        ensures Has(AssignedSubnets(cur), p.0, p.1) <==> Has(AssignedSubnets(cur'), p.0, p.1)
        ensures Has(AssignedSubnets(cur), p.0, p.1) ==> AssignedSubnets(cur)[p.0][p.1] == AssignedSubnets(cur')[p.0][p.1]
      {
        PairsAre(d.namespaces, d.nodes, p);
        SubnetOfAssigned(cur, p.0, p.1);
        SubnetOfAssigned(cur', p.0, p.1);
      }
      FlattenLocal(AssignedSubnets(cur), AssignedSubnets(cur'), pairs);
    }
  }

  // ----- the next plan -----

  /** Keys in a host's file that no other host has. */
  predicate HasStaleKey(d: Desired, cur: MeshState, h: string) {
    Difference(PeerKeys(StateOf(cur, h).wg.peers), DesiredKeys(d.hosts, cur, h)) != []
  }

  predicate Pinned(version: string) { version != "" && version != "nightly" && version != "latest" }

  lemma EmptySum3(a: seq<Action>, b: seq<Action>, c: seq<Action>)
    ensures a + b + c == [] <==> a == [] && b == [] && c == []
  {
  }

  lemma TunnelReplan(d: Desired, cur: MeshState, al: Allocation, h: string)
    requires h in cur && h in d.hosts
    requires cur[h].wg.installed && cur[h].wg.keysExist && cur[h].wg.active && !NeedsConfig(d, cur, al, h)
    ensures WireGuardActions(d, cur, al, h) == [] <==> !HasStaleKey(d, cur, h)
  {
    ConfigKept(d, cur, al, h);
    hide NeedsConfig, Difference, DesiredKeys, PeerKeys;
  }

  lemma {:induction false} NetworkReplan(al: Allocation, h: string, s: ServerState, nss: seq<string>)
    requires forall ns :: ns in nss ==> GoodNetwork(s.podman.namespaces, al, ns, h)
    ensures NetworkActions(s, al, h, nss) == []
  {
    if nss != [] {
      NetworkReplan(al, h, s, nss[..|nss| - 1]);
      assert GoodNetwork(s.podman.namespaces, al, nss[|nss| - 1], h);
    }
  }

  lemma PodmanReplan(d: Desired, t: Texts, cur: MeshState, al: Allocation, h: string)
    requires h in cur
    requires IsNode(d, h) ==> PodmanSettled(d, t, al, h, cur[h])
    ensures PodmanActions(d, t, cur, al, h) == []
  {
    hide FirewallDrift, GoodNetwork, NetworkActions;
    if IsNode(d, h) {
      SortMembers(d.namespaces);
      NetworkReplan(al, h, cur[h], Sort(d.namespaces));
    }
  }

  lemma CooldReplan(d: Desired, t: Texts, cur: MeshState, al: Allocation, h: string)
    requires h in cur
    requires IsCooldNode(d, h) ==> CooldSettled(d, t, al, h, cur[h])
    ensures CooldActions(d, t, cur, al, h) == [] <==>
            (IsCooldNode(d, h) ==> Pinned(d.corrosionVersion) && Pinned(d.cooldVersion))
  {
    hide ConfigHash, UnitHash;
  }

  // ----- the theorem -----

  /** All hosts answer, keys come in pairs, and the texts that go into the files are clean. */
  ghost predicate Ready(d: Desired, keys: string -> KeyPair, w: World) {
    && (forall h :: h in d.nodes ==> h in d.hosts)
    && CleanNames(d)
    && PoolSound(d)
    && forall h :: h in d.hosts ==>
         h in w && CleanRemote(w[h]) && CleanNetworks(w[h], d.namespaces) && CleanKey(keys(h)) && CleanLine(EndpointFor(d, h))
  }

  /** Enough addresses and blocks, a prefix inside the pool, and no name twice. */
  ghost predicate Allocatable(d: Desired) {
    && Distinct(d.hosts) && |d.hosts| <= |HostIps(d.mgmtPool)|
    && d.containerPool.prefix <= d.containerPrefix <= 32
    && Distinct(d.namespaces) && Distinct(Keys(Pairs(d.namespaces, d.nodes)))
    && |d.namespaces| * |d.nodes| <= Capacity(d.containerPool, d.containerPrefix)
  }

  /** The settings fit together. */
  ghost predicate Consistent(d: Desired, cur: MeshState) {
    && (d.nodes != [] && (d.defaultDeny || d.installCoold) ==> d.installPodman)
    && (d.nodes != [] && d.installPodman ==> d.namespaces != [])
    && (d.intent == Extend ==> d.newNodes != [] && forall h :: h in d.newNodes ==> h in d.nodes)
    && (d.intent == Upgrade && d.nodes != [] && !d.allowNightly ==> "nightly" !in {d.cooldVersion, d.corrosionVersion})
    && (d.defaultDeny ==> forall h :: h in d.nodes && h in cur ==> cur[h].podman.nftAvailable)
  }

  lemma CheckIff(d: Desired, cur: MeshState)
    ensures Check(d, cur).None? <==> Consistent(d, cur)
  {
  }

  /** Each refusal names what is wrong. */
  lemma RefusalMeans(d: Desired, cur: MeshState)
    requires Check(d, cur).Some?
    ensures match Check(d, cur).value
            case DefaultDenyNeedsPodman => d.nodes != [] && d.defaultDeny && !d.installPodman
            case CooldNeedsPodman => d.nodes != [] && d.installCoold && !d.installPodman
            case NoNamespace => d.nodes != [] && d.installPodman && d.namespaces == []
            case NoNewNodes => d.intent == Extend && d.newNodes == []
            case NewNodeUnknown => d.intent == Extend && exists h :: h in d.newNodes && h !in d.nodes
            case NightlyRefused => d.intent == Upgrade && !d.allowNightly && "nightly" in {d.cooldVersion, d.corrosionVersion}
            case NftMissing => d.defaultDeny && exists h :: h in d.nodes && h in cur && !cur[h].podman.nftAvailable
            case Allocating(_) => false
  {
  }

  /** A plan is made exactly when the settings are consistent and there is room, whatever the hosts
      claim. */
  lemma PlanSucceedsIff(d: Desired, t: Texts, cur: MeshState)
    requires PoolSound(d)
    ensures BuildPlan(d, t, cur).Ok? <==> Consistent(d, cur) && Allocatable(d)
  {
    hide Consistent, Check, AllActions, Distinct, HostIps, Pairs, Allocator.Assign, Allocator.Keep, AssignedMgmt, AssignedSubnets, Allocate, Flatten;
    CheckIff(d, cur);
    if Distinct(d.hosts) { AllocateMgmtExact(d.mgmtPool, AssignedMgmt(cur), d.hosts); }
    var pool, prefix, claims := d.containerPool, d.containerPrefix, AssignedSubnets(cur);
    if pool.prefix <= prefix <= 32 {
      NamespacedExact(pool, prefix, claims, d.namespaces, d.nodes);
    }
    if AllocateNamespaced(pool, prefix, claims, d.namespaces, d.nodes).Ok? {
      NamespacedNeeds(pool, prefix, claims, d.namespaces, d.nodes);
    }
  }

  lemma NamespacedNeeds(pool: Net, prefix: nat, existing: Subnets, namespaces: seq<string>, hosts: seq<string>)
    requires AllocateNamespaced(pool, prefix, existing, namespaces, hosts).Ok?
    ensures pool.prefix <= prefix <= 32 && Distinct(namespaces) && Distinct(Keys(Pairs(namespaces, hosts)))
  {
    hide Pairs, Flatten, Allocator.Assign;
  }

  lemma ProbedAgain(d: Desired, plan: seq<Action>, keys: string -> KeyPair, w: World)
    requires forall h :: h in d.hosts ==> h in w
    ensures var cur := Reconstruct(w, d.hosts, d.namespaces);
            AllocateMesh(d, Reconstruct(AfterPhase1(d, plan, cur, keys, w), d.hosts, d.namespaces)) == AllocateMesh(d, cur)
  {
    hide WgConfig.ParseConfig, ParseNamespaces, ShouldRun, AllocateNamespaced, AllocateMgmt, AssignedSubnets, AssignedMgmt, Phase1;
    var cur := Reconstruct(w, d.hosts, d.namespaces);
    var probed := Reconstruct(AfterPhase1(d, plan, cur, keys, w), d.hosts, d.namespaces);
    assert probed.Keys == cur.Keys;
    forall h | h in cur ensures probed[h].wg.mgmtIp == cur[h].wg.mgmtIp && probed[h].podman.namespaces == cur[h].podman.namespaces {
      Phase1Keeps(d, plan, cur[h], keys(h), h, w[h]);
    }
    AssignedLocal(probed, cur);
  }

  lemma Phase1Keeps(d: Desired, plan: seq<Action>, st: ServerState, key: KeyPair, h: string, r: Remote)
    ensures var r' := Phase1(d, plan, st, key, h, r);
            var s, s' := Probe(r, d.namespaces), Probe(r', d.namespaces);
            s'.wg.mgmtIp == s.wg.mgmtIp && s'.podman.namespaces == s.podman.namespaces
  {
    hide WgConfig.ParseConfig, ParseNamespaces, ShouldRun;
  }

  ghost predicate SameClaims(a: MeshState, b: MeshState) {
    a.Keys == b.Keys && forall h :: h in a ==> a[h].wg.mgmtIp == b[h].wg.mgmtIp && a[h].podman.namespaces == b[h].podman.namespaces
  }

  lemma AssignedLocal(a: MeshState, b: MeshState)
    requires SameClaims(a, b)
    ensures AssignedMgmt(a) == AssignedMgmt(b) && AssignedSubnets(a) == AssignedSubnets(b)
  {
    hide SubnetsIn;
    SeenLocal(a, b);
    forall ns ensures SubnetsIn(a, ns) == SubnetsIn(b, ns) {
      SubnetsLocal(a, b, ns);
    }
  }

  lemma SeenLocal(a: MeshState, b: MeshState)
    requires SameClaims(a, b)
    ensures SeenNamespaces(a) == SeenNamespaces(b)
  {
  }

  lemma SubnetsLocal(a: MeshState, b: MeshState, ns: string)
    requires SameClaims(a, b)
    ensures SubnetsIn(a, ns) == SubnetsIn(b, ns)
  {
  }

  lemma ProbedHost(d: Desired, t: Texts, cur: MeshState, al: Allocation, keys: string -> KeyPair, w: World, h: string)
    requires forall h :: h in d.hosts ==> h in w
    requires cur == Reconstruct(w, d.hosts, d.namespaces) && h in d.hosts
    ensures var plan := AllActions(d, t, cur, al, d.hosts);
            var probed := Reconstruct(AfterPhase1(d, plan, cur, keys, w), d.hosts, d.namespaces);
            h in probed && probed[h].wg.active == cur[h].wg.active && probed[h].wg.publicKey == NewKey(cur[h], keys(h))
  {
    TunnelSteps(d, t, cur, al, h, AllActions(d, t, cur, al, d.hosts));
    hide WgConfig.ParseConfig, ParseNamespaces, ShouldRun, AllActions, NeedsConfig;
  }

  lemma EndedHost(d: Desired, t: Texts, plan: seq<Action>, cur: MeshState, probed: MeshState, al: Allocation,
                  keys: string -> KeyPair, w: World, h: string)
    requires h in d.hosts && h in w && h in cur
    ensures var w' := AfterPhase3(d, t, plan, al, AfterPhase2(d, t, plan, probed, al, AfterPhase1(d, plan, cur, keys, w)));
            var e := Ended(d, t, plan, probed, al, cur[h], keys(h), h, w[h]);
            h in Reconstruct(w', d.hosts, d.namespaces) && Reconstruct(w', d.hosts, d.namespaces)[h] == Probe(e, d.namespaces)
  {
    hide Phase1, Phase2, Phase3, Probe;
  }

  lemma UntouchedAfter(d: Desired, t: Texts, plan: seq<Action>, probed: MeshState, al: Allocation,
                       st: ServerState, key: KeyPair, h: string, r: Remote)
    ensures var e := Ended(d, t, plan, probed, al, st, key, h, r);
            && (!IsNode(d, h) ==> Probe(e, d.namespaces).podman.namespaces == Probe(r, d.namespaces).podman.namespaces)
            && (Probe(r, d.namespaces).podman.nftAvailable ==> Probe(e, d.namespaces).podman.nftAvailable)
  {
    hide ShouldRun, ParseNamespaces, WgConfig.ParseConfig, WgConfig.RenderConfig, PeersFor, ApplyNetworks, FirewallHash, ConfigHash, UnitHash;
  }

  /** `cur'` is what a probe reports once the plan made from `cur` has been applied. */
  ghost predicate Settled(d: Desired, t: Texts, cur: MeshState, probed: MeshState, al: Allocation,
                          keys: string -> KeyPair, cur': MeshState, h: string)
  {
    && h in cur && h in cur'
    && TunnelSettled(d, cur, probed, al, keys(h), h, cur'[h])
    && (if IsNode(d, h) then PodmanSettled(d, t, al, h, cur'[h]) else cur'[h].podman.namespaces == cur[h].podman.namespaces)
    && (IsCooldNode(d, h) ==> CooldSettled(d, t, al, h, cur'[h]))
    && (cur[h].podman.nftAvailable ==> cur'[h].podman.nftAvailable)
  }

  lemma AllSettle(d: Desired, t: Texts, cur: MeshState, al: Allocation, keys: string -> KeyPair, w: World, h: string,
                  plan: seq<Action>, probed: MeshState, cur': MeshState)
    requires Ready(d, keys, w) && h in d.hosts
    requires cur == Reconstruct(w, d.hosts, d.namespaces) && plan == AllActions(d, t, cur, al, d.hosts)
    requires probed == Reconstruct(AfterPhase1(d, plan, cur, keys, w), d.hosts, d.namespaces)
    requires cur' == Reconstruct(AfterPhase3(d, t, plan, al, AfterPhase2(d, t, plan, probed, al, AfterPhase1(d, plan, cur, keys, w))), d.hosts, d.namespaces)
    ensures Settled(d, t, cur, probed, al, keys, cur', h)
  {
    hide AllActions, AfterPhase1, AfterPhase2, AfterPhase3, Ended, Probe, TunnelSettled, PodmanSettled, CooldSettled,
         CleanLine, PoolSound, EndpointFor;
    EndedHost(d, t, plan, cur, probed, al, keys, w, h);
    forall p | p in d.hosts ensures p in probed && CleanLine(probed[p].wg.publicKey) && CleanLine(EndpointFor(d, p)) {
      ProbedHost(d, t, cur, al, keys, w, p);
      ProbeKeepsKey(w[p], d.namespaces);
    }
    ProbedHost(d, t, cur, al, keys, w, h);
    TunnelSettles(d, t, plan, cur, probed, al, keys(h), h, w[h]);
    if IsNode(d, h) {
      PodmanSettles(d, t, plan, cur, probed, al, keys(h), h, w[h]);
    }
    if IsCooldNode(d, h) {
      CooldSettles(d, t, plan, cur, probed, al, keys(h), h, w[h]);
    }
    UntouchedAfter(d, t, plan, probed, al, cur[h], keys(h), h, w[h]);
  }

  lemma ProbeKeepsKey(r: Remote, nss: seq<string>)
    ensures Probe(r, nss).wg.publicKey == r.facts.wg.publicKey && Probe(r, nss).wg.keysExist == r.facts.wg.keysExist
  {
    hide WgConfig.ParseConfig, ParseNamespaces;
  }

  lemma NoNeedAgain(d: Desired, t: Texts, cur: MeshState, probed: MeshState, al: Allocation, keys: string -> KeyPair,
                    cur': MeshState, h: string)
    requires h in d.hosts
    requires forall p :: p in d.hosts ==> Settled(d, t, cur, probed, al, keys, cur', p)
    requires forall p :: p in d.hosts ==> p in cur && p in probed && probed[p].wg.publicKey == NewKey(cur[p], keys(p))
    requires forall p :: p in d.hosts ==> (cur[p].wg.keysExist <==> cur[p].wg.publicKey != "") && keys(p).publicKey != ""
    ensures !NeedsConfig(d, cur', al, h)
    ensures HasStaleKey(d, cur', h) <==> !NeedsConfig(d, cur, al, h) && HasStaleKey(d, cur, h)
  {
    hide PodmanSettled, CooldSettled, Difference, DesiredKeys, PeerKeys;
    var want, have := DesiredKeys(d.hosts, cur', h), PeerKeys(cur'[h].wg.peers);
    assert !KeyPending(d.hosts, cur', h);
    assert Settled(d, t, cur, probed, al, keys, cur', h);
    if NeedsConfig(d, cur, al, h) {
      KeysAgree(d.hosts, probed, cur', h);
      SelfDifference(want);
    } else {
      ConfigKept(d, cur, al, h);
      KeysAgree(d.hosts, cur, cur', h);
    }
  }

  lemma SelfDifference(s: seq<string>)
    ensures Difference(s, s) == []
  {
    SomeMember(Difference(s, s));
  }

  lemma SomeMember(s: seq<string>)
    ensures s == [] || exists k :: k in s
  {
    if s != [] {
      assert s[0] in s;
    }
  }

  lemma {:induction false} AllEmpty(d: Desired, t: Texts, cur: MeshState, al: Allocation, hosts: seq<string>)
    ensures AllActions(d, t, cur, al, hosts) == [] <==> forall h :: h in hosts ==> HostActions(d, t, cur, al, h) == []
  {
    hide HostActions;
    if hosts != [] {
      var front, g := hosts[..|hosts| - 1], hosts[|hosts| - 1];
      assert hosts == front + [g];
      AllEmpty(d, t, cur, al, front);
    }
  }

  /** What keeps the second plan from being empty, in terms of the first probe: a host that needed
      no new file yet holds a key nobody has, or a version that is not pinned. */
  ghost predicate Unsettling(d: Desired, cur: MeshState, al: Allocation, h: string) {
    || (!NeedsConfig(d, cur, al, h) && HasStaleKey(d, cur, h))
    || (IsCooldNode(d, h) && !(Pinned(d.corrosionVersion) && Pinned(d.cooldVersion)))
  }

  lemma HostReplan(d: Desired, t: Texts, cur: MeshState, probed: MeshState, al: Allocation, keys: string -> KeyPair,
                   cur': MeshState, h: string)
    requires h in d.hosts
    requires forall p :: p in d.hosts ==> Settled(d, t, cur, probed, al, keys, cur', p)
    requires forall p :: p in d.hosts ==> p in cur && p in probed && probed[p].wg.publicKey == NewKey(cur[p], keys(p))
    requires forall p :: p in d.hosts ==> (cur[p].wg.keysExist <==> cur[p].wg.publicKey != "") && keys(p).publicKey != ""
    ensures HostActions(d, t, cur', al, h) == [] <==> !Unsettling(d, cur, al, h)
  {
    assert Settled(d, t, cur, probed, al, keys, cur', h);
    NoNeedAgain(d, t, cur, probed, al, keys, cur', h);
    hide WireGuardActions, PodmanActions, CooldActions, NeedsConfig, HasStaleKey, PodmanSettled, CooldSettled;
    TunnelReplan(d, cur', al, h);
    PodmanReplan(d, t, cur', al, h);
    CooldReplan(d, t, cur', al, h);
    EmptySum3(WireGuardActions(d, cur', al, h), PodmanActions(d, t, cur', al, h), CooldActions(d, t, cur', al, h));
  }

  lemma AllocationStays(d: Desired, t: Texts, cur: MeshState, probed: MeshState, al: Allocation, keys: string -> KeyPair,
                        cur': MeshState)
    requires PoolSound(d) && forall h :: h in d.nodes ==> h in d.hosts
    requires AllocateMesh(d, cur) == Result<Allocation>.Ok(al)
    requires forall p :: p in d.hosts ==> Settled(d, t, cur, probed, al, keys, cur', p)
    ensures AllocateMesh(d, cur') == Result<Allocation>.Ok(al)
  {
    hide AllocateMgmt, AllocateNamespaced, AssignedMgmt, AssignedSubnets, CooldSettled, GoodNetwork, PoolSound, FirewallDrift;
    forall h | h in d.hosts ensures h in cur' && cur'[h].wg.mgmtIp == Some(MgmtOf(al, h)) {
      assert Settled(d, t, cur, probed, al, keys, cur', h);
    }
    MgmtStays(d, cur, al, cur');
    forall h | h in d.nodes
      ensures h in cur && h in cur'
      ensures !d.installPodman ==> cur'[h].podman.namespaces == cur[h].podman.namespaces
      ensures d.installPodman ==> forall ns :: ns in d.namespaces ==> GoodNetwork(cur'[h].podman.namespaces, al, ns, h)
    {
      assert Settled(d, t, cur, probed, al, keys, cur', h);
    }
    SubnetsStay(d, cur, al, cur');
  }

  lemma CheckStays(d: Desired, t: Texts, cur: MeshState, probed: MeshState, al: Allocation, keys: string -> KeyPair,
                   cur': MeshState)
    requires forall h :: h in d.nodes ==> h in d.hosts
    requires Check(d, cur).None?
    requires forall p :: p in d.hosts ==> Settled(d, t, cur, probed, al, keys, cur', p)
    ensures Check(d, cur').None?
  {
    hide TunnelSettled, PodmanSettled, CooldSettled;
    forall h | h in d.nodes ensures h in cur && h in cur' && (cur[h].podman.nftAvailable ==> cur'[h].podman.nftAvailable) {
      assert Settled(d, t, cur, probed, al, keys, cur', h);
    }
  }

  /** After a bootstrap in which every step succeeds, planning again finds nothing to do exactly
      when no host is unsettling, which the first probe already shows. */
  lemma Converges(d: Desired, t: Texts, keys: string -> KeyPair, w: World)
    requires d.intent == Bootstrap && Ready(d, keys, w)
    requires BuildPlan(d, t, Reconstruct(w, d.hosts, d.namespaces)).Ok?
    ensures ApplyMesh(d, t, keys, w).Done?
    ensures var cur := Reconstruct(w, d.hosts, d.namespaces);
            var al := BuildPlan(d, t, cur).plan.al;
            var again := BuildPlan(d, t, Reconstruct(ApplyMesh(d, t, keys, w).world, d.hosts, d.namespaces));
            && again.Ok? && again.plan.al == al
            && (again.plan.actions == [] <==> forall h :: h in d.hosts ==> !Unsettling(d, cur, al, h))
  {
    hide Check, AllocateMesh, AllActions, AfterPhase1, AfterPhase2, AfterPhase3, Settled, Unsettling, PoolSound, CleanLine,
         EndpointFor, Probe;
    var cur := Reconstruct(w, d.hosts, d.namespaces);
    var al, plan := BuildPlan(d, t, cur).plan.al, BuildPlan(d, t, cur).plan.actions;
    assert plan == AllActions(d, t, cur, al, d.hosts);
    ProbedAgain(d, plan, keys, w);
    var w1 := AfterPhase1(d, plan, cur, keys, w);
    var probed := Reconstruct(w1, d.hosts, d.namespaces);
    var cur' := Reconstruct(AfterPhase3(d, t, plan, al, AfterPhase2(d, t, plan, probed, al, w1)), d.hosts, d.namespaces);
    forall h | h in d.hosts ensures Settled(d, t, cur, probed, al, keys, cur', h) {
      AllSettle(d, t, cur, al, keys, w, h, plan, probed, cur');
    }
    forall h | h in d.hosts
      ensures h in cur && h in probed && probed[h].wg.publicKey == NewKey(cur[h], keys(h))
      ensures (cur[h].wg.keysExist <==> cur[h].wg.publicKey != "") && keys(h).publicKey != ""
    {
      ProbedHost(d, t, cur, al, keys, w, h);
      ProbeKeepsKey(w[h], d.namespaces);
    }
    CheckStays(d, t, cur, probed, al, keys, cur');
    AllocationStays(d, t, cur, probed, al, keys, cur');
    AllEmpty(d, t, cur', al, d.hosts);
    forall h | h in d.hosts ensures HostActions(d, t, cur', al, h) == [] <==> !Unsettling(d, cur, al, h) {
      HostReplan(d, t, cur, probed, al, keys, cur', h);
    }
  }
}
