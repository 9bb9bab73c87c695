/**
 What a plan says about a host, in terms of the values a probe reports and the values that are
 wanted: which steps it holds, when it holds none, and what applying it leaves behind.
 */
module PlanMeaning {
  import opened Ipv4
  import opened Ordering
  import opened Text
  import opened Subnet
  import opened Mesh
  import opened Intent
  import opened NamespaceProbe
  import opened Apply
  import opened PlanRuns
  import opened Convergence
  import WgConfig

  /** The plan holds a step of this kind for the host. */
  ghost predicate Holds(plan: seq<Action>, h: string, k: Kind) {
    exists i :: 0 <= i < |plan| && plan[i].host == h && plan[i].kind == k
  }

  ghost predicate HoldsFor(plan: seq<Action>, h: string, k: Kind, ns: string) {
    exists i :: 0 <= i < |plan| && plan[i].host == h && plan[i].kind == k && plan[i].namespace == ns
  }

  lemma HoldsIsRun(plan: seq<Action>, h: string, k: Kind)
    ensures Holds(plan, h, k) <==> ShouldRun(plan, h, k, "")
  {
    assert forall i :: 0 <= i < |plan| ==> (Matches(plan[i], h, k, "") <==> plan[i].host == h && plan[i].kind == k);
  }

  lemma HoldsForIsRun(plan: seq<Action>, h: string, k: Kind, ns: string)
    requires ns != ""
    ensures HoldsFor(plan, h, k, ns) <==> ShouldRun(plan, h, k, ns)
  {
    assert forall i :: 0 <= i < |plan| ==>
                         (Matches(plan[i], h, k, ns) <==> plan[i].host == h && plan[i].kind == k && plan[i].namespace == ns);
  }

  // ----- the wanted values -----

  /** The subnet of each namespace, in the order of the names. */
  ghost predicate Listed(d: Desired, al: Allocation, h: string, nets: seq<(string, Net)>) {
    && |nets| == |d.namespaces| && (forall i, j :: 0 <= i < j < |nets| ==> !Less(nets[j].0, nets[i].0))
    && (forall ns :: ns in d.namespaces <==> exists i :: 0 <= i < |nets| && nets[i].0 == ns)
    && (forall i :: 0 <= i < |nets| ==> nets[i].1 == SubnetOf(al, nets[i].0, h))
  }

  /** A version that is installed and need not be installed again. */
  predicate Current(want: string, installed: bool, have: string) {
    installed && have == want && want != "" && want != "nightly" && want != "latest"
  }

  predicate FirewallRight(d: Desired, t: Texts, s: ServerState, nets: seq<(string, Net)>) {
    && s.podman.firewallActive && s.podman.defaultDenyActive == d.defaultDeny
    && s.podman.firewallHash == t.hash(t.firewallUnit(d.interface, nets, d.defaultDeny))
  }

  predicate NetworkRight(s: ServerState, ns: string, net: Net) {
    ns in s.podman.namespaces && s.podman.namespaces[ns] == NetworkState(true, Some(net), false, ns)
  }

  /** The gossip addresses are those of the other nodes. */
  ghost predicate Gossips(nodes: seq<string>, al: Allocation, self: string, peers: seq<U32>) {
    forall ip :: ip in peers <==> exists p :: p in nodes && p != self && p in al.mgmt && al.mgmt[p] == ip
  }

  predicate ConfigRight(d: Desired, t: Texts, al: Allocation, h: string, s: ServerState, peers: seq<U32>) {
    s.services.corrosionConfigHash == t.hash(t.corrosionConfig(MgmtOf(al, h), d.gossipPort, d.apiPort, peers, d.gossipTls))
  }

  predicate UnitRight(d: Desired, t: Texts, al: Allocation, h: string, s: ServerState, nets: seq<(string, Net)>) {
    s.services.cooldUnitHash == t.hash(t.cooldUnit(MgmtOf(al, h), nets, d.fluxUrl))
  }

  /** The keys in the host's file are those of the other hosts, all of which are known. */
  ghost predicate PeersRight(d: Desired, cur: MeshState, h: string) {
    && (forall p :: p in d.hosts && p != h ==> p in cur && cur[p].wg.publicKey != "")
    && forall k :: InFile(StateOf(cur, h), k) <==> KeyOfOther(d, cur, h, k)
  }

  ghost predicate InFile(s: ServerState, k: string) { exists i :: 0 <= i < |s.wg.peers| && s.wg.peers[i].publicKey == k }

  ghost predicate KeyOfOther(d: Desired, cur: MeshState, h: string, k: string) {
    k != "" && exists p :: p in d.hosts && p != h && p in cur && cur[p].wg.publicKey == k
  }

  predicate AddressRight(d: Desired, al: Allocation, h: string, s: ServerState) {
    && s.wg.mgmtIp == Some(MgmtOf(al, h))
    && (|d.hosts| > 1 ==> s.wg.listenPort == if h in d.listenPorts then d.listenPorts[h] else d.listenPort)
  }

  // ----- the hashed texts are made from them -----

  lemma SubnetsListed(d: Desired, al: Allocation, h: string)
    requires Distinct(d.namespaces)
    ensures Listed(d, al, h, HostSubnets(al, Sort(d.namespaces), h))
  {
    hide SubnetOf, Less, Sort;
    var nss := Sort(d.namespaces);
    var nets := HostSubnets(al, nss, h);
    SortMembers(d.namespaces);
    SortStrict(d.namespaces);
    assert forall i :: 0 <= i < |nets| ==> nets[i].0 == nss[i] && nets[i].1 == SubnetOf(al, nss[i], h);
    forall i, j | 0 <= i < j < |nets| ensures !Less(nets[j].0, nets[i].0) {
      LessTrichotomy(nss[i], nss[j]);
    }
    forall ns ensures ns in d.namespaces <==> exists i :: 0 <= i < |nets| && nets[i].0 == ns {
      NamedAt(nss, nets, ns);
    }
  }

  lemma NamedAt(nss: seq<string>, nets: seq<(string, Net)>, ns: string)
    requires |nets| == |nss| && forall i :: 0 <= i < |nets| ==> nets[i].0 == nss[i]
    ensures ns in nss <==> exists i :: 0 <= i < |nets| && nets[i].0 == ns
  {
    if ns in nss {
      var i :| 0 <= i < |nss| && nss[i] == ns;
      assert nets[i].0 == ns;
    }
  }

  lemma {:induction false} GossipsAre(nodes: seq<string>, al: Allocation, self: string)
    ensures Gossips(nodes, al, self, GossipPeers(nodes, al, self))
  {
    if nodes != [] {
      var front, p := nodes[..|nodes| - 1], nodes[|nodes| - 1];
      assert nodes == front + [p];
      GossipsAre(front, al, self);
    }
  }

  // ----- the steps of a host -----

  lemma TunnelMeans(d: Desired, t: Texts, cur: MeshState, al: Allocation, h: string, plan: seq<Action>)
    requires h in d.hosts && plan == AllActions(d, t, cur, al, d.hosts)
    ensures var s := StateOf(cur, h);
            && (Holds(plan, h, InstallWg) <==> !s.wg.installed)
            && (Holds(plan, h, GenKeyPair) <==> !s.wg.keysExist)
            && (Holds(plan, h, EnableService) <==> !s.wg.active)
  {
    hide ShouldRun, AllActions, NeedsConfig, Holds;
    TunnelSteps(d, t, cur, al, h, plan);
    HoldsIsRun(plan, h, InstallWg);
    HoldsIsRun(plan, h, GenKeyPair);
    HoldsIsRun(plan, h, EnableService);
  }

  ghost predicate MissingKey(d: Desired, cur: MeshState, h: string) {
    exists k :: KeyOfOther(d, cur, h, k) && !InFile(StateOf(cur, h), k)
  }

  ghost predicate UnknownKey(d: Desired, cur: MeshState, h: string) {
    exists p :: p in d.hosts && p != h && (p !in cur || cur[p].wg.publicKey == "")
  }

  lemma KeysInFile(s: ServerState, k: string)
    ensures k in PeerKeys(s.wg.peers) <==> InFile(s, k)
  {
    var keys := PeerKeys(s.wg.peers);
    if k in keys {
      var i :| 0 <= i < |keys| && keys[i] == k;
    }
    if InFile(s, k) {
      var i :| 0 <= i < |s.wg.peers| && s.wg.peers[i].publicKey == k;
      assert keys[i] == k;
    }
  }

  lemma MissingKeyIff(d: Desired, cur: MeshState, h: string)
    ensures Difference(DesiredKeys(d.hosts, cur, h), PeerKeys(StateOf(cur, h).wg.peers)) != [] <==> MissingKey(d, cur, h)
  {
    hide DesiredKeys, PeerKeys, Difference;
    var want, have := DesiredKeys(d.hosts, cur, h), PeerKeys(StateOf(cur, h).wg.peers);
    var diff := Difference(want, have);
    forall k ensures k in diff <==> KeyOfOther(d, cur, h, k) && !InFile(StateOf(cur, h), k) {
      KeysInFile(StateOf(cur, h), k);
    }
    SomeMember(diff);
  }

  /** The file is rewritten exactly when something that goes into it is new: the packages, the host's
      key, its address or port, or a key of another host, known or still to come. The service is
      reloaded exactly when it runs and its file is rewritten. */
  lemma ConfigMeans(d: Desired, t: Texts, cur: MeshState, al: Allocation, h: string, plan: seq<Action>)
    requires h in d.hosts && plan == AllActions(d, t, cur, al, d.hosts)
    ensures Holds(plan, h, WriteConfig) <==>
            || Holds(plan, h, InstallWg) || Holds(plan, h, GenKeyPair)
            || !AddressRight(d, al, h, StateOf(cur, h)) || MissingKey(d, cur, h) || UnknownKey(d, cur, h)
    ensures Holds(plan, h, ReloadService) <==> StateOf(cur, h).wg.active && Holds(plan, h, WriteConfig)
  {
    hide ShouldRun, AllActions, Holds, DesiredKeys, PeerKeys, Difference, MissingKey, MgmtOf;
    TunnelMeans(d, t, cur, al, h, plan);
    TunnelSteps(d, t, cur, al, h, plan);
    StepRuns(d, t, cur, al, h, plan, ReloadService, "");
    HoldsIsRun(plan, h, WriteConfig);
    HoldsIsRun(plan, h, ReloadService);
    MissingKeyIff(d, cur, h);
  }

  lemma PodmanMeans(d: Desired, t: Texts, cur: MeshState, al: Allocation, h: string, plan: seq<Action>)
    requires h in d.hosts && IsNode(d, h) && plan == AllActions(d, t, cur, al, d.hosts)
    ensures var p := StateOf(cur, h).podman;
            && (Holds(plan, h, InstallPodman) <==> !p.podmanInstalled)
            && (Holds(plan, h, EnablePodmanSocket) <==> !p.podmanSocketActive)
            && (Holds(plan, h, EnableIpForward) <==> !p.ipForward)
            && (Holds(plan, h, InstallFirewall) <==> !FirewallRight(d, t, StateOf(cur, h), HostSubnets(al, Sort(d.namespaces), h)))
  {
    hide ShouldRun, AllActions, Holds, HostSubnets, Sort;
    PodmanSteps(d, t, cur, al, h, plan);
    HoldsIsRun(plan, h, InstallPodman);
    HoldsIsRun(plan, h, EnablePodmanSocket);
    HoldsIsRun(plan, h, EnableIpForward);
    HoldsIsRun(plan, h, InstallFirewall);
  }

  /** A network is created if it is not there, and recreated if it is there but not as wanted. */
  lemma NetworkMeans(d: Desired, t: Texts, cur: MeshState, al: Allocation, h: string, ns: string, plan: seq<Action>)
    requires h in d.hosts && IsNode(d, h) && plan == AllActions(d, t, cur, al, d.hosts) && ns in d.namespaces && ns != ""
    ensures var s, net := StateOf(cur, h), SubnetOf(al, ns, h);
            var there := ns in s.podman.namespaces && s.podman.namespaces[ns].present;
            && (HoldsFor(plan, h, CreateNetwork, ns) <==> !there)
            && (HoldsFor(plan, h, RecreateNetwork, ns) <==> there && !NetworkRight(s, ns, net))
  {
    hide ShouldRun, AllActions, HoldsFor, SubnetOf;
    NetworkSteps(d, t, cur, al, h, ns, plan);
    HoldsForIsRun(plan, h, CreateNetwork, ns);
    HoldsForIsRun(plan, h, RecreateNetwork, ns);
  }

  lemma ServiceInputsMean(d: Desired, t: Texts, cur: MeshState, al: Allocation, h: string, plan: seq<Action>)
    requires h in d.hosts && IsCooldNode(d, h) && plan == AllActions(d, t, cur, al, d.hosts)
    ensures var s := StateOf(cur, h);
            && (Holds(plan, h, InstallCorrosion) <==> !Current(d.corrosionVersion, s.services.corrosionInstalled, s.services.corrosionVersion))
            && (Holds(plan, h, InstallCoold) <==> !Current(d.cooldVersion, s.services.cooldInstalled, s.services.cooldVersion))
            && (Holds(plan, h, WriteCorrosionConfig) <==> !ConfigRight(d, t, al, h, s, GossipPeers(d.nodes, al, h)))
            && (Holds(plan, h, WriteCorrosionSchema) <==> !(s.services.schemaExists && s.services.schemaHash == t.hash(t.schema)))
  {
    hide ShouldRun, AllActions, Holds, CorrosionServiceDrift, CooldServiceDrift, GossipPeers, MgmtOf;
    CooldSteps(d, t, cur, al, h, plan);
    HoldsIsRun(plan, h, InstallCorrosion);
    HoldsIsRun(plan, h, InstallCoold);
    HoldsIsRun(plan, h, WriteCorrosionConfig);
    HoldsIsRun(plan, h, WriteCorrosionSchema);
  }

  /** A service is started again exactly when it is stopped or something it reads is replaced. */
  lemma ServicesFollow(d: Desired, t: Texts, cur: MeshState, al: Allocation, h: string, plan: seq<Action>)
    requires h in d.hosts && IsCooldNode(d, h) && plan == AllActions(d, t, cur, al, d.hosts)
    ensures var s := StateOf(cur, h);
            && (Holds(plan, h, InstallCorrosionService) <==>
                || !s.services.corrosionActive || Holds(plan, h, InstallCorrosion) || Holds(plan, h, WriteCorrosionConfig)
                || s.services.schemaHash != t.hash(t.schema))
            && (Holds(plan, h, InstallCooldService) <==>
                || !s.services.cooldActive || Holds(plan, h, InstallCoold) || Holds(plan, h, WriteCorrosionConfig)
                || !UnitRight(d, t, al, h, s, HostSubnets(al, Sort(d.namespaces), h)))
  {
    hide ShouldRun, AllActions, Holds, GossipPeers, MgmtOf, HostSubnets, Sort;
    ServiceInputsMean(d, t, cur, al, h, plan);
    CooldSteps(d, t, cur, al, h, plan);
    HoldsIsRun(plan, h, InstallCorrosionService);
    HoldsIsRun(plan, h, InstallCooldService);
  }

  // ----- single actions -----

  lemma WhenHas(b: bool, g: string, k: Kind, a: Action)
    ensures a in When(b, g, k) <==> b && a == Action(g, "", k, Plain)
  {
  }

  /** The tunnel's actions: peers by key, everything else plain. */
  lemma TunnelHas(d: Desired, cur: MeshState, al: Allocation, g: string, a: Action)
    ensures var s := StateOf(cur, g);
            var want, have := DesiredKeys(d.hosts, cur, g), PeerKeys(s.wg.peers);
            && (a in WireGuardActions(d, cur, al, g) ==> a.host == g && a.kind != WriteCorrosionSchema)
            && (a.kind == AddPeer ==> (a in WireGuardActions(d, cur, al, g) <==> a in KeyActions(g, AddPeer, Difference(want, have))))
            && (a.kind == RemovePeer ==> (a in WireGuardActions(d, cur, al, g) <==> a in KeyActions(g, RemovePeer, Difference(have, want))))
  {
    hide When, NeedsConfig, Difference, DesiredKeys, PeerKeys;
    var s := StateOf(cur, g);
    WhenHas(!s.wg.installed, g, InstallWg, a);
    WhenHas(!s.wg.keysExist, g, GenKeyPair, a);
    WhenHas(NeedsConfig(d, cur, al, g), g, WriteConfig, a);
    WhenHas(!s.wg.active, g, EnableService, a);
    WhenHas(s.wg.active && NeedsConfig(d, cur, al, g), g, ReloadService, a);
  }

  lemma PodmanHas(d: Desired, t: Texts, cur: MeshState, al: Allocation, g: string, a: Action)
    ensures a in PodmanActions(d, t, cur, al, g) ==> a.host == g && a.kind != AddPeer && a.kind != RemovePeer && a.kind != WriteCorrosionSchema
  {
    hide When, FirewallDrift, NetworkActions, Sort;
    var s := StateOf(cur, g);
    WhenHas(!s.podman.podmanInstalled, g, InstallPodman, a);
    WhenHas(!s.podman.podmanSocketActive, g, EnablePodmanSocket, a);
    WhenHas(!s.podman.ipForward, g, EnableIpForward, a);
    NetworkHosts(s, al, g, Sort(d.namespaces), a);
    WhenHas(FirewallDrift(d, t, s, al, g), g, InstallFirewall, a);
  }

  lemma CooldHas(d: Desired, t: Texts, cur: MeshState, al: Allocation, g: string, a: Action)
    ensures a in CooldActions(d, t, cur, al, g) ==> a.host == g && a.kind != AddPeer && a.kind != RemovePeer
    ensures a.kind == WriteCorrosionSchema ==>
              (a in CooldActions(d, t, cur, al, g) <==> IsCooldNode(d, g) && a in SchemaAction(t, StateOf(cur, g), g))
  {
    hide When, VersionDrift, CorrosionServiceDrift, CooldServiceDrift, ConfigHash;
    var s := StateOf(cur, g);
    WhenHas(VersionDrift(d.corrosionVersion, s.services.corrosionInstalled, s.services.corrosionVersion), g, InstallCorrosion, a);
    WhenHas(VersionDrift(d.cooldVersion, s.services.cooldInstalled, s.services.cooldVersion), g, InstallCoold, a);
    WhenHas(s.services.corrosionConfigHash != ConfigHash(d, t, al, g), g, WriteCorrosionConfig, a);
    WhenHas(CorrosionServiceDrift(d, t, s, al, g), g, InstallCorrosionService, a);
    WhenHas(CooldServiceDrift(d, t, s, al, g), g, InstallCooldService, a);
  }

  lemma OwnActions(d: Desired, t: Texts, cur: MeshState, al: Allocation, g: string, a: Action)
    ensures a in HostActions(d, t, cur, al, g) ==> a.host == g
    ensures a in HostActions(d, t, cur, al, g) <==>
            a in WireGuardActions(d, cur, al, g) || a in PodmanActions(d, t, cur, al, g) || a in CooldActions(d, t, cur, al, g)
  {
    hide WireGuardActions, PodmanActions, CooldActions;
    TunnelHas(d, cur, al, g, a);
    PodmanHas(d, t, cur, al, g, a);
    CooldHas(d, t, cur, al, g, a);
  }

  lemma {:induction false} NetworkHosts(s: ServerState, al: Allocation, g: string, nss: seq<string>, a: Action)
    ensures a in NetworkActions(s, al, g, nss) ==> a.host == g && (a.kind == CreateNetwork || a.kind == RecreateNetwork)
  {
    if nss != [] { NetworkHosts(s, al, g, nss[..|nss| - 1], a); }
  }

  lemma {:induction false} ActionsByHost(d: Desired, t: Texts, cur: MeshState, al: Allocation, hosts: seq<string>, a: Action)
    ensures a in AllActions(d, t, cur, al, hosts) <==> a.host in hosts && a in HostActions(d, t, cur, al, a.host)
  {
    hide HostActions;
    if hosts != [] {
      var front, g := hosts[..|hosts| - 1], hosts[|hosts| - 1];
      assert hosts == front + [g];
      ActionsByHost(d, t, cur, al, front, a);
      OwnActions(d, t, cur, al, g, a);
    }
  }

  lemma KeyAction(h: string, kind: Kind, keys: seq<string>, k: string)
    ensures Action(h, "", kind, PeerKey(k)) in KeyActions(h, kind, keys) <==> k in keys
  {
    var actions := KeyActions(h, kind, keys);
    if k in keys {
      var i :| 0 <= i < |keys| && keys[i] == k;
      assert actions[i] == Action(h, "", kind, PeerKey(k));
    }
    if Action(h, "", kind, PeerKey(k)) in actions {
      var i :| 0 <= i < |keys| && actions[i] == Action(h, "", kind, PeerKey(k));
      assert keys[i] == k;
    }
  }

  /** A peer is added for each key of another host that the file lacks, and removed for each key in the
      file that no other host has. */
  lemma PeersMean(d: Desired, t: Texts, cur: MeshState, al: Allocation, h: string, k: string)
    requires h in d.hosts
    ensures var plan, s := AllActions(d, t, cur, al, d.hosts), StateOf(cur, h);
            && (Action(h, "", AddPeer, PeerKey(k)) in plan <==> KeyOfOther(d, cur, h, k) && !InFile(s, k))
            && (Action(h, "", RemovePeer, PeerKey(k)) in plan <==> InFile(s, k) && !KeyOfOther(d, cur, h, k))
  {
    hide AllActions, HostActions, WireGuardActions, PodmanActions, CooldActions, Difference, DesiredKeys, PeerKeys, KeyActions, InFile;
    var s := StateOf(cur, h);
    var want, have := DesiredKeys(d.hosts, cur, h), PeerKeys(s.wg.peers);
    var add, remove := Action(h, "", AddPeer, PeerKey(k)), Action(h, "", RemovePeer, PeerKey(k));
    ActionsByHost(d, t, cur, al, d.hosts, add);
    ActionsByHost(d, t, cur, al, d.hosts, remove);
    OwnActions(d, t, cur, al, h, add);
    OwnActions(d, t, cur, al, h, remove);
    TunnelHas(d, cur, al, h, add);
    TunnelHas(d, cur, al, h, remove);
    PodmanHas(d, t, cur, al, h, add);
    PodmanHas(d, t, cur, al, h, remove);
    CooldHas(d, t, cur, al, h, add);
    CooldHas(d, t, cur, al, h, remove);
    KeyAction(h, AddPeer, Difference(want, have), k);
    KeyAction(h, RemovePeer, Difference(have, want), k);
    KeysInFile(s, k);
  }

  /** The database is reset exactly when another schema was there. */
  lemma ResetMeans(d: Desired, t: Texts, cur: MeshState, al: Allocation, h: string)
    requires h in d.hosts && IsCooldNode(d, h)
    ensures Action(h, "", WriteCorrosionSchema, DbReset) in AllActions(d, t, cur, al, d.hosts) <==>
            StateOf(cur, h).services.schemaHash != "" && StateOf(cur, h).services.schemaHash != t.hash(t.schema)
  {
    hide AllActions, HostActions, WireGuardActions, PodmanActions, CooldActions;
    var a := Action(h, "", WriteCorrosionSchema, DbReset);
    ActionsByHost(d, t, cur, al, d.hosts, a);
    OwnActions(d, t, cur, al, h, a);
    TunnelHas(d, cur, al, h, a);
    PodmanHas(d, t, cur, al, h, a);
    CooldHas(d, t, cur, al, h, a);
  }

  // ----- when there is nothing to do -----

  ghost predicate TunnelRight(d: Desired, cur: MeshState, al: Allocation, h: string) {
    var s := StateOf(cur, h);
    s.wg.installed && s.wg.keysExist && s.wg.active && AddressRight(d, al, h, s) && PeersRight(d, cur, h)
  }

  ghost predicate PodmanRight(d: Desired, t: Texts, al: Allocation, h: string, s: ServerState) {
    && s.podman.podmanInstalled && s.podman.podmanSocketActive && s.podman.ipForward
    && FirewallRight(d, t, s, HostSubnets(al, Sort(d.namespaces), h))
    && forall ns :: ns in d.namespaces ==> NetworkRight(s, ns, SubnetOf(al, ns, h))
  }

  /** Both services run, from the wanted files. */
  predicate FilesRight(d: Desired, t: Texts, al: Allocation, h: string, s: ServerState) {
    && ConfigRight(d, t, al, h, s, GossipPeers(d.nodes, al, h))
    && s.services.schemaExists && s.services.schemaHash == t.hash(t.schema)
    && UnitRight(d, t, al, h, s, HostSubnets(al, Sort(d.namespaces), h))
    && s.services.corrosionActive && s.services.cooldActive
  }

  predicate VersionsRight(d: Desired, s: ServerState) {
    && Current(d.corrosionVersion, s.services.corrosionInstalled, s.services.corrosionVersion)
    && Current(d.cooldVersion, s.services.cooldInstalled, s.services.cooldVersion)
  }

  lemma KeysEqualIff(d: Desired, cur: MeshState, h: string)
    ensures var want, have := DesiredKeys(d.hosts, cur, h), PeerKeys(StateOf(cur, h).wg.peers);
            Difference(want, have) == [] && Difference(have, want) == [] && !KeyPending(d.hosts, cur, h) <==> PeersRight(d, cur, h)
  {
    hide DesiredKeys, PeerKeys, Difference, InFile;
    var want, have := DesiredKeys(d.hosts, cur, h), PeerKeys(StateOf(cur, h).wg.peers);
    forall k ensures k in have <==> InFile(StateOf(cur, h), k) {
      KeysInFile(StateOf(cur, h), k);
    }
    forall k ensures k in want <==> KeyOfOther(d, cur, h, k) {
    }
    SomeMember(Difference(want, have));
    SomeMember(Difference(have, want));
  }

  lemma TunnelIdle(d: Desired, cur: MeshState, al: Allocation, h: string)
    ensures WireGuardActions(d, cur, al, h) == [] <==> TunnelRight(d, cur, al, h)
  {
    hide DesiredKeys, PeerKeys, Difference, KeyPending, PeersRight, MgmtOf;
    KeysEqualIff(d, cur, h);
  }

  lemma NetworkRightIff(s: ServerState, ns: string, net: Net)
    ensures NetworkRight(s, ns, net) <==> !MissingNetwork(s, ns) && !DriftedNetwork(s, ns, net)
  {
  }

  lemma {:induction false} NetworksIdle(s: ServerState, al: Allocation, h: string, nss: seq<string>)
    ensures NetworkActions(s, al, h, nss) == [] <==> forall ns :: ns in nss ==> NetworkRight(s, ns, SubnetOf(al, ns, h))
  {
    hide SubnetOf, NetworkRight, MissingNetwork, DriftedNetwork;
    if nss != [] {
      var front, last := nss[..|nss| - 1], nss[|nss| - 1];
      assert nss == front + [last];
      NetworksIdle(s, al, h, front);
      NetworkRightIff(s, last, SubnetOf(al, last, h));
      assert forall ns :: ns in nss <==> ns in front || ns == last;
    }
  }

  lemma PodmanIdle(d: Desired, t: Texts, cur: MeshState, al: Allocation, h: string)
    ensures PodmanActions(d, t, cur, al, h) == [] <==> (IsNode(d, h) ==> PodmanRight(d, t, al, h, StateOf(cur, h)))
  {
    hide NetworkActions, NetworkRight, HostSubnets, Sort, SubnetOf;
    SortMembers(d.namespaces);
    NetworksIdle(StateOf(cur, h), al, h, Sort(d.namespaces));
  }

  lemma ServicesIdle(d: Desired, t: Texts, cur: MeshState, al: Allocation, h: string)
    ensures CooldActions(d, t, cur, al, h) == [] <==>
            (IsCooldNode(d, h) ==> VersionsRight(d, StateOf(cur, h)) && FilesRight(d, t, al, h, StateOf(cur, h)))
  {
    hide HostSubnets, Sort, GossipPeers, MgmtOf;
  }

  /** There is nothing to do on a host if and only if every value it reports is the wanted one. */
  lemma NothingToDoIff(d: Desired, t: Texts, cur: MeshState, al: Allocation, h: string)
    ensures HostActions(d, t, cur, al, h) == [] <==>
            && TunnelRight(d, cur, al, h)
            && (IsNode(d, h) ==> PodmanRight(d, t, al, h, StateOf(cur, h)))
            && (IsCooldNode(d, h) ==> VersionsRight(d, StateOf(cur, h)) && FilesRight(d, t, al, h, StateOf(cur, h)))
  {
    hide WireGuardActions, PodmanActions, CooldActions, TunnelRight, PodmanRight, VersionsRight, FilesRight;
    TunnelIdle(d, cur, al, h);
    PodmanIdle(d, t, cur, al, h);
    ServicesIdle(d, t, cur, al, h);
    EmptySum3(WireGuardActions(d, cur, al, h), PodmanActions(d, t, cur, al, h), CooldActions(d, t, cur, al, h));
  }

  // ----- what applying leaves behind -----

  lemma SettledIsRight(d: Desired, t: Texts, cur: MeshState, probed: MeshState, al: Allocation,
                       keys: string -> KeyPair, cur': MeshState, h: string)
    requires Settled(d, t, cur, probed, al, keys, cur', h)
    ensures var s := cur'[h];
            && s.wg.installed && s.wg.keysExist && s.wg.active && AddressRight(d, al, h, s)
            && (IsNode(d, h) ==> PodmanRight(d, t, al, h, s))
            && (IsCooldNode(d, h) ==>
                  && FilesRight(d, t, al, h, s)
                  && s.services.corrosionInstalled && s.services.corrosionVersion == d.corrosionVersion
                  && s.services.cooldInstalled && s.services.cooldVersion == d.cooldVersion)
  {
    hide HostSubnets, Sort, GossipPeers, MgmtOf, SubnetOf, NeedsConfig, PeerKeys, DesiredKeys;
    assert IsNode(d, h) ==> forall ns :: ns in d.namespaces ==> GoodNetwork(cur'[h].podman.namespaces, al, ns, h);
  }

  /** After a run in which every step succeeds, a probe of every host reports the wanted values: the
      tunnel, and on a node the networks, the firewall and the services. */
  lemma AppliedIsRight(d: Desired, t: Texts, keys: string -> KeyPair, w: World, h: string)
    requires d.intent == Bootstrap && Ready(d, keys, w) && h in d.hosts
    requires BuildPlan(d, t, Reconstruct(w, d.hosts, d.namespaces)).Ok?
    ensures ApplyMesh(d, t, keys, w).Done? && h in ApplyMesh(d, t, keys, w).world
    ensures var al := BuildPlan(d, t, Reconstruct(w, d.hosts, d.namespaces)).plan.al;
            var s := Probe(ApplyMesh(d, t, keys, w).world[h], d.namespaces);
            && s.wg.installed && s.wg.keysExist && s.wg.active && AddressRight(d, al, h, s)
            && (IsNode(d, h) ==> PodmanRight(d, t, al, h, s))
            && (IsCooldNode(d, h) ==>
                  && FilesRight(d, t, al, h, s)
                  && s.services.corrosionInstalled && s.services.corrosionVersion == d.corrosionVersion
                  && s.services.cooldInstalled && s.services.cooldVersion == d.cooldVersion)
  {
    hide Ready, Check, AllocateMesh, AllActions, AfterPhase1, AfterPhase2, AfterPhase3, Settled, Probe, AddressRight, PodmanRight, FilesRight;
    var cur := Reconstruct(w, d.hosts, d.namespaces);
    var al, plan := BuildPlan(d, t, cur).plan.al, BuildPlan(d, t, cur).plan.actions;
    Converges(d, t, keys, w);
    ReadyHosts(d, keys, w);
    ProbedAgain(d, plan, keys, w);
    var w1 := AfterPhase1(d, plan, cur, keys, w);
    var probed := Reconstruct(w1, d.hosts, d.namespaces);
    var world := AfterPhase3(d, t, plan, al, AfterPhase2(d, t, plan, probed, al, w1));
    var cur' := Reconstruct(world, d.hosts, d.namespaces);
    AllSettle(d, t, cur, al, keys, w, h, plan, probed, cur');
    SettledIsProbed(d, t, cur, probed, al, keys, cur', h);
    SettledIsRight(d, t, cur, probed, al, keys, cur', h);
  }

  lemma ReadyHosts(d: Desired, keys: string -> KeyPair, w: World)
    requires Ready(d, keys, w)
    ensures forall h :: h in d.hosts ==> h in w
  {
  }

  lemma SettledIsProbed(d: Desired, t: Texts, cur: MeshState, probed: MeshState, al: Allocation,
                        keys: string -> KeyPair, cur': MeshState, h: string)
    requires Settled(d, t, cur, probed, al, keys, cur', h)
    ensures h in cur'
  {
  }
}
