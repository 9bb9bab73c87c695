/**
 Applying a plan (`coolify-cli/src/wireguard/apply.rs`). A remote host is the facts a probe can
 see, its private key, and the text of its WireGuard file; a probe has to parse that file and what
 the host prints about its networks. Each remote command is its effect on that record; the hosts of one phase do not share any state.
 */
module Apply {
  import opened Ipv4
  import opened Ordering
  import opened Text
  import opened Subnet
  import opened Mesh
  import opened Intent
  import opened NamespaceProbe
  import WgConfig

  /** The address, port and peers of `facts` are not read: a probe takes them from `config`. */
  datatype Remote = Remote(facts: ServerState, privateKey: string, config: string)

  datatype KeyPair = KeyPair(privateKey: string, publicKey: string)

  type World = map<string, Remote>

  /** What the host prints about the networks of these namespaces. */
  function NetworkReport(r: Remote, nss: seq<string>): string { Unlines(NetworkLines(r.facts.podman.namespaces, nss)) }

  /** The WireGuard file and the network report are read as text. */
  function Probe(r: Remote, nss: seq<string>): ServerState {
    var c := WgConfig.ParseConfig(r.config);
    r.facts.(wg := r.facts.wg.(mgmtIp := c.ip, listenPort := c.listenPort, peers := c.peers),
             podman := r.facts.podman.(namespaces := ParseNamespaces(NetworkReport(r, nss), nss)))
  }

  function Reconstruct(w: World, hosts: seq<string>, nss: seq<string>): MeshState {
    map h | h in hosts && h in w :: Probe(w[h], nss)
  }

  predicate ShouldRun(actions: seq<Action>, h: string, kind: Kind, ns: string) {
    exists i :: 0 <= i < |actions| && Matches(actions[i], h, kind, ns)
  }

  predicate Matches(a: Action, h: string, kind: Kind, ns: string) {
    a.host == h && a.kind == kind && (ns == "" || a.namespace == ns)
  }

  // ----- phase 1: packages and keys -----

  function Phase1(d: Desired, plan: seq<Action>, st: ServerState, key: KeyPair, h: string, r: Remote): Remote {
    var wg := !st.wg.installed && ShouldRun(plan, h, InstallWg, "");
    var gen := !st.wg.keysExist && ShouldRun(plan, h, GenKeyPair, "");
    var node := h in d.nodes && d.installPodman;
    var podman := node && !st.podman.podmanInstalled && ShouldRun(plan, h, InstallPodman, "");
    var socket := node && !st.podman.podmanSocketActive && ShouldRun(plan, h, EnablePodmanSocket, "");
    var forward := node && !st.podman.ipForward && ShouldRun(plan, h, EnableIpForward, "");
    var f, p := r.facts.wg, r.facts.podman;
    Remote(
      r.facts.(
        wg := f.(installed := f.installed || wg,
                 keysExist := f.keysExist || gen,
                 publicKey := if gen then key.publicKey else f.publicKey),
        podman := p.(podmanInstalled := p.podmanInstalled || podman,
                     nftAvailable := p.nftAvailable || podman,
                     podmanSocketActive := p.podmanSocketActive || socket,
                     ipForward := p.ipForward || forward)),
      if gen then key.privateKey else r.privateKey,
      r.config)
  }

  // ----- phase 2: the tunnel, the networks and the firewall -----

  function PeersFor(d: Desired, probed: MeshState, al: Allocation, hosts: seq<string>, self: string): seq<WgConfig.PeerConfig> {
    if hosts == [] then []
    else
      var p := hosts[|hosts| - 1];
      PeersFor(d, probed, al, hosts[..|hosts| - 1], self) +
      (if p != self && p in probed && probed[p].wg.publicKey != "" then [PeerFor(d, probed, al, p)] else [])
  }

  function PeerFor(d: Desired, probed: MeshState, al: Allocation, p: string): WgConfig.PeerConfig
    requires p in probed
  {
    WgConfig.PeerConfig(EndpointFor(d, p), probed[p].wg.publicKey, MgmtOf(al, p),
                        if p in d.nodes then Nets(HostSubnets(al, Sort(d.namespaces), p)) else [])
  }

  function FreshNetwork(al: Allocation, ns: string, h: string): NetworkState {
    NetworkState(true, Some(SubnetOf(al, ns, h)), false, ns)
  }

  /** Creating a network that exists is skipped; recreating removes it first. */
  function ApplyNetwork(plan: seq<Action>, al: Allocation, h: string, ns: string, nets: map<string, NetworkState>)
    : map<string, NetworkState>
  {
    if ShouldRun(plan, h, RecreateNetwork, ns) then nets[ns := FreshNetwork(al, ns, h)]
    else if ShouldRun(plan, h, CreateNetwork, ns) && !(ns in nets && nets[ns].present) then
      nets[ns := FreshNetwork(al, ns, h)]
    else nets
  }

  function ApplyNetworks(plan: seq<Action>, al: Allocation, h: string, nss: seq<string>, nets: map<string, NetworkState>)
    : map<string, NetworkState>
  {
    if nss == [] then nets
    else ApplyNetwork(plan, al, h, nss[|nss| - 1], ApplyNetworks(plan, al, h, nss[..|nss| - 1], nets))
  }

  function Phase2(d: Desired, t: Texts, plan: seq<Action>, probed: MeshState, al: Allocation, h: string, r: Remote): Remote {
    var service := if StateOf(probed, h).wg.active then ReloadService else EnableService;
    var node := h in d.nodes && d.installPodman;
    var firewall := node && ShouldRun(plan, h, InstallFirewall, "");
    var f, p := r.facts.wg, r.facts.podman;
    Remote(
      r.facts.(
        wg := f.(active := f.active || ShouldRun(plan, h, service, "")),
        podman := p.(namespaces := if node then ApplyNetworks(plan, al, h, Sort(d.namespaces), p.namespaces) else p.namespaces,
                     firewallActive := p.firewallActive || firewall,
                     defaultDenyActive := if firewall then d.defaultDeny else p.defaultDenyActive,
                     firewallHash := if firewall then FirewallHash(d, t, al, h) else p.firewallHash)),
      r.privateKey,
      if ShouldRun(plan, h, WriteConfig, "") then
        WgConfig.RenderConfig(MgmtOf(al, h), ListenPortFor(d, h), r.privateKey, PeersFor(d, probed, al, d.hosts, h))
      else r.config)
  }

  // ----- phase 3: corrosion and coold -----

  function Phase3(d: Desired, t: Texts, plan: seq<Action>, al: Allocation, h: string, r: Remote): Remote {
    var corrosion := ShouldRun(plan, h, InstallCorrosion, "");
    var coold := ShouldRun(plan, h, InstallCoold, "");
    var config := ShouldRun(plan, h, WriteCorrosionConfig, "");
    var schema := ShouldRun(plan, h, WriteCorrosionSchema, "");
    var unit := ShouldRun(plan, h, InstallCooldService, "");
    var f := r.facts.services;
    r.(facts := r.facts.(services := Services(
      corrosionInstalled := f.corrosionInstalled || corrosion,
      corrosionVersion := if corrosion then d.corrosionVersion else f.corrosionVersion,
      corrosionConfigHash := if config then ConfigHash(d, t, al, h) else f.corrosionConfigHash,
      schemaExists := f.schemaExists || schema,
      schemaHash := if schema then t.hash(t.schema) else f.schemaHash,
      corrosionActive := f.corrosionActive || ShouldRun(plan, h, InstallCorrosionService, ""),
      cooldInstalled := f.cooldInstalled || coold,
      cooldVersion := if coold then d.cooldVersion else f.cooldVersion,
      cooldActive := f.cooldActive || unit,
      cooldUnitHash := if unit then UnitHash(d, t, al, h) else f.cooldUnitHash)))
  }

  // ----- all phases -----

  datatype Applied = Done(world: World) | Aborted(error: PlanError)

  function AfterPhase1(d: Desired, plan: seq<Action>, cur: MeshState, keys: string -> KeyPair, w: World): World {
    map h | h in w :: if h in d.hosts then Phase1(d, plan, StateOf(cur, h), keys(h), h, w[h]) else w[h]
  }

  function AfterPhase2(d: Desired, t: Texts, plan: seq<Action>, probed: MeshState, al: Allocation, w: World): World {
    map h | h in w :: if h in d.hosts then Phase2(d, t, plan, probed, al, h, w[h]) else w[h]
  }

  function AfterPhase3(d: Desired, t: Texts, plan: seq<Action>, al: Allocation, w: World): World {
    map h | h in w :: if d.installCoold && h in d.nodes then Phase3(d, t, plan, al, h, w[h]) else w[h]
  }

  /** One successful run: plan from a probe, phase 1, probe and allocate again, phases 2 and 3. */
  function ApplyMesh(d: Desired, t: Texts, keys: string -> KeyPair, w: World): Applied {
    var cur := Reconstruct(w, d.hosts, d.namespaces);
    match BuildPlan(d, t, cur)
    case Failed(e) => Aborted(e)
    case Ok(plan) =>
      var w1 := AfterPhase1(d, plan.actions, cur, keys, w);
      var probed := Reconstruct(w1, d.hosts, d.namespaces);
      match AllocateMesh(d, probed)
      case Err(e) => Aborted(Allocating(e))
      case Ok(al) =>
        Done(AfterPhase3(d, t, plan.actions, al, AfterPhase2(d, t, plan.actions, probed, al, w1)))
  }
}
