/**
 The mesh planner: probed state, desired state, and the actions that lead from one to the other
 (`coolify-cli/src/wireguard/state.rs`, `coolify-cli/src/wireguard/plan.rs`).
 */
module Mesh {
  import opened Ipv4
  import opened Ordering
  import opened Text
  import opened Subnet
  import WgConfig

  // ----- state -----

  datatype NetworkState = NetworkState(present: bool, subnet: Option<Net>, dnsEnabled: bool, name: string)

  datatype Tunnel = Tunnel(
    installed: bool,
    keysExist: bool,
    publicKey: string,
    mgmtIp: Option<U32>,
    listenPort: nat,
    active: bool,
    peers: seq<WgConfig.Peer>)

  datatype Podman = Podman(
    podmanInstalled: bool,
    podmanSocketActive: bool,
    ipForward: bool,
    namespaces: map<string, NetworkState>,
    nftAvailable: bool,
    firewallActive: bool,
    defaultDenyActive: bool,
    firewallHash: string)

  datatype Services = Services(
    corrosionInstalled: bool,
    corrosionVersion: string,
    corrosionConfigHash: string,
    schemaExists: bool,
    schemaHash: string,
    corrosionActive: bool,
    cooldInstalled: bool,
    cooldVersion: string,
    cooldActive: bool,
    cooldUnitHash: string)

  /** What a probe reports about one host. Hashes are empty when the file is missing. */
  datatype ServerState = ServerState(wg: Tunnel, podman: Podman, services: Services)

  const UNPROBED := ServerState(
    Tunnel(false, false, "", None, 0, false, []),
    Podman(false, false, false, map[], false, false, false, ""),
    Services(false, "", "", false, "", false, false, "", false, ""))

  type MeshState = map<string, ServerState>

  function StateOf(cur: MeshState, h: string): ServerState {
    if h in cur then cur[h] else UNPROBED
  }

  function AssignedMgmt(cur: MeshState): map<string, U32> {
    map h | h in cur && cur[h].wg.mgmtIp.Some? :: cur[h].wg.mgmtIp.value
  }

  function SeenNamespaces(cur: MeshState): set<string> {
    set h, ns | h in cur && ns in cur[h].podman.namespaces :: ns
  }

  function SubnetsIn(cur: MeshState, ns: string): map<string, Net> {
    map h | h in cur && ns in cur[h].podman.namespaces && cur[h].podman.namespaces[ns].subnet.Some? ::
      cur[h].podman.namespaces[ns].subnet.value
  }

  function AssignedSubnets(cur: MeshState): Subnets {
    map ns | ns in SeenNamespaces(cur) :: SubnetsIn(cur, ns)
  }

  datatype Intent = Bootstrap | Extend | Upgrade

  datatype Desired = Desired(
    hosts: seq<string>,
    nodes: seq<string>,
    interface: string,
    mgmtPool: Net,
    containerPool: Net,
    containerPrefix: nat,
    listenPort: WgConfig.U16,
    listenPorts: map<string, WgConfig.U16>,
    endpoints: map<string, string>,
    installPodman: bool,
    namespaces: seq<string>,
    defaultDeny: bool,
    installCoold: bool,
    cooldVersion: string,
    corrosionVersion: string,
    gossipPort: WgConfig.U16,
    apiPort: WgConfig.U16,
    gossipTls: bool,
    fluxUrl: Option<string>,
    intent: Intent,
    newNodes: seq<string>,
    allowReplace: bool,
    allowNightly: bool)

  function ListenPortFor(d: Desired, h: string): WgConfig.U16 {
    if h in d.listenPorts then d.listenPorts[h] else d.listenPort
  }

  function EndpointFor(d: Desired, h: string): string {
    if h in d.endpoints then d.endpoints[h]
    else match SplitOnce(h, ':') case None => h case Some((name, _)) => name
  }

  /** The generated texts and the hash, known only as functions of their inputs. */
  datatype Texts = Texts(
    hash: string -> string,
    firewallUnit: (string, seq<(string, Net)>, bool) -> string,
    corrosionConfig: (U32, int, int, seq<U32>, bool) -> string,
    cooldUnit: (U32, seq<(string, Net)>, Option<string>) -> string,
    schema: string)

  // ----- actions -----

  datatype Kind =
    | InstallWg | GenKeyPair | WriteConfig | EnableService | ReloadService | AddPeer | RemovePeer
    | InstallPodman | EnablePodmanSocket | EnableIpForward | CreateNetwork | RecreateNetwork | InstallFirewall
    | InstallCorrosion | InstallCoold | WriteCorrosionConfig | WriteCorrosionSchema
    | InstallCorrosionService | InstallCooldService

  /** What later code reads of an action's detail text: the schema write that wipes the database. */
  datatype Detail = Plain | PeerKey(key: string) | DbReset

  datatype Action = Action(host: string, namespace: string, kind: Kind, detail: Detail)

  datatype Allocation = Allocation(mgmt: map<string, U32>, subnets: Subnets)

  /** Allocations are total on the hosts they were made for, so the defaults are never used there. */
  function MgmtOf(al: Allocation, h: string): U32 {
    if h in al.mgmt then al.mgmt[h] else 0
  }

  function SubnetOf(al: Allocation, ns: string, h: string): Net {
    if Has(al.subnets, ns, h) then al.subnets[ns][h] else Net(0, 0)
  }

  function HostSubnets(al: Allocation, nss: seq<string>, h: string): (r: seq<(string, Net)>)
    ensures |r| == |nss|
  {
    seq(|nss|, i requires 0 <= i < |nss| => (nss[i], SubnetOf(al, nss[i], h)))
  }

  function Nets(s: seq<(string, Net)>): (r: seq<Net>)
    ensures |r| == |s|
  {
    seq(|s|, i requires 0 <= i < |s| => s[i].1)
  }

  // ----- keys -----

  function PeerKeys(peers: seq<WgConfig.Peer>): (r: seq<string>)
    ensures |r| == |peers|
    ensures forall i :: 0 <= i < |peers| ==> r[i] == peers[i].publicKey
  {
    seq(|peers|, i requires 0 <= i < |peers| => peers[i].publicKey)
  }

  /** The known public keys of the other hosts. */
  function DesiredKeys(hosts: seq<string>, cur: MeshState, self: string): (r: seq<string>)
    ensures forall k :: k in r <==> k != "" && exists p :: p in hosts && p != self && p in cur && cur[p].wg.publicKey == k
  {
    if hosts == [] then []
    else
      var front, p := hosts[..|hosts| - 1], hosts[|hosts| - 1];
      assert hosts == front + [p];
      DesiredKeys(front, cur, self) +
      (if p != self && p in cur && cur[p].wg.publicKey != "" then [cur[p].wg.publicKey] else [])
  }

  predicate KeyPending(hosts: seq<string>, cur: MeshState, self: string) {
    exists p :: p in hosts && p != self && (p !in cur || cur[p].wg.publicKey == "")
  }

  /** The difference of two `BTreeSet`s, in order. */
  function Difference(a: seq<string>, b: seq<string>): (r: seq<string>)
    ensures forall k :: k in r <==> k in a && k !in b
  {
    var s := Sort(a);
    SortMembers(a);
    Without(s, b)
  }

  function Without(s: seq<string>, b: seq<string>): (r: seq<string>)
    ensures forall k :: k in r <==> k in s && k !in b
  {
    if s == [] then []
    else
      var rest := Without(s[1..], b);
      assert s == [s[0]] + s[1..];
      if s[0] in b || s[0] in s[1..] then rest else [s[0]] + rest
  }

  function KeyActions(h: string, kind: Kind, keys: seq<string>): (r: seq<Action>)
    ensures |r| == |keys|
    ensures forall a :: a in r ==> a.host == h && a.kind == kind
  {
    seq(|keys|, i requires 0 <= i < |keys| => Action(h, "", kind, PeerKey(keys[i])))
  }

  // ----- the drift conditions -----

  predicate NeedsConfig(d: Desired, cur: MeshState, al: Allocation, h: string) {
    var s := StateOf(cur, h);
    || s.wg.mgmtIp != Some(MgmtOf(al, h))
    || Difference(DesiredKeys(d.hosts, cur, h), PeerKeys(s.wg.peers)) != []
    || KeyPending(d.hosts, cur, h)
    || !s.wg.keysExist
    || !s.wg.installed
    || (|d.hosts| > 1 && s.wg.listenPort != ListenPortFor(d, h))
  }

  predicate VersionDrift(want: string, installed: bool, have: string) {
    !installed || have == "" || want == "nightly" || want == "latest" || have != want
  }

  predicate MissingNetwork(s: ServerState, ns: string) {
    ns !in s.podman.namespaces || !s.podman.namespaces[ns].present
  }

  predicate DriftedNetwork(s: ServerState, ns: string, want: Net) {
    !MissingNetwork(s, ns) &&
    var n := s.podman.namespaces[ns];
    n.dnsEnabled || n.subnet != Some(want) || n.name != ns
  }

  function FirewallHash(d: Desired, t: Texts, al: Allocation, h: string): string {
    t.hash(t.firewallUnit(d.interface, HostSubnets(al, Sort(d.namespaces), h), d.defaultDeny))
  }

  predicate FirewallDrift(d: Desired, t: Texts, s: ServerState, al: Allocation, h: string) {
    !s.podman.firewallActive || s.podman.defaultDenyActive != d.defaultDeny || s.podman.firewallHash != FirewallHash(d, t, al, h)
  }

  /** The gossip addresses of the other nodes, as far as they are mesh members. */
  function GossipPeers(nodes: seq<string>, al: Allocation, self: string): seq<U32> {
    if nodes == [] then []
    else
      var p := nodes[|nodes| - 1];
      GossipPeers(nodes[..|nodes| - 1], al, self) +
      (if p != self && p in al.mgmt then [al.mgmt[p]] else [])
  }

  function ConfigHash(d: Desired, t: Texts, al: Allocation, h: string): string {
    t.hash(t.corrosionConfig(MgmtOf(al, h), d.gossipPort, d.apiPort, GossipPeers(d.nodes, al, h), d.gossipTls))
  }

  function UnitHash(d: Desired, t: Texts, al: Allocation, h: string): string {
    t.hash(t.cooldUnit(MgmtOf(al, h), HostSubnets(al, Sort(d.namespaces), h), d.fluxUrl))
  }

  predicate CorrosionServiceDrift(d: Desired, t: Texts, s: ServerState, al: Allocation, h: string) {
    || !s.services.corrosionActive
    || s.services.corrosionConfigHash != ConfigHash(d, t, al, h)
    || VersionDrift(d.corrosionVersion, s.services.corrosionInstalled, s.services.corrosionVersion)
    || s.services.schemaHash != t.hash(t.schema)
  }

  predicate CooldServiceDrift(d: Desired, t: Texts, s: ServerState, al: Allocation, h: string) {
    || !s.services.cooldActive
    || s.services.corrosionConfigHash != ConfigHash(d, t, al, h)
    || VersionDrift(d.cooldVersion, s.services.cooldInstalled, s.services.cooldVersion)
    || s.services.cooldUnitHash != UnitHash(d, t, al, h)
  }

  // ----- the plan of one host -----

  function When(b: bool, h: string, kind: Kind): seq<Action> {
    if b then [Action(h, "", kind, Plain)] else []
  }

  function WireGuardActions(d: Desired, cur: MeshState, al: Allocation, h: string): seq<Action> {
    var s := StateOf(cur, h);
    var want, have := DesiredKeys(d.hosts, cur, h), PeerKeys(s.wg.peers);
    When(!s.wg.installed, h, InstallWg)
    + When(!s.wg.keysExist, h, GenKeyPair)
    + KeyActions(h, AddPeer, Difference(want, have))
    + KeyActions(h, RemovePeer, Difference(have, want))
    + When(NeedsConfig(d, cur, al, h), h, WriteConfig)
    + When(!s.wg.active, h, EnableService)
    + When(s.wg.active && NeedsConfig(d, cur, al, h), h, ReloadService)
  }

  function NetworkActions(s: ServerState, al: Allocation, h: string, nss: seq<string>): seq<Action> {
    if nss == [] then []
    else
      var ns := nss[|nss| - 1];
      NetworkActions(s, al, h, nss[..|nss| - 1]) +
      (if MissingNetwork(s, ns) then [Action(h, ns, CreateNetwork, Plain)]
       else if DriftedNetwork(s, ns, SubnetOf(al, ns, h)) then [Action(h, ns, RecreateNetwork, Plain)]
       else [])
  }

  function PodmanActions(d: Desired, t: Texts, cur: MeshState, al: Allocation, h: string): seq<Action> {
    var s := StateOf(cur, h);
    if !(h in d.nodes && d.installPodman) then []
    else
      When(!s.podman.podmanInstalled, h, InstallPodman)
      + When(!s.podman.podmanSocketActive, h, EnablePodmanSocket)
      + When(!s.podman.ipForward, h, EnableIpForward)
      + NetworkActions(s, al, h, Sort(d.namespaces))
      + When(FirewallDrift(d, t, s, al, h), h, InstallFirewall)
  }

  function SchemaAction(t: Texts, s: ServerState, h: string): seq<Action> {
    var drift := s.services.schemaHash != t.hash(t.schema);
    if !s.services.schemaExists || drift then
      [Action(h, "", WriteCorrosionSchema, if drift && s.services.schemaHash != "" then DbReset else Plain)]
    else []
  }

  function CooldActions(d: Desired, t: Texts, cur: MeshState, al: Allocation, h: string): seq<Action> {
    var s := StateOf(cur, h);
    if !(h in d.nodes && d.installCoold) then []
    else
      When(VersionDrift(d.corrosionVersion, s.services.corrosionInstalled, s.services.corrosionVersion), h, InstallCorrosion)
      + When(VersionDrift(d.cooldVersion, s.services.cooldInstalled, s.services.cooldVersion), h, InstallCoold)
      + When(s.services.corrosionConfigHash != ConfigHash(d, t, al, h), h, WriteCorrosionConfig)
      + SchemaAction(t, s, h)
      + When(CorrosionServiceDrift(d, t, s, al, h), h, InstallCorrosionService)
      + When(CooldServiceDrift(d, t, s, al, h), h, InstallCooldService)
  }

  function HostActions(d: Desired, t: Texts, cur: MeshState, al: Allocation, h: string): seq<Action> {
    WireGuardActions(d, cur, al, h) + PodmanActions(d, t, cur, al, h) + CooldActions(d, t, cur, al, h)
  }

  function AllActions(d: Desired, t: Texts, cur: MeshState, al: Allocation, hosts: seq<string>): seq<Action> {
    if hosts == [] then []
    else AllActions(d, t, cur, al, hosts[..|hosts| - 1]) + HostActions(d, t, cur, al, hosts[|hosts| - 1])
  }

  // ----- the whole plan -----

  datatype PlanError =
    | DefaultDenyNeedsPodman | CooldNeedsPodman | NoNamespace | NoNewNodes | NewNodeUnknown | NightlyRefused
    | NftMissing | Allocating(error: Error)

  datatype Skipped = Skipped(action: Action, reason: Reason)

  datatype Reason = DestructiveReplaceBlocked | VersionBumpSkipped | WipeRefused | PeerRefreshSkipped | NotAVersionBump

  datatype Plan = Plan(actions: seq<Action>, al: Allocation, skipped: seq<Skipped>)

  datatype Planned = Ok(plan: Plan) | Failed(error: PlanError)

  function Check(d: Desired, cur: MeshState): Option<PlanError> {
    if d.nodes != [] && d.defaultDeny && !d.installPodman then Some(DefaultDenyNeedsPodman)
    else if d.nodes != [] && d.installCoold && !d.installPodman then Some(CooldNeedsPodman)
    else if d.nodes != [] && d.installPodman && d.namespaces == [] then Some(NoNamespace)
    else if d.intent == Extend && d.newNodes == [] then Some(NoNewNodes)
    else if d.intent == Extend && (exists h :: h in d.newNodes && h !in d.nodes) then Some(NewNodeUnknown)
    else if d.intent == Upgrade && !d.allowNightly && d.nodes != []
            && (d.cooldVersion == "nightly" || d.corrosionVersion == "nightly") then Some(NightlyRefused)
    else if d.defaultDeny && (exists h :: h in d.nodes && h in cur && !cur[h].podman.nftAvailable) then Some(NftMissing)
    else None
  }

  function AllocateMesh(d: Desired, cur: MeshState): Result<Allocation> {
    match AllocateMgmt(d.mgmtPool, AssignedMgmt(cur), d.hosts)
    case Err(e) => Result<Allocation>.Err(e)
    case Ok(mgmt) =>
      match AllocateNamespaced(d.containerPool, d.containerPrefix, AssignedSubnets(cur), d.namespaces, d.nodes)
      case Err(e) => Result<Allocation>.Err(e)
      case Ok(subnets) => Result<Allocation>.Ok(Allocation(mgmt, subnets))
  }

  /** Before the intent filter. */
  function RawPlan(d: Desired, t: Texts, cur: MeshState): Planned {
    match Check(d, cur)
    case Some(e) => Failed(e)
    case None =>
      match AllocateMesh(d, cur)
      case Err(e) => Failed(Allocating(e))
      case Ok(al) => Planned.Ok(Plan(AllActions(d, t, cur, al, d.hosts), al, []))
  }
}
