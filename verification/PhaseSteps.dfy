/**
 The phases of `coolify-cli/src/wireguard/apply.rs` as they run: every host works through its own
 list of remote commands, the hosts of a phase take turns in any order, and any command can fail and
 so end its host's list.
 */
module PhaseSteps {
  import opened Text
  import opened Ordering
  import opened Subnet
  import opened Mesh
  import opened Intent
  import opened NamespaceProbe
  import opened Apply
  import WgConfig

  datatype Step = Step(kind: Kind, ns: string)

  /** What the commands of one run are made from. `cur` is the first probe, `probed` the second. */
  datatype Setting = Setting(
    d: Desired, t: Texts, plan: seq<Action>, cur: MeshState, probed: MeshState, al: Allocation, keys: string -> KeyPair)

  // ----- one command -----

  function OnTunnel(k: Kind, key: KeyPair, f: Tunnel): Tunnel {
    match k
    case InstallWg => f.(installed := true)
    case GenKeyPair => f.(keysExist := true, publicKey := key.publicKey)
    case EnableService | ReloadService => f.(active := true)
    case _ => f
  }

  function OnPodman(c: Setting, h: string, step: Step, p: Podman): Podman {
    match step.kind
    case InstallPodman => p.(podmanInstalled := true, nftAvailable := true)
    case EnablePodmanSocket => p.(podmanSocketActive := true)
    case EnableIpForward => p.(ipForward := true)
    case RecreateNetwork => p.(namespaces := p.namespaces[step.ns := FreshNetwork(c.al, step.ns, h)])
    case CreateNetwork =>
      if step.ns in p.namespaces && p.namespaces[step.ns].present then p
      else p.(namespaces := p.namespaces[step.ns := FreshNetwork(c.al, step.ns, h)])
    case InstallFirewall =>
      p.(firewallActive := true, defaultDenyActive := c.d.defaultDeny, firewallHash := FirewallHash(c.d, c.t, c.al, h))
    case _ => p
  }

  function OnServices(c: Setting, h: string, k: Kind, s: Services): Services {
    match k
    case InstallCorrosion => s.(corrosionInstalled := true, corrosionVersion := c.d.corrosionVersion)
    case InstallCoold => s.(cooldInstalled := true, cooldVersion := c.d.cooldVersion)
    case WriteCorrosionConfig => s.(corrosionConfigHash := ConfigHash(c.d, c.t, c.al, h))
    case WriteCorrosionSchema => s.(schemaExists := true, schemaHash := c.t.hash(c.t.schema))
    case InstallCorrosionService => s.(corrosionActive := true)
    case InstallCooldService => s.(cooldActive := true, cooldUnitHash := UnitHash(c.d, c.t, c.al, h))
    case _ => s
  }

  /** The effect of one remote command on its host. */
  function Perform(c: Setting, h: string, step: Step, r: Remote): Remote {
    Remote(
      ServerState(OnTunnel(step.kind, c.keys(h), r.facts.wg), OnPodman(c, h, step, r.facts.podman),
                  OnServices(c, h, step.kind, r.facts.services)),
      if step.kind == GenKeyPair then c.keys(h).privateKey else r.privateKey,
      if step.kind == WriteConfig then
        WgConfig.RenderConfig(MgmtOf(c.al, h), ListenPortFor(c.d, h), r.privateKey, PeersFor(c.d, c.probed, c.al, c.d.hosts, h))
      else r.config)
  }

  function PerformAll(c: Setting, h: string, steps: seq<Step>, r: Remote): Remote {
    if steps == [] then r else Perform(c, h, steps[|steps| - 1], PerformAll(c, h, steps[..|steps| - 1], r))
  }

  // ----- the commands of a host, in order -----

  function Due(b: bool, k: Kind): seq<Step> { if b then [Step(k, "")] else [] }

  function NetworkStep(plan: seq<Action>, h: string, ns: string): seq<Step> {
    if ShouldRun(plan, h, RecreateNetwork, ns) then [Step(RecreateNetwork, ns)]
    else if ShouldRun(plan, h, CreateNetwork, ns) then [Step(CreateNetwork, ns)]
    else []
  }

  function NetworkProgram(plan: seq<Action>, h: string, nss: seq<string>): seq<Step> {
    if nss == [] then []
    else NetworkProgram(plan, h, nss[..|nss| - 1]) + NetworkStep(plan, h, nss[|nss| - 1])
  }

  predicate Runs(c: Setting, h: string, k: Kind) { ShouldRun(c.plan, h, k, "") }

  function TunnelProgram(c: Setting, h: string): seq<Step> {
    Due(!StateOf(c.cur, h).wg.installed && Runs(c, h, InstallWg), InstallWg)
    + Due(!StateOf(c.cur, h).wg.keysExist && Runs(c, h, GenKeyPair), GenKeyPair)
  }

  function PodmanProgram(c: Setting, h: string): seq<Step> {
    var st := StateOf(c.cur, h).podman;
    if !(h in c.d.nodes && c.d.installPodman) then []
    else
      Due(!st.podmanInstalled && Runs(c, h, InstallPodman), InstallPodman)
      + Due(!st.podmanSocketActive && Runs(c, h, EnablePodmanSocket), EnablePodmanSocket)
      + Due(!st.ipForward && Runs(c, h, EnableIpForward), EnableIpForward)
  }

  function ServiceKind(c: Setting, h: string): Kind { if StateOf(c.probed, h).wg.active then ReloadService else EnableService }

  function ConfigProgram(c: Setting, h: string): seq<Step> {
    Due(Runs(c, h, WriteConfig), WriteConfig) + Due(Runs(c, h, ServiceKind(c, h)), ServiceKind(c, h))
  }

  function BridgeProgram(c: Setting, h: string): seq<Step> {
    if !(h in c.d.nodes && c.d.installPodman) then []
    else NetworkProgram(c.plan, h, Sort(c.d.namespaces)) + Due(Runs(c, h, InstallFirewall), InstallFirewall)
  }

  function BinaryProgram(c: Setting, h: string): seq<Step> {
    Due(Runs(c, h, InstallCorrosion), InstallCorrosion) + Due(Runs(c, h, InstallCoold), InstallCoold)
  }

  function FileProgram(c: Setting, h: string): seq<Step> {
    Due(Runs(c, h, WriteCorrosionConfig), WriteCorrosionConfig) + Due(Runs(c, h, WriteCorrosionSchema), WriteCorrosionSchema)
  }

  function UnitProgram(c: Setting, h: string): seq<Step> {
    Due(Runs(c, h, InstallCorrosionService), InstallCorrosionService) + Due(Runs(c, h, InstallCooldService), InstallCooldService)
  }

  datatype Phase = First | Second | Third

  function Program(c: Setting, n: Phase, h: string): seq<Step> {
    match n
    case First => if h in c.d.hosts then TunnelProgram(c, h) + PodmanProgram(c, h) else []
    case Second => if h in c.d.hosts then ConfigProgram(c, h) + BridgeProgram(c, h) else []
    case Third =>
      if c.d.installCoold && h in c.d.nodes then BinaryProgram(c, h) + FileProgram(c, h) + UnitProgram(c, h) else []
  }

  // ----- hosts take turns -----

  /** How many of its commands each host has completed. */
  datatype Progress = Progress(world: World, done: map<string, nat>)

  function DoneBy(s: Progress, h: string): nat { if h in s.done then s.done[h] else 0 }

  /** Host `h` completes its next command, if it has one left. */
  function Turn(c: Setting, n: Phase, s: Progress, h: string): Progress {
    var k := DoneBy(s, h);
    if h !in s.world || k >= |Program(c, n, h)| then s
    else Progress(s.world[h := Perform(c, h, Program(c, n, h)[k], s.world[h])], s.done[h := k + 1])
  }

  /** One phase, for one order of turns. A host whose command fails gets no more turns. */
  function RunPhase(c: Setting, n: Phase, w: World, turns: seq<string>): Progress {
    if turns == [] then Progress(w, map[])
    else Turn(c, n, RunPhase(c, n, w, turns[..|turns| - 1]), turns[|turns| - 1])
  }

  /** Every host got through its list. */
  predicate Complete(c: Setting, n: Phase, s: Progress) {
    forall h :: h in s.world ==> DoneBy(s, h) == |Program(c, n, h)|
  }

  ghost predicate OnTrack(c: Setting, n: Phase, w: World, s: Progress, h: string) {
    && h in s.world && DoneBy(s, h) <= |Program(c, n, h)|
    && h in w && s.world[h] == PerformAll(c, h, Program(c, n, h)[..DoneBy(s, h)], w[h])
  }

  lemma TurnOnTrack(c: Setting, n: Phase, w: World, s: Progress, g: string, h: string)
    requires OnTrack(c, n, w, s, h)
    ensures OnTrack(c, n, w, Turn(c, n, s, g), h)
  {
    hide Program, Perform;
    var k, program := DoneBy(s, h), Program(c, n, h);
    if g == h && k < |program| {
      assert program[..k + 1][..k] == program[..k];
    }
  }

  /** In every interleaving each host has performed a prefix of its own list, and nothing else has
      happened to it. */
  lemma {:induction false} Interleaved(c: Setting, n: Phase, w: World, turns: seq<string>, h: string)
    requires h in w
    ensures OnTrack(c, n, w, RunPhase(c, n, w, turns), h)
    ensures RunPhase(c, n, w, turns).world.Keys == w.Keys
  {
    hide Program, Perform, OnTrack;
    if turns == [] {
      StartOnTrack(c, n, w, h);
    } else {
      Interleaved(c, n, w, turns[..|turns| - 1], h);
      TurnOnTrack(c, n, w, RunPhase(c, n, w, turns[..|turns| - 1]), turns[|turns| - 1], h);
    }
  }

  lemma StartOnTrack(c: Setting, n: Phase, w: World, h: string)
    requires h in w
    ensures OnTrack(c, n, w, Progress(w, map[]), h)
  {
    hide Program;
    assert Program(c, n, h)[..0] == [];
  }

  // ----- a host's list is its phase -----

  lemma {:induction false} PerformAppend(c: Setting, h: string, a: seq<Step>, b: seq<Step>, r: Remote)
    ensures PerformAll(c, h, a + b, r) == PerformAll(c, h, b, PerformAll(c, h, a, r))
  {
    hide Perform;
    if b == [] {
      assert a + b == a;
    } else {
      assert (a + b)[..|a + b| - 1] == a + b[..|b| - 1];
      PerformAppend(c, h, a, b[..|b| - 1], r);
    }
  }

  lemma PerformDue(c: Setting, h: string, b: bool, k: Kind, r: Remote)
    ensures PerformAll(c, h, Due(b, k), r) == if b then Perform(c, h, Step(k, ""), r) else r
  {
    hide Perform;
    assert [Step(k, "")][..0] == [];
    assert PerformAll(c, h, [], r) == r;
  }

  lemma TunnelDone(c: Setting, h: string, r: Remote)
    ensures var wg := !StateOf(c.cur, h).wg.installed && Runs(c, h, InstallWg);
            var gen := !StateOf(c.cur, h).wg.keysExist && Runs(c, h, GenKeyPair);
            var f := r.facts.wg;
            PerformAll(c, h, TunnelProgram(c, h), r) ==
            Remote(r.facts.(wg := f.(installed := f.installed || wg, keysExist := f.keysExist || gen,
                                     publicKey := if gen then c.keys(h).publicKey else f.publicKey)),
                   if gen then c.keys(h).privateKey else r.privateKey, r.config)
  {
    hide PerformAll, Runs, StateOf, Due;
    var wg := !StateOf(c.cur, h).wg.installed && Runs(c, h, InstallWg);
    var gen := !StateOf(c.cur, h).wg.keysExist && Runs(c, h, GenKeyPair);
    PerformAppend(c, h, Due(wg, InstallWg), Due(gen, GenKeyPair), r);
    PerformDue(c, h, wg, InstallWg, r);
    PerformDue(c, h, gen, GenKeyPair, PerformAll(c, h, Due(wg, InstallWg), r));
  }

  lemma PodmanDone(c: Setting, h: string, r: Remote)
    ensures var node, st, p := h in c.d.nodes && c.d.installPodman, StateOf(c.cur, h).podman, r.facts.podman;
            var podman := node && !st.podmanInstalled && Runs(c, h, InstallPodman);
            var socket := node && !st.podmanSocketActive && Runs(c, h, EnablePodmanSocket);
            var forward := node && !st.ipForward && Runs(c, h, EnableIpForward);
            PerformAll(c, h, PodmanProgram(c, h), r) ==
            r.(facts := r.facts.(podman := p.(podmanInstalled := p.podmanInstalled || podman,
                                              nftAvailable := p.nftAvailable || podman,
                                              podmanSocketActive := p.podmanSocketActive || socket,
                                              ipForward := p.ipForward || forward)))
  {
    hide PerformAll, Runs, StateOf, Due, Perform;
    if h in c.d.nodes && c.d.installPodman {
      var st := StateOf(c.cur, h).podman;
      var b1, b2 := !st.podmanInstalled && Runs(c, h, InstallPodman), !st.podmanSocketActive && Runs(c, h, EnablePodmanSocket);
      var b3 := !st.ipForward && Runs(c, h, EnableIpForward);
      var two := Due(b1, InstallPodman) + Due(b2, EnablePodmanSocket);
      PerformAppend(c, h, two, Due(b3, EnableIpForward), r);
      PodmanTwo(c, h, b1, b2, r);
      ForwardDone(c, h, b3, PerformAll(c, h, two, r));
    } else {
      PerformNone(c, h, r);
    }
  }

  lemma PodmanTwo(c: Setting, h: string, b1: bool, b2: bool, r: Remote)
    ensures var p := r.facts.podman;
            PerformAll(c, h, Due(b1, InstallPodman) + Due(b2, EnablePodmanSocket), r) ==
            r.(facts := r.facts.(podman := p.(podmanInstalled := p.podmanInstalled || b1,
                                              nftAvailable := p.nftAvailable || b1,
                                              podmanSocketActive := p.podmanSocketActive || b2)))
  {
    hide PerformAll, Due;
    PerformTwo(c, h, b1, InstallPodman, b2, EnablePodmanSocket, r);
  }

  lemma ForwardDone(c: Setting, h: string, b: bool, r: Remote)
    ensures var p := r.facts.podman;
            PerformAll(c, h, Due(b, EnableIpForward), r) == r.(facts := r.facts.(podman := p.(ipForward := p.ipForward || b)))
  {
    hide PerformAll, Due;
    PerformDue(c, h, b, EnableIpForward, r);
  }

  lemma PerformNone(c: Setting, h: string, r: Remote)
    ensures PerformAll(c, h, [], r) == r
  {
  }

  lemma ConfigDone(c: Setting, h: string, r: Remote)
    ensures var f := r.facts.wg;
            PerformAll(c, h, ConfigProgram(c, h), r) ==
            Remote(r.facts.(wg := f.(active := f.active || Runs(c, h, ServiceKind(c, h)))), r.privateKey,
                   if Runs(c, h, WriteConfig) then
                     WgConfig.RenderConfig(MgmtOf(c.al, h), ListenPortFor(c.d, h), r.privateKey, PeersFor(c.d, c.probed, c.al, c.d.hosts, h))
                   else r.config)
  {
    hide PerformAll, Runs, StateOf, Due, WgConfig.RenderConfig, PeersFor;
    var b1, b2, k := Runs(c, h, WriteConfig), Runs(c, h, ServiceKind(c, h)), ServiceKind(c, h);
    PerformAppend(c, h, Due(b1, WriteConfig), Due(b2, k), r);
    PerformDue(c, h, b1, WriteConfig, r);
    PerformDue(c, h, b2, k, PerformAll(c, h, Due(b1, WriteConfig), r));
  }

  lemma {:induction false} NetworksDone(c: Setting, h: string, nss: seq<string>, r: Remote)
    ensures PerformAll(c, h, NetworkProgram(c.plan, h, nss), r) ==
            WithNetworks(r, ApplyNetworks(c.plan, c.al, h, nss, r.facts.podman.namespaces))
  {
    hide ApplyNetwork, NetworkStep, PerformAll;
    if nss == [] {
      PerformNone(c, h, r);
    } else {
      var front := nss[..|nss| - 1];
      NetworksDone(c, h, front, r);
      PerformAppend(c, h, NetworkProgram(c.plan, h, front), NetworkStep(c.plan, h, nss[|nss| - 1]), r);
      NetworkDone(c, h, nss[|nss| - 1], PerformAll(c, h, NetworkProgram(c.plan, h, front), r));
    }
  }

  function WithNetworks(r: Remote, nets: Networks): Remote {
    r.(facts := r.facts.(podman := r.facts.podman.(namespaces := nets)))
  }

  lemma RecreateDone(c: Setting, h: string, ns: string, r: Remote)
    ensures Perform(c, h, Step(RecreateNetwork, ns), r) ==
            WithNetworks(r, r.facts.podman.namespaces[ns := FreshNetwork(c.al, ns, h)])
  {
  }

  lemma CreateDone(c: Setting, h: string, ns: string, r: Remote)
    ensures var nets := r.facts.podman.namespaces;
            Perform(c, h, Step(CreateNetwork, ns), r) ==
            WithNetworks(r, if ns in nets && nets[ns].present then nets else nets[ns := FreshNetwork(c.al, ns, h)])
  {
  }

  lemma SameNetworks(r: Remote)
    ensures WithNetworks(r, r.facts.podman.namespaces) == r
  {
  }

  lemma NetworkDone(c: Setting, h: string, ns: string, r: Remote)
    ensures PerformAll(c, h, NetworkStep(c.plan, h, ns), r) ==
            WithNetworks(r, ApplyNetwork(c.plan, c.al, h, ns, r.facts.podman.namespaces))
  {
    hide ShouldRun, PerformAll, Perform, WithNetworks, FreshNetwork;
    PerformOne(c, h, Step(RecreateNetwork, ns), r);
    PerformOne(c, h, Step(CreateNetwork, ns), r);
    RecreateDone(c, h, ns, r);
    CreateDone(c, h, ns, r);
    PerformNone(c, h, r);
    SameNetworks(r);
  }

  lemma PerformOne(c: Setting, h: string, step: Step, r: Remote)
    ensures PerformAll(c, h, [step], r) == Perform(c, h, step, r)
  {
    hide Perform;
    assert [step][..0] == [];
    PerformNone(c, h, r);
  }

  lemma BridgeDone(c: Setting, h: string, r: Remote)
    ensures var node, p := h in c.d.nodes && c.d.installPodman, r.facts.podman;
            var firewall := node && Runs(c, h, InstallFirewall);
            PerformAll(c, h, BridgeProgram(c, h), r) ==
            r.(facts := r.facts.(podman :=
              p.(namespaces := if node then ApplyNetworks(c.plan, c.al, h, Sort(c.d.namespaces), p.namespaces) else p.namespaces,
                 firewallActive := p.firewallActive || firewall,
                 defaultDenyActive := if firewall then c.d.defaultDeny else p.defaultDenyActive,
                 firewallHash := if firewall then FirewallHash(c.d, c.t, c.al, h) else p.firewallHash)))
  {
    hide PerformAll, Runs, Due, NetworkProgram, ApplyNetworks, FirewallHash, Sort;
    if h in c.d.nodes && c.d.installPodman {
      var nets, b := NetworkProgram(c.plan, h, Sort(c.d.namespaces)), Runs(c, h, InstallFirewall);
      PerformAppend(c, h, nets, Due(b, InstallFirewall), r);
      NetworksDone(c, h, Sort(c.d.namespaces), r);
      PerformDue(c, h, b, InstallFirewall, PerformAll(c, h, nets, r));
    } else {
      PerformNone(c, h, r);
    }
  }

  /** Two commands in a row, either of which may not be due. */
  lemma PerformTwo(c: Setting, h: string, b1: bool, k1: Kind, b2: bool, k2: Kind, r: Remote)
    ensures var r1 := if b1 then Perform(c, h, Step(k1, ""), r) else r;
            PerformAll(c, h, Due(b1, k1) + Due(b2, k2), r) == if b2 then Perform(c, h, Step(k2, ""), r1) else r1
  {
    hide Perform, PerformAll, Due;
    PerformAppend(c, h, Due(b1, k1), Due(b2, k2), r);
    PerformDue(c, h, b1, k1, r);
    PerformDue(c, h, b2, k2, PerformAll(c, h, Due(b1, k1), r));
  }

  predicate ServiceStep(k: Kind) {
    || k == InstallCorrosion || k == InstallCoold || k == WriteCorrosionConfig || k == WriteCorrosionSchema
    || k == InstallCorrosionService || k == InstallCooldService
  }

  function WithServices(r: Remote, s: Services): Remote { r.(facts := r.facts.(services := s)) }

  function Maybe(c: Setting, h: string, b: bool, k: Kind, s: Services): Services { if b then OnServices(c, h, k, s) else s }

  lemma ServiceDone(c: Setting, h: string, k: Kind, r: Remote)
    requires ServiceStep(k)
    ensures Perform(c, h, Step(k, ""), r) == WithServices(r, OnServices(c, h, k, r.facts.services))
    ensures WithServices(r, r.facts.services) == r
  {
    hide OnServices;
  }

  /** Two commands in a row that only change services. */
  lemma ServicesDone(c: Setting, h: string, b1: bool, k1: Kind, b2: bool, k2: Kind, r: Remote)
    requires ServiceStep(k1) && ServiceStep(k2)
    ensures PerformAll(c, h, Due(b1, k1) + Due(b2, k2), r) ==
            WithServices(r, Maybe(c, h, b2, k2, Maybe(c, h, b1, k1, r.facts.services)))
  {
    hide PerformAll, Due, Perform, OnServices, ServiceStep;
    PerformTwo(c, h, b1, k1, b2, k2, r);
    ServiceDone(c, h, k1, r);
    ServiceDone(c, h, k2, r);
    ServiceDone(c, h, k2, WithServices(r, OnServices(c, h, k1, r.facts.services)));
  }

  lemma InstallBoth(c: Setting, h: string, b1: bool, b2: bool, f: Services)
    ensures Maybe(c, h, b2, InstallCoold, Maybe(c, h, b1, InstallCorrosion, f)) ==
            f.(corrosionInstalled := f.corrosionInstalled || b1,
               corrosionVersion := if b1 then c.d.corrosionVersion else f.corrosionVersion,
               cooldInstalled := f.cooldInstalled || b2,
               cooldVersion := if b2 then c.d.cooldVersion else f.cooldVersion)
  {
  }

  lemma WriteBoth(c: Setting, h: string, b1: bool, b2: bool, f: Services)
    ensures Maybe(c, h, b2, WriteCorrosionSchema, Maybe(c, h, b1, WriteCorrosionConfig, f)) ==
            f.(corrosionConfigHash := if b1 then ConfigHash(c.d, c.t, c.al, h) else f.corrosionConfigHash,
               schemaExists := f.schemaExists || b2,
               schemaHash := if b2 then c.t.hash(c.t.schema) else f.schemaHash)
  {
    hide ConfigHash;
  }

  lemma StartBoth(c: Setting, h: string, b1: bool, b2: bool, f: Services)
    ensures Maybe(c, h, b2, InstallCooldService, Maybe(c, h, b1, InstallCorrosionService, f)) ==
            f.(corrosionActive := f.corrosionActive || b1,
               cooldActive := f.cooldActive || b2,
               cooldUnitHash := if b2 then UnitHash(c.d, c.t, c.al, h) else f.cooldUnitHash)
  {
    hide UnitHash;
  }

  function Installed(c: Setting, h: string, f: Services): Services {
    Maybe(c, h, Runs(c, h, InstallCoold), InstallCoold, Maybe(c, h, Runs(c, h, InstallCorrosion), InstallCorrosion, f))
  }

  function Written(c: Setting, h: string, f: Services): Services {
    Maybe(c, h, Runs(c, h, WriteCorrosionSchema), WriteCorrosionSchema,
          Maybe(c, h, Runs(c, h, WriteCorrosionConfig), WriteCorrosionConfig, f))
  }

  function Started(c: Setting, h: string, f: Services): Services {
    Maybe(c, h, Runs(c, h, InstallCooldService), InstallCooldService,
          Maybe(c, h, Runs(c, h, InstallCorrosionService), InstallCorrosionService, f))
  }

  /** Three groups of fields, set one group after the other. */
  lemma SetInTurn(f: Services, ci: bool, cv: string, di: bool, dv: string, ch: string, se: bool, sh: string, ca: bool, da: bool, uh: string)
    ensures var g := f.(corrosionInstalled := ci, corrosionVersion := cv, cooldInstalled := di, cooldVersion := dv);
            var k := g.(corrosionConfigHash := ch, schemaExists := se, schemaHash := sh);
            k.(corrosionActive := ca, cooldActive := da, cooldUnitHash := uh) == Services(ci, cv, ch, se, sh, ca, di, dv, da, uh)
  {
  }

  lemma ServicesAre(c: Setting, h: string, r: Remote)
    ensures Phase3(c.d, c.t, c.plan, c.al, h, r) == WithServices(r, Started(c, h, Written(c, h, Installed(c, h, r.facts.services))))
  {
    hide ShouldRun, ConfigHash, UnitHash, Maybe;
    var f := r.facts.services;
    var b1, b2, b3 := Runs(c, h, InstallCorrosion), Runs(c, h, InstallCoold), Runs(c, h, WriteCorrosionConfig);
    var b4, b5, b6 := Runs(c, h, WriteCorrosionSchema), Runs(c, h, InstallCorrosionService), Runs(c, h, InstallCooldService);
    InstallBoth(c, h, b1, b2, f);
    WriteBoth(c, h, b3, b4, Installed(c, h, f));
    StartBoth(c, h, b5, b6, Written(c, h, Installed(c, h, f)));
    SetInTurn(f, f.corrosionInstalled || b1, if b1 then c.d.corrosionVersion else f.corrosionVersion,
              f.cooldInstalled || b2, if b2 then c.d.cooldVersion else f.cooldVersion,
              if b3 then ConfigHash(c.d, c.t, c.al, h) else f.corrosionConfigHash,
              f.schemaExists || b4, if b4 then c.t.hash(c.t.schema) else f.schemaHash,
              f.corrosionActive || b5, f.cooldActive || b6, if b6 then UnitHash(c.d, c.t, c.al, h) else f.cooldUnitHash);
  }

  lemma FirstDone(c: Setting, h: string, r: Remote)
    ensures PerformAll(c, h, TunnelProgram(c, h) + PodmanProgram(c, h), r) ==
            Phase1(c.d, c.plan, StateOf(c.cur, h), c.keys(h), h, r)
  {
    hide PerformAll, TunnelProgram, PodmanProgram, ShouldRun, StateOf;
    PerformAppend(c, h, TunnelProgram(c, h), PodmanProgram(c, h), r);
    TunnelDone(c, h, r);
    PodmanDone(c, h, PerformAll(c, h, TunnelProgram(c, h), r));
  }

  lemma SecondDone(c: Setting, h: string, r: Remote)
    ensures PerformAll(c, h, ConfigProgram(c, h) + BridgeProgram(c, h), r) ==
            Phase2(c.d, c.t, c.plan, c.probed, c.al, h, r)
  {
    hide PerformAll, ConfigProgram, BridgeProgram, ShouldRun, StateOf, WgConfig.RenderConfig, PeersFor, ApplyNetworks, FirewallHash;
    PerformAppend(c, h, ConfigProgram(c, h), BridgeProgram(c, h), r);
    ConfigDone(c, h, r);
    BridgeDone(c, h, PerformAll(c, h, ConfigProgram(c, h), r));
  }

  lemma ThirdDone(c: Setting, h: string, r: Remote)
    ensures PerformAll(c, h, BinaryProgram(c, h) + FileProgram(c, h) + UnitProgram(c, h), r) ==
            Phase3(c.d, c.t, c.plan, c.al, h, r)
  {
    hide PerformAll, Maybe, Runs, Due, Phase3;
    var b, f, u := BinaryProgram(c, h), FileProgram(c, h), UnitProgram(c, h);
    PerformAppend(c, h, b, f, r);
    PerformAppend(c, h, b + f, u, r);
    ServicesDone(c, h, Runs(c, h, InstallCorrosion), InstallCorrosion, Runs(c, h, InstallCoold), InstallCoold, r);
    var r1 := PerformAll(c, h, b, r);
    ServicesDone(c, h, Runs(c, h, WriteCorrosionConfig), WriteCorrosionConfig, Runs(c, h, WriteCorrosionSchema), WriteCorrosionSchema, r1);
    var r2 := PerformAll(c, h, f, r1);
    ServicesDone(c, h, Runs(c, h, InstallCorrosionService), InstallCorrosionService,
                 Runs(c, h, InstallCooldService), InstallCooldService, r2);
    ServicesAre(c, h, r);
  }

  /** What a phase does to the whole mesh. */
  function AfterPhase(c: Setting, n: Phase, w: World): World {
    match n
    case First => AfterPhase1(c.d, c.plan, c.cur, c.keys, w)
    case Second => AfterPhase2(c.d, c.t, c.plan, c.probed, c.al, w)
    case Third => AfterPhase3(c.d, c.t, c.plan, c.al, w)
  }

  lemma ProgramIsPhase(c: Setting, n: Phase, w: World, h: string)
    requires h in w
    ensures PerformAll(c, h, Program(c, n, h), w[h]) == AfterPhase(c, n, w)[h]
  {
    hide PerformAll, Phase1, Phase2, Phase3, TunnelProgram, PodmanProgram, ConfigProgram, BridgeProgram, BinaryProgram,
         FileProgram, UnitProgram;
    PerformNone(c, h, w[h]);
    match n
    case First => FirstDone(c, h, w[h]);
    case Second => SecondDone(c, h, w[h]);
    case Third => ThirdDone(c, h, w[h]);
  }

  lemma PhaseKeys(c: Setting, n: Phase, w: World)
    ensures AfterPhase(c, n, w).Keys == w.Keys
  {
    hide Phase1, Phase2, Phase3;
  }

  /** Every interleaving in which all hosts get through their lists ends in the same world: the one
      in which each phase is applied host by host. */
  lemma EveryOrderEnds(c: Setting, n: Phase, w: World, turns: seq<string>)
    requires Complete(c, n, RunPhase(c, n, w, turns))
    ensures RunPhase(c, n, w, turns).world == AfterPhase(c, n, w)
  {
    hide Program, Perform, PerformAll, AfterPhase, RunPhase;
    var s := RunPhase(c, n, w, turns);
    PhaseKeys(c, n, w);
    if w == map[] {
      EmptyWorld(c, n, turns);
    }
    forall h | h in w ensures s.world.Keys == w.Keys && s.world[h] == AfterPhase(c, n, w)[h] {
      Interleaved(c, n, w, turns, h);
      ProgramIsPhase(c, n, w, h);
      assert Program(c, n, h)[..|Program(c, n, h)|] == Program(c, n, h);
    }
  }

  lemma {:induction false} EmptyWorld(c: Setting, n: Phase, turns: seq<string>)
    ensures RunPhase(c, n, map[], turns).world == map[]
  {
    hide Program, Perform;
    if turns != [] { EmptyWorld(c, n, turns[..|turns| - 1]); }
  }
}
