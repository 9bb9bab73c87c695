/**
 A whole run of `apply_mesh` with failures: a run stops after a phase in which a command failed, and
 can simply be started again.
 */
module Retrying {
  import opened Text
  import opened Ordering
  import opened Subnet
  import opened Mesh
  import opened Intent
  import opened NamespaceProbe
  import opened Apply
  import opened PhaseSteps
  import opened PlanRuns
  import opened Convergence
  import WgConfig

  /** In which order the hosts complete commands in each phase, up to the failures. */
  datatype Turns = Turns(first: seq<string>, second: seq<string>, third: seq<string>)

  datatype Attempted = Refused(error: PlanError) | Stopped(world: World) | Finished(world: World)

  function Attempt(d: Desired, t: Texts, keys: string -> KeyPair, w: World, turns: Turns): Attempted {
    var cur := Reconstruct(w, d.hosts, d.namespaces);
    match BuildPlan(d, t, cur)
    case Failed(e) => Refused(e)
    case Ok(plan) =>
      var c := Setting(d, t, plan.actions, cur, cur, plan.al, keys);
      var s := RunPhase(c, First, w, turns.first);
      if !Complete(c, First, s) then Stopped(s.world) else AfterFirst(c, s.world, turns)
  }

  function AfterFirst(c: Setting, w: World, turns: Turns): Attempted {
    var probed := Reconstruct(w, c.d.hosts, c.d.namespaces);
    match AllocateMesh(c.d, probed)
    case Err(_) => Stopped(w)
    case Ok(al) =>
      var c' := c.(probed := probed, al := al);
      var s := RunPhase(c', Second, w, turns.second);
      if !Complete(c', Second, s) then Stopped(s.world)
      else
        var s' := RunPhase(c', Third, s.world, turns.third);
        if !Complete(c', Third, s') then Stopped(s'.world) else Finished(s'.world)
  }

  /** However the hosts take turns, a run in which nothing fails does what applying host by host does. */
  lemma FinishedIsApplied(d: Desired, t: Texts, keys: string -> KeyPair, w: World, turns: Turns)
    requires Attempt(d, t, keys, w, turns).Finished?
    ensures ApplyMesh(d, t, keys, w) == Done(Attempt(d, t, keys, w, turns).world)
  {
    hide BuildPlan, Reconstruct, AllocateMesh, RunPhase, Complete, AfterPhase1, AfterPhase2, AfterPhase3;
    var cur := Reconstruct(w, d.hosts, d.namespaces);
    var plan := BuildPlan(d, t, cur).plan;
    var c := Setting(d, t, plan.actions, cur, cur, plan.al, keys);
    var s := RunPhase(c, First, w, turns.first);
    EveryOrderEnds(c, First, w, turns.first);
    var probed := Reconstruct(s.world, d.hosts, d.namespaces);
    var c' := c.(probed := probed, al := AllocateMesh(d, probed).value);
    var s' := RunPhase(c', Second, s.world, turns.second);
    EveryOrderEnds(c', Second, s.world, turns.second);
    EveryOrderEnds(c', Third, s'.world, turns.third);
  }

  // ----- no command spoils a host -----

  ghost predicate SoundHost(d: Desired, r: Remote) { CleanRemote(r) && CleanNetworks(r, d.namespaces) }

  predicate NamesNetwork(d: Desired, step: Step) {
    step.kind == CreateNetwork || step.kind == RecreateNetwork ==> step.ns in d.namespaces
  }

  lemma PerformKeeps(c: Setting, h: string, step: Step, r: Remote)
    requires SoundHost(c.d, r) && CleanKey(c.keys(h)) && CleanNames(c.d) && NamesNetwork(c.d, step)
    ensures SoundHost(c.d, Perform(c, h, step, r))
    ensures r.facts.podman.nftAvailable ==> Perform(c, h, step, r).facts.podman.nftAvailable
  {
    hide WgConfig.RenderConfig, PeersFor, FirewallHash, ConfigHash, UnitHash, CleanLine, CleanField, Trimmed;
  }

  /** The phase a command belongs to. */
  function PhaseOf(k: Kind): Phase {
    match k
    case InstallWg | GenKeyPair | InstallPodman | EnablePodmanSocket | EnableIpForward => First
    case InstallCorrosion | InstallCoold | WriteCorrosionConfig | WriteCorrosionSchema | InstallCorrosionService | InstallCooldService => Third
    case _ => Second
  }

  predicate Belongs(d: Desired, n: Phase, step: Step) { PhaseOf(step.kind) == n && NamesNetwork(d, step) }

  ghost predicate AllNamed(d: Desired, n: Phase, steps: seq<Step>) { forall i :: 0 <= i < |steps| ==> Belongs(d, n, steps[i]) }

  lemma NamedAppend(d: Desired, n: Phase, a: seq<Step>, b: seq<Step>)
    requires AllNamed(d, n, a) && AllNamed(d, n, b)
    ensures AllNamed(d, n, a + b)
  {
    hide Belongs;
  }

  lemma NamedTwo(d: Desired, n: Phase, b1: bool, k1: Kind, b2: bool, k2: Kind)
    requires k1 != CreateNetwork && k1 != RecreateNetwork && k2 != CreateNetwork && k2 != RecreateNetwork
    requires PhaseOf(k1) == n && PhaseOf(k2) == n
    ensures AllNamed(d, n, Due(b1, k1)) && AllNamed(d, n, Due(b1, k1) + Due(b2, k2))
  {
    assert AllNamed(d, n, Due(b1, k1)) && AllNamed(d, n, Due(b2, k2));
    NamedAppend(d, n, Due(b1, k1), Due(b2, k2));
  }

  lemma {:induction false} NetworkNames(d: Desired, plan: seq<Action>, h: string, nss: seq<string>)
    requires forall ns :: ns in nss ==> ns in d.namespaces
    ensures AllNamed(d, Second, NetworkProgram(plan, h, nss))
  {
    hide ShouldRun;
    if nss != [] {
      assert nss[|nss| - 1] in nss;
      NetworkNames(d, plan, h, nss[..|nss| - 1]);
      NamedAppend(d, Second, NetworkProgram(plan, h, nss[..|nss| - 1]), NetworkStep(plan, h, nss[|nss| - 1]));
    }
  }

  lemma FirstNames(c: Setting, h: string)
    ensures AllNamed(c.d, First, TunnelProgram(c, h)) && AllNamed(c.d, First, PodmanProgram(c, h))
  {
    hide Runs, StateOf, Due, AllNamed;
    var wg, p := StateOf(c.cur, h).wg, StateOf(c.cur, h).podman;
    var b1, b2 := !p.podmanInstalled && Runs(c, h, InstallPodman), !p.podmanSocketActive && Runs(c, h, EnablePodmanSocket);
    var b3 := !p.ipForward && Runs(c, h, EnableIpForward);
    NamedTwo(c.d, First, !wg.installed && Runs(c, h, InstallWg), InstallWg, !wg.keysExist && Runs(c, h, GenKeyPair), GenKeyPair);
    NamedTwo(c.d, First, b1, InstallPodman, b2, EnablePodmanSocket);
    NamedTwo(c.d, First, b3, EnableIpForward, false, InstallWg);
    NamedAppend(c.d, First, Due(b1, InstallPodman) + Due(b2, EnablePodmanSocket), Due(b3, EnableIpForward));
    NamedNone(c.d, First);
  }

  lemma ConfigNames(c: Setting, h: string)
    ensures AllNamed(c.d, Second, ConfigProgram(c, h))
  {
    hide Runs, StateOf, Due, AllNamed;
    NamedTwo(c.d, Second, Runs(c, h, WriteConfig), WriteConfig, Runs(c, h, ServiceKind(c, h)), ServiceKind(c, h));
  }

  lemma BridgeNames(c: Setting, h: string)
    ensures AllNamed(c.d, Second, BridgeProgram(c, h))
  {
    hide Runs, Due, AllNamed, NetworkProgram, Sort;
    SortMembers(c.d.namespaces);
    NetworkNames(c.d, c.plan, h, Sort(c.d.namespaces));
    NamedTwo(c.d, Second, Runs(c, h, InstallFirewall), InstallFirewall, false, WriteConfig);
    NamedAppend(c.d, Second, NetworkProgram(c.plan, h, Sort(c.d.namespaces)), Due(Runs(c, h, InstallFirewall), InstallFirewall));
    NamedNone(c.d, Second);
  }

  lemma ThirdNames(c: Setting, h: string)
    ensures AllNamed(c.d, Third, BinaryProgram(c, h) + FileProgram(c, h) + UnitProgram(c, h))
  {
    hide Runs, Due, AllNamed;
    NamedTwo(c.d, Third, Runs(c, h, InstallCorrosion), InstallCorrosion, Runs(c, h, InstallCoold), InstallCoold);
    NamedTwo(c.d, Third, Runs(c, h, WriteCorrosionConfig), WriteCorrosionConfig, Runs(c, h, WriteCorrosionSchema), WriteCorrosionSchema);
    NamedTwo(c.d, Third, Runs(c, h, InstallCorrosionService), InstallCorrosionService, Runs(c, h, InstallCooldService), InstallCooldService);
    NamedAppend(c.d, Third, BinaryProgram(c, h), FileProgram(c, h));
    NamedAppend(c.d, Third, BinaryProgram(c, h) + FileProgram(c, h), UnitProgram(c, h));
  }

  lemma NamedNone(d: Desired, n: Phase)
    ensures AllNamed(d, n, [])
  {
  }

  lemma ProgramNames(c: Setting, n: Phase, h: string)
    ensures AllNamed(c.d, n, Program(c, n, h))
  {
    hide AllNamed, TunnelProgram, PodmanProgram, ConfigProgram, BridgeProgram, BinaryProgram, FileProgram, UnitProgram;
    NamedNone(c.d, n);
    match n
    case First =>
      FirstNames(c, h);
      NamedAppend(c.d, n, TunnelProgram(c, h), PodmanProgram(c, h));
    case Second =>
      ConfigNames(c, h);
      BridgeNames(c, h);
      NamedAppend(c.d, n, ConfigProgram(c, h), BridgeProgram(c, h));
    case Third => ThirdNames(c, h);
  }

  ghost predicate SoundWorld(d: Desired, w: World) { forall h :: h in d.hosts ==> h in w && SoundHost(d, w[h]) }

  predicate NoLess(w: World, w': World, h: string) {
    h in w && h in w' && (w[h].facts.podman.nftAvailable ==> w'[h].facts.podman.nftAvailable)
  }

  ghost predicate Keeps(d: Desired, w: World, w': World) {
    SoundWorld(d, w') && forall h :: h in d.hosts ==> NoLess(w, w', h)
  }

  ghost predicate CleanSetting(c: Setting) {
    && CleanNames(c.d) && (forall h :: h in c.d.nodes ==> h in c.d.hosts)
    && forall h :: h in c.d.hosts ==> CleanKey(c.keys(h))
  }

  lemma OthersIdle(c: Setting, n: Phase, h: string)
    requires CleanSetting(c) && h !in c.d.hosts
    ensures Program(c, n, h) == []
  {
  }

  lemma TurnKeeps(c: Setting, n: Phase, w: World, s: Progress, g: string)
    requires CleanSetting(c) && Keeps(c.d, w, s.world)
    ensures Keeps(c.d, w, Turn(c, n, s, g).world)
  {
    hide Program, Perform, SoundHost, CleanNames, CleanKey;
    if g in c.d.hosts {
      ProgramNames(c, n, g);
      var k := DoneBy(s, g);
      if k < |Program(c, n, g)| {
        PerformKeeps(c, g, Program(c, n, g)[k], s.world[g]);
      }
      assert forall h :: h in c.d.hosts ==> NoLess(w, s.world, h);
    } else {
      OthersIdle(c, n, g);
    }
  }

  lemma {:induction false} PhaseKeeps(c: Setting, n: Phase, w: World, turns: seq<string>)
    requires CleanSetting(c) && SoundWorld(c.d, w)
    ensures Keeps(c.d, w, RunPhase(c, n, w, turns).world)
  {
    hide Turn, SoundHost, CleanSetting;
    if turns != [] {
      PhaseKeeps(c, n, w, turns[..|turns| - 1]);
      TurnKeeps(c, n, w, RunPhase(c, n, w, turns[..|turns| - 1]), turns[|turns| - 1]);
    }
  }

  lemma KeepsChain(d: Desired, a: World, b: World, c: World)
    requires Keeps(d, a, b) && Keeps(d, b, c)
    ensures Keeps(d, a, c)
  {
    hide SoundHost;
    assert forall h :: h in d.hosts ==> NoLess(a, b, h) && NoLess(b, c, h);
  }

  lemma AttemptKeeps(d: Desired, t: Texts, keys: string -> KeyPair, w: World, turns: Turns)
    requires Ready(d, keys, w) && !Attempt(d, t, keys, w, turns).Refused?
    ensures Keeps(d, w, Attempt(d, t, keys, w, turns).world)
  {
    hide BuildPlan, Reconstruct, AllocateMesh, RunPhase, Complete, Keeps, CleanNames, CleanKey, CleanLine, PoolSound, EndpointFor;
    var cur := Reconstruct(w, d.hosts, d.namespaces);
    var plan := BuildPlan(d, t, cur).plan;
    var c := Setting(d, t, plan.actions, cur, cur, plan.al, keys);
    var s := RunPhase(c, First, w, turns.first);
    PhaseKeeps(c, First, w, turns.first);
    if Complete(c, First, s) {
      AfterFirstKeeps(c, w, s.world, turns);
    }
  }

  lemma AfterFirstKeeps(c: Setting, w0: World, w: World, turns: Turns)
    requires CleanSetting(c) && Keeps(c.d, w0, w)
    ensures !AfterFirst(c, w, turns).Refused? && Keeps(c.d, w0, AfterFirst(c, w, turns).world)
  {
    hide Reconstruct, AllocateMesh, RunPhase, Complete, SoundHost, CleanNames, CleanKey, NoLess;
    var probed := Reconstruct(w, c.d.hosts, c.d.namespaces);
    var al := AllocateMesh(c.d, probed);
    if al.Ok? {
      var c' := c.(probed := probed, al := al.value);
      var s := RunPhase(c', Second, w, turns.second);
      PhaseKeeps(c', Second, w, turns.second);
      KeepsChain(c.d, w0, w, s.world);
      PhaseKeeps(c', Third, s.world, turns.third);
      KeepsChain(c.d, w0, s.world, RunPhase(c', Third, s.world, turns.third).world);
    }
  }

  // ----- starting again -----

  lemma ReadyAgain(d: Desired, keys: string -> KeyPair, w: World, w': World)
    requires Ready(d, keys, w) && Keeps(d, w, w')
    ensures Ready(d, keys, w')
  {
    hide CleanRemote, CleanNetworks, CleanNames, PoolSound, CleanLine, CleanKey, EndpointFor;
  }

  lemma ProbeNft(r: Remote, nss: seq<string>)
    ensures Probe(r, nss).podman.nftAvailable == r.facts.podman.nftAvailable
  {
    hide WgConfig.ParseConfig, ParseNamespaces;
  }

  lemma CheckAgain(d: Desired, w: World, w': World)
    requires (forall h :: h in d.nodes ==> h in d.hosts) && Keeps(d, w, w')
    requires Check(d, Reconstruct(w, d.hosts, d.namespaces)).None?
    ensures Check(d, Reconstruct(w', d.hosts, d.namespaces)).None?
  {
    hide Probe, SoundHost;
    var cur, cur' := Reconstruct(w, d.hosts, d.namespaces), Reconstruct(w', d.hosts, d.namespaces);
    forall h | h in d.nodes ensures h in cur && h in cur' && (cur[h].podman.nftAvailable ==> cur'[h].podman.nftAvailable) {
      assert NoLess(w, w', h);
      ProbeNft(w[h], d.namespaces);
      ProbeNft(w'[h], d.namespaces);
    }
  }

  /** A run that stopped anywhere, with its hosts anywhere in their lists, can be started again: the
      second run is planned, completes, and leaves nothing to do exactly when no host is unsettling. */
  lemma RetryConverges(d: Desired, t: Texts, keys: string -> KeyPair, w: World, turns: Turns)
    requires d.intent == Bootstrap && Ready(d, keys, w)
    requires !Attempt(d, t, keys, w, turns).Refused?
    ensures var w' := Attempt(d, t, keys, w, turns).world;
            var cur := Reconstruct(w', d.hosts, d.namespaces);
            && BuildPlan(d, t, cur).Ok? && ApplyMesh(d, t, keys, w').Done?
            && var again := BuildPlan(d, t, Reconstruct(ApplyMesh(d, t, keys, w').world, d.hosts, d.namespaces));
               && again.Ok?
               && (again.plan.actions == [] <==> forall h :: h in d.hosts ==> !Unsettling(d, cur, BuildPlan(d, t, cur).plan.al, h))
  {
    hide Ready, BuildPlan, Keeps, AfterFirst, RunPhase, Complete, Reconstruct, Unsettling, ApplyMesh, Check, Consistent, Allocatable;
    var w' := Attempt(d, t, keys, w, turns).world;
    AttemptKeeps(d, t, keys, w, turns);
    ReadyAgain(d, keys, w, w');
    ReadyPool(d, keys, w);
    PlanSucceedsIff(d, t, Reconstruct(w, d.hosts, d.namespaces));
    CheckIff(d, Reconstruct(w, d.hosts, d.namespaces));
    CheckAgain(d, w, w');
    CheckIff(d, Reconstruct(w', d.hosts, d.namespaces));
    PlanSucceedsIff(d, t, Reconstruct(w', d.hosts, d.namespaces));
    Converges(d, t, keys, w');
  }

  lemma ReadyPool(d: Desired, keys: string -> KeyPair, w: World)
    requires Ready(d, keys, w)
    ensures PoolSound(d) && forall h :: h in d.nodes ==> h in d.hosts
  {
  }

  // ----- nothing of a later phase runs after a failure -----

  /** Nothing that a later phase sets has changed. */
  predicate LaterUntouched(n: Phase, r: Remote, r': Remote) {
    && (n != Third ==> r'.facts.services == r.facts.services)
    && (n == First ==>
          && r'.config == r.config && r'.facts.wg.active == r.facts.wg.active
          && r'.facts.podman.namespaces == r.facts.podman.namespaces && r'.facts.podman.firewallHash == r.facts.podman.firewallHash)
  }

  lemma PerformOnlyPhase(c: Setting, n: Phase, h: string, step: Step, r0: Remote, r: Remote)
    requires LaterUntouched(n, r0, r) && PhaseOf(step.kind) == n
    ensures LaterUntouched(n, r0, Perform(c, h, step, r))
  {
    hide WgConfig.RenderConfig, PeersFor, FirewallHash, ConfigHash, UnitHash;
  }

  lemma {:induction false} RunOnlyPhase(c: Setting, n: Phase, w: World, turns: seq<string>, h: string)
    requires h in w
    ensures h in RunPhase(c, n, w, turns).world && LaterUntouched(n, w[h], RunPhase(c, n, w, turns).world[h])
  {
    hide Program, Perform, LaterUntouched;
    if turns == [] {
      SameUntouched(n, w[h]);
    } else {
      var front, g := turns[..|turns| - 1], turns[|turns| - 1];
      RunOnlyPhase(c, n, w, front, h);
      var s := RunPhase(c, n, w, front);
      ProgramNames(c, n, h);
      if g == h && DoneBy(s, h) < |Program(c, n, h)| {
        var step := Program(c, n, h)[DoneBy(s, h)];
        assert Belongs(c.d, n, step);
        PerformOnlyPhase(c, n, h, step, w[h], s.world[h]);
      }
    }
  }

  lemma SameUntouched(n: Phase, r: Remote)
    ensures LaterUntouched(n, r, r)
  {
  }

  function FirstSetting(d: Desired, t: Texts, keys: string -> KeyPair, w: World): Setting
    requires BuildPlan(d, t, Reconstruct(w, d.hosts, d.namespaces)).Ok?
  {
    var cur := Reconstruct(w, d.hosts, d.namespaces);
    var plan := BuildPlan(d, t, cur).plan;
    Setting(d, t, plan.actions, cur, cur, plan.al, keys)
  }

  /** If a command of the first phase fails anywhere, the run stops and no host's tunnel file, service,
      networks, firewall or services have changed; and as long as the run has not got through the second
      phase, no host's services have. */
  lemma StopsBetweenPhases(d: Desired, t: Texts, keys: string -> KeyPair, w: World, turns: Turns, h: string)
    requires BuildPlan(d, t, Reconstruct(w, d.hosts, d.namespaces)).Ok? && h in w
    ensures var c := FirstSetting(d, t, keys, w);
            var s := RunPhase(c, First, w, turns.first);
            var r := Attempt(d, t, keys, w, turns);
            && !r.Refused? && h in r.world
            && (!Complete(c, First, s) ==> r.Stopped? && LaterUntouched(First, w[h], r.world[h]))
            && (Complete(c, First, s) && AllocateMesh(d, Reconstruct(s.world, d.hosts, d.namespaces)).Ok? ==>
                  var probed := Reconstruct(s.world, d.hosts, d.namespaces);
                  var c' := c.(probed := probed, al := AllocateMesh(d, probed).value);
                  !Complete(c', Second, RunPhase(c', Second, s.world, turns.second)) ==>
                    r.Stopped? && r.world[h].facts.services == w[h].facts.services)
  {
    hide BuildPlan, Reconstruct, AllocateMesh, RunPhase, Complete;
    var c := FirstSetting(d, t, keys, w);
    var s := RunPhase(c, First, w, turns.first);
    RunOnlyPhase(c, First, w, turns.first, h);
    var probed := Reconstruct(s.world, d.hosts, d.namespaces);
    if AllocateMesh(d, probed).Ok? {
      var c' := c.(probed := probed, al := AllocateMesh(d, probed).value);
      var s' := RunPhase(c', Second, s.world, turns.second);
      RunOnlyPhase(c', Second, s.world, turns.second, h);
      RunOnlyPhase(c', Third, s'.world, turns.third, h);
    }
  }
}
