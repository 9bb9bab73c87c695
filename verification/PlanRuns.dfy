/** Which remote steps a plan triggers: exactly those whose drift condition holds. */
module PlanRuns {
  import opened Text
  import opened Ordering
  import opened Mesh
  import opened Apply

  lemma RunAppend(a: seq<Action>, b: seq<Action>, h: string, k: Kind, ns: string)
    ensures ShouldRun(a + b, h, k, ns) <==> ShouldRun(a, h, k, ns) || ShouldRun(b, h, k, ns)
  {
    hide Matches;
    if ShouldRun(a, h, k, ns) {
      var i :| 0 <= i < |a| && Matches(a[i], h, k, ns);
      assert Matches((a + b)[i], h, k, ns);
    }
    if ShouldRun(b, h, k, ns) {
      var i :| 0 <= i < |b| && Matches(b[i], h, k, ns);
      assert Matches((a + b)[|a| + i], h, k, ns);
    }
  }

  lemma RunAppend6(a: seq<Action>, b: seq<Action>, c: seq<Action>, d: seq<Action>, e: seq<Action>, f: seq<Action>,
                   h: string, k: Kind, ns: string)
    ensures ShouldRun(a + b + c + d + e + f, h, k, ns) <==>
            || ShouldRun(a, h, k, ns) || ShouldRun(b, h, k, ns) || ShouldRun(c, h, k, ns)
            || ShouldRun(d, h, k, ns) || ShouldRun(e, h, k, ns) || ShouldRun(f, h, k, ns)
  {
    hide ShouldRun;
    RunAppend(a, b, h, k, ns);
    RunAppend(a + b, c, h, k, ns);
    RunAppend(a + b + c, d, h, k, ns);
    RunAppend(a + b + c + d, e, h, k, ns);
    RunAppend(a + b + c + d + e, f, h, k, ns);
  }

  lemma RunEmpty(h: string, k: Kind, ns: string)
    ensures !ShouldRun([], h, k, ns)
  {
  }

  lemma RunOne(a: Action, h: string, k: Kind, ns: string)
    ensures ShouldRun([a], h, k, ns) <==> Matches(a, h, k, ns)
  {
    assert [a][0] == a;
  }

  lemma RunWhen(b: bool, h': string, k': Kind, h: string, k: Kind, ns: string)
    ensures ShouldRun(When(b, h', k'), h, k, ns) <==> b && h == h' && k == k' && ns == ""
  {
    RunOne(Action(h', "", k', Plain), h, k, ns);
  }

  lemma RunKeys(h': string, k': Kind, keys: seq<string>, h: string, k: Kind, ns: string)
    requires k != k'
    ensures !ShouldRun(KeyActions(h', k', keys), h, k, ns)
  {
  }

  predicate IsNode(d: Desired, h: string) { h in d.nodes && d.installPodman }

  predicate IsCooldNode(d: Desired, h: string) { h in d.nodes && d.installCoold }

  predicate WantsSchema(t: Texts, s: ServerState) { !s.services.schemaExists || s.services.schemaHash != t.hash(t.schema) }

  predicate TunnelWants(d: Desired, cur: MeshState, al: Allocation, h: string, k: Kind) {
    var s := StateOf(cur, h);
    || (k == InstallWg && !s.wg.installed)
    || (k == GenKeyPair && !s.wg.keysExist)
    || (k == WriteConfig && NeedsConfig(d, cur, al, h))
    || (k == EnableService && !s.wg.active)
    || (k == ReloadService && s.wg.active && NeedsConfig(d, cur, al, h))
  }

  predicate PodmanWants(d: Desired, t: Texts, cur: MeshState, al: Allocation, h: string, k: Kind, ns: string) {
    var s := StateOf(cur, h);
    IsNode(d, h) &&
    (|| (k == InstallPodman && !s.podman.podmanInstalled)
     || (k == EnablePodmanSocket && !s.podman.podmanSocketActive)
     || (k == EnableIpForward && !s.podman.ipForward)
     || (k == CreateNetwork && ns in d.namespaces && MissingNetwork(s, ns))
     || (k == RecreateNetwork && ns in d.namespaces && DriftedNetwork(s, ns, SubnetOf(al, ns, h)))
     || (k == InstallFirewall && FirewallDrift(d, t, s, al, h)))
  }

  predicate CooldWants(d: Desired, t: Texts, cur: MeshState, al: Allocation, h: string, k: Kind) {
    var s := StateOf(cur, h);
    IsCooldNode(d, h) &&
    (|| (k == InstallCorrosion && VersionDrift(d.corrosionVersion, s.services.corrosionInstalled, s.services.corrosionVersion))
     || (k == InstallCoold && VersionDrift(d.cooldVersion, s.services.cooldInstalled, s.services.cooldVersion))
     || (k == WriteCorrosionConfig && s.services.corrosionConfigHash != ConfigHash(d, t, al, h))
     || (k == WriteCorrosionSchema && WantsSchema(t, s))
     || (k == InstallCorrosionService && CorrosionServiceDrift(d, t, s, al, h))
     || (k == InstallCooldService && CooldServiceDrift(d, t, s, al, h)))
  }

  /** The drift condition behind each kind of step (peer changes are not steps of their own). */
  predicate Wants(d: Desired, t: Texts, cur: MeshState, al: Allocation, h: string, k: Kind, ns: string) {
    TunnelWants(d, cur, al, h, k) || PodmanWants(d, t, cur, al, h, k, ns) || CooldWants(d, t, cur, al, h, k)
  }

  /** The questions `apply` asks: by namespace for the networks, by host for the rest. */
  predicate Asked(k: Kind, ns: string) {
    k != AddPeer && k != RemovePeer && (k == CreateNetwork || k == RecreateNetwork <==> ns != "")
  }

  lemma TunnelRuns(d: Desired, cur: MeshState, al: Allocation, g: string, h: string, k: Kind, ns: string)
    requires Asked(k, ns)
    ensures ShouldRun(WireGuardActions(d, cur, al, g), h, k, ns) <==> h == g && TunnelWants(d, cur, al, h, k)
  {
    hide ShouldRun, When, KeyActions, NeedsConfig, Difference, DesiredKeys, PeerKeys;
    var s := StateOf(cur, g);
    var want, have := DesiredKeys(d.hosts, cur, g), PeerKeys(s.wg.peers);
    var a1, a2 := When(!s.wg.installed, g, InstallWg), When(!s.wg.keysExist, g, GenKeyPair);
    var a3, a4 := KeyActions(g, AddPeer, Difference(want, have)), KeyActions(g, RemovePeer, Difference(have, want));
    var a5, a6 := When(NeedsConfig(d, cur, al, g), g, WriteConfig), When(!s.wg.active, g, EnableService);
    var a7 := When(s.wg.active && NeedsConfig(d, cur, al, g), g, ReloadService);
    RunAppend6(a1, a2, a3, a4, a5, a6, h, k, ns);
    RunAppend(a1 + a2 + a3 + a4 + a5 + a6, a7, h, k, ns);
    RunWhen(!s.wg.installed, g, InstallWg, h, k, ns);
    RunWhen(!s.wg.keysExist, g, GenKeyPair, h, k, ns);
    RunKeys(g, AddPeer, Difference(want, have), h, k, ns);
    RunKeys(g, RemovePeer, Difference(have, want), h, k, ns);
    RunWhen(NeedsConfig(d, cur, al, g), g, WriteConfig, h, k, ns);
    RunWhen(!s.wg.active, g, EnableService, h, k, ns);
    RunWhen(s.wg.active && NeedsConfig(d, cur, al, g), g, ReloadService, h, k, ns);
  }

  lemma {:induction false} NetworkRuns(s: ServerState, al: Allocation, nss: seq<string>, g: string, h: string, k: Kind, ns: string)
    requires ns != "" || (k != CreateNetwork && k != RecreateNetwork)
    ensures ShouldRun(NetworkActions(s, al, g, nss), h, k, ns) <==>
            h == g && ns in nss &&
            ((k == CreateNetwork && MissingNetwork(s, ns)) || (k == RecreateNetwork && DriftedNetwork(s, ns, SubnetOf(al, ns, g))))
  {
    if nss == [] {
      RunEmpty(h, k, ns);
    } else {
      hide ShouldRun;
      var front, m := nss[..|nss| - 1], nss[|nss| - 1];
      assert nss == front + [m];
      NetworkRuns(s, al, front, g, h, k, ns);
      RunAppend(NetworkActions(s, al, g, front), LastNetwork(s, al, g, m), h, k, ns);
      RunOne(Action(g, m, CreateNetwork, Plain), h, k, ns);
      RunOne(Action(g, m, RecreateNetwork, Plain), h, k, ns);
      RunEmpty(h, k, ns);
    }
  }

  function LastNetwork(s: ServerState, al: Allocation, h: string, ns: string): seq<Action> {
    if MissingNetwork(s, ns) then [Action(h, ns, CreateNetwork, Plain)]
    else if DriftedNetwork(s, ns, SubnetOf(al, ns, h)) then [Action(h, ns, RecreateNetwork, Plain)]
    else []
  }

  /** What the actions of a node trigger, one by one. */
  predicate PodmanTriggers(d: Desired, t: Texts, s: ServerState, al: Allocation, g: string, h: string, k: Kind, ns: string) {
    || (!s.podman.podmanInstalled && h == g && k == InstallPodman && ns == "")
    || (!s.podman.podmanSocketActive && h == g && k == EnablePodmanSocket && ns == "")
    || (!s.podman.ipForward && h == g && k == EnableIpForward && ns == "")
    || (h == g && ns in d.namespaces &&
        ((k == CreateNetwork && MissingNetwork(s, ns)) || (k == RecreateNetwork && DriftedNetwork(s, ns, SubnetOf(al, ns, g)))))
    || (FirewallDrift(d, t, s, al, g) && h == g && k == InstallFirewall && ns == "")
  }

  lemma PodmanParts(d: Desired, t: Texts, cur: MeshState, al: Allocation, g: string, h: string, k: Kind, ns: string)
    requires ns != "" || (k != CreateNetwork && k != RecreateNetwork)
    ensures ShouldRun(PodmanActions(d, t, cur, al, g), h, k, ns) <==>
            IsNode(d, g) && PodmanTriggers(d, t, StateOf(cur, g), al, g, h, k, ns)
  {
    hide ShouldRun, When, NetworkActions, FirewallDrift, MissingNetwork, DriftedNetwork, Sort, SubnetOf, StateOf;
    RunEmpty(h, k, ns);
    var s := StateOf(cur, g);
    var b1, b2, b3, b5 := !s.podman.podmanInstalled, !s.podman.podmanSocketActive, !s.podman.ipForward, FirewallDrift(d, t, s, al, g);
    var a1, a2, a3 := When(b1, g, InstallPodman), When(b2, g, EnablePodmanSocket), When(b3, g, EnableIpForward);
    var a4, a5 := NetworkActions(s, al, g, Sort(d.namespaces)), When(b5, g, InstallFirewall);
    RunAppend6(a1, a2, a3, a4, a5, [], h, k, ns);
    assert a1 + a2 + a3 + a4 + a5 + [] == a1 + a2 + a3 + a4 + a5;
    RunWhen(b1, g, InstallPodman, h, k, ns);
    RunWhen(b2, g, EnablePodmanSocket, h, k, ns);
    RunWhen(b3, g, EnableIpForward, h, k, ns);
    NetworkRuns(s, al, Sort(d.namespaces), g, h, k, ns);
    SortMembers(d.namespaces);
    RunWhen(b5, g, InstallFirewall, h, k, ns);
  }

  lemma PodmanRuns(d: Desired, t: Texts, cur: MeshState, al: Allocation, g: string, h: string, k: Kind, ns: string)
    requires Asked(k, ns)
    ensures ShouldRun(PodmanActions(d, t, cur, al, g), h, k, ns) <==> h == g && PodmanWants(d, t, cur, al, h, k, ns)
  {
    hide ShouldRun, PodmanActions, FirewallDrift, MissingNetwork, DriftedNetwork, SubnetOf, StateOf, IsNode;
    PodmanParts(d, t, cur, al, g, h, k, ns);
  }

  lemma SchemaRuns(t: Texts, s: ServerState, g: string, h: string, k: Kind, ns: string)
    ensures ShouldRun(SchemaAction(t, s, g), h, k, ns) <==> WantsSchema(t, s) && h == g && k == WriteCorrosionSchema && ns == ""
  {
    RunEmpty(h, k, ns);
    if WantsSchema(t, s) {
      RunOne(SchemaAction(t, s, g)[0], h, k, ns);
    }
  }

  lemma CooldRuns(d: Desired, t: Texts, cur: MeshState, al: Allocation, g: string, h: string, k: Kind, ns: string)
    requires Asked(k, ns)
    ensures ShouldRun(CooldActions(d, t, cur, al, g), h, k, ns) <==>
            h == g && CooldWants(d, t, cur, al, h, k)
  {
    hide ShouldRun, When, SchemaAction, VersionDrift, ConfigHash, CorrosionServiceDrift, CooldServiceDrift, WantsSchema;
    if !IsCooldNode(d, g) {
      RunEmpty(h, k, ns);
    } else {
      var s := StateOf(cur, g);
      var v1, v2 := VersionDrift(d.corrosionVersion, s.services.corrosionInstalled, s.services.corrosionVersion), VersionDrift(d.cooldVersion, s.services.cooldInstalled, s.services.cooldVersion);
      var cfg := s.services.corrosionConfigHash != ConfigHash(d, t, al, g);
      var a1, a2, a3 := When(v1, g, InstallCorrosion), When(v2, g, InstallCoold), When(cfg, g, WriteCorrosionConfig);
      var a4 := SchemaAction(t, s, g);
      var a5 := When(CorrosionServiceDrift(d, t, s, al, g), g, InstallCorrosionService);
      var a6 := When(CooldServiceDrift(d, t, s, al, g), g, InstallCooldService);
      RunAppend6(a1, a2, a3, a4, a5, a6, h, k, ns);
      RunWhen(v1, g, InstallCorrosion, h, k, ns);
      RunWhen(v2, g, InstallCoold, h, k, ns);
      RunWhen(cfg, g, WriteCorrosionConfig, h, k, ns);
      SchemaRuns(t, s, g, h, k, ns);
      RunWhen(CorrosionServiceDrift(d, t, s, al, g), g, InstallCorrosionService, h, k, ns);
      RunWhen(CooldServiceDrift(d, t, s, al, g), g, InstallCooldService, h, k, ns);
    }
  }

  lemma HostRuns(d: Desired, t: Texts, cur: MeshState, al: Allocation, g: string, h: string, k: Kind, ns: string)
    requires Asked(k, ns)
    ensures ShouldRun(HostActions(d, t, cur, al, g), h, k, ns) <==> h == g && Wants(d, t, cur, al, h, k, ns)
  {
    hide ShouldRun, WireGuardActions, PodmanActions, CooldActions, TunnelWants, PodmanWants, CooldWants;
    var a, b, c := WireGuardActions(d, cur, al, g), PodmanActions(d, t, cur, al, g), CooldActions(d, t, cur, al, g);
    RunAppend(a, b, h, k, ns);
    RunAppend(a + b, c, h, k, ns);
    TunnelRuns(d, cur, al, g, h, k, ns);
    PodmanRuns(d, t, cur, al, g, h, k, ns);
    CooldRuns(d, t, cur, al, g, h, k, ns);
  }

  /** A step runs on a host exactly when the host is in the mesh and drifts that way. */
  lemma {:induction false} PlanRuns(d: Desired, t: Texts, cur: MeshState, al: Allocation, hosts: seq<string>, h: string, k: Kind, ns: string)
    requires Asked(k, ns)
    ensures ShouldRun(AllActions(d, t, cur, al, hosts), h, k, ns) <==> h in hosts && Wants(d, t, cur, al, h, k, ns)
  {
    if hosts == [] {
      RunEmpty(h, k, ns);
    } else {
      hide ShouldRun, Wants, HostActions;
      var front, g := hosts[..|hosts| - 1], hosts[|hosts| - 1];
      assert hosts == front + [g];
      PlanRuns(d, t, cur, al, front, h, k, ns);
      RunAppend(AllActions(d, t, cur, al, front), HostActions(d, t, cur, al, g), h, k, ns);
      HostRuns(d, t, cur, al, g, h, k, ns);
    }
  }

  // ----- the same, step by step -----

  predicate TunnelKind(k: Kind) {
    k.InstallWg? || k.GenKeyPair? || k.WriteConfig? || k.EnableService? || k.ReloadService?
  }

  predicate PodmanKind(k: Kind) {
    || k.InstallPodman? || k.EnablePodmanSocket? || k.EnableIpForward? || k.CreateNetwork?
    || k.RecreateNetwork? || k.InstallFirewall?
  }

  lemma WantsKind(d: Desired, t: Texts, cur: MeshState, al: Allocation, h: string, k: Kind, ns: string)
    ensures TunnelWants(d, cur, al, h, k) ==> TunnelKind(k)
    ensures PodmanWants(d, t, cur, al, h, k, ns) ==> PodmanKind(k)
  {
    hide NeedsConfig, FirewallDrift, MissingNetwork, DriftedNetwork;
  }

  lemma CooldWantsKind(d: Desired, t: Texts, cur: MeshState, al: Allocation, h: string, k: Kind)
    ensures CooldWants(d, t, cur, al, h, k) ==> !TunnelKind(k) && !PodmanKind(k)
  {
    hide VersionDrift, CorrosionServiceDrift, CooldServiceDrift, ConfigHash, WantsSchema;
  }

  lemma KindsApart(k: Kind)
    ensures !(TunnelKind(k) && PodmanKind(k))
  {
  }

  /** The kinds of the three groups do not overlap. */
  lemma GroupOf(d: Desired, t: Texts, cur: MeshState, al: Allocation, h: string, k: Kind, ns: string)
    ensures Wants(d, t, cur, al, h, k, ns) <==>
            if TunnelKind(k) then TunnelWants(d, cur, al, h, k)
            else if PodmanKind(k) then PodmanWants(d, t, cur, al, h, k, ns)
            else CooldWants(d, t, cur, al, h, k)
  {
    hide TunnelWants, PodmanWants, CooldWants, TunnelKind, PodmanKind;
    WantsKind(d, t, cur, al, h, k, ns);
    CooldWantsKind(d, t, cur, al, h, k);
    KindsApart(k);
  }

  lemma StepRuns(d: Desired, t: Texts, cur: MeshState, al: Allocation, h: string, plan: seq<Action>, k: Kind, ns: string)
    requires h in d.hosts && plan == AllActions(d, t, cur, al, d.hosts) && Asked(k, ns)
    ensures ShouldRun(plan, h, k, ns) <==>
            if TunnelKind(k) then TunnelWants(d, cur, al, h, k)
            else if PodmanKind(k) then PodmanWants(d, t, cur, al, h, k, ns)
            else CooldWants(d, t, cur, al, h, k)
  {
    hide ShouldRun, AllActions, Wants, TunnelWants, PodmanWants, CooldWants, TunnelKind, PodmanKind;
    PlanRuns(d, t, cur, al, d.hosts, h, k, ns);
    GroupOf(d, t, cur, al, h, k, ns);
  }

  lemma TunnelSteps(d: Desired, t: Texts, cur: MeshState, al: Allocation, h: string, plan: seq<Action>)
    requires h in d.hosts && plan == AllActions(d, t, cur, al, d.hosts)
    ensures ShouldRun(plan, h, InstallWg, "") <==> !StateOf(cur, h).wg.installed
    ensures ShouldRun(plan, h, GenKeyPair, "") <==> !StateOf(cur, h).wg.keysExist
    ensures ShouldRun(plan, h, WriteConfig, "") <==> NeedsConfig(d, cur, al, h)
    ensures ShouldRun(plan, h, EnableService, "") <==> !StateOf(cur, h).wg.active
  {
    hide ShouldRun, AllActions, NeedsConfig;
    StepRuns(d, t, cur, al, h, plan, InstallWg, "");
    StepRuns(d, t, cur, al, h, plan, GenKeyPair, "");
    StepRuns(d, t, cur, al, h, plan, WriteConfig, "");
    StepRuns(d, t, cur, al, h, plan, EnableService, "");
  }

  lemma PodmanSteps(d: Desired, t: Texts, cur: MeshState, al: Allocation, h: string, plan: seq<Action>)
    requires h in d.hosts && IsNode(d, h) && plan == AllActions(d, t, cur, al, d.hosts)
    ensures ShouldRun(plan, h, InstallPodman, "") <==> !StateOf(cur, h).podman.podmanInstalled
    ensures ShouldRun(plan, h, EnablePodmanSocket, "") <==> !StateOf(cur, h).podman.podmanSocketActive
    ensures ShouldRun(plan, h, EnableIpForward, "") <==> !StateOf(cur, h).podman.ipForward
    ensures ShouldRun(plan, h, InstallFirewall, "") <==> FirewallDrift(d, t, StateOf(cur, h), al, h)
  {
    hide ShouldRun, AllActions, NeedsConfig, FirewallDrift;
    StepRuns(d, t, cur, al, h, plan, InstallPodman, "");
    StepRuns(d, t, cur, al, h, plan, EnablePodmanSocket, "");
    StepRuns(d, t, cur, al, h, plan, EnableIpForward, "");
    StepRuns(d, t, cur, al, h, plan, InstallFirewall, "");
  }

  lemma NetworkSteps(d: Desired, t: Texts, cur: MeshState, al: Allocation, h: string, ns: string, plan: seq<Action>)
    requires h in d.hosts && IsNode(d, h) && plan == AllActions(d, t, cur, al, d.hosts)
    requires ns in d.namespaces && ns != ""
    ensures ShouldRun(plan, h, CreateNetwork, ns) <==> MissingNetwork(StateOf(cur, h), ns)
    ensures ShouldRun(plan, h, RecreateNetwork, ns) <==> DriftedNetwork(StateOf(cur, h), ns, SubnetOf(al, ns, h))
  {
    hide ShouldRun, AllActions, NeedsConfig, MissingNetwork, DriftedNetwork;
    StepRuns(d, t, cur, al, h, plan, CreateNetwork, ns);
    StepRuns(d, t, cur, al, h, plan, RecreateNetwork, ns);
  }

  lemma CooldSteps(d: Desired, t: Texts, cur: MeshState, al: Allocation, h: string, plan: seq<Action>)
    requires h in d.hosts && IsCooldNode(d, h) && plan == AllActions(d, t, cur, al, d.hosts)
    ensures var s := StateOf(cur, h).services;
            && (ShouldRun(plan, h, InstallCorrosion, "") <==> VersionDrift(d.corrosionVersion, s.corrosionInstalled, s.corrosionVersion))
            && (ShouldRun(plan, h, InstallCoold, "") <==> VersionDrift(d.cooldVersion, s.cooldInstalled, s.cooldVersion))
            && (ShouldRun(plan, h, WriteCorrosionConfig, "") <==> s.corrosionConfigHash != ConfigHash(d, t, al, h))
    ensures var s := StateOf(cur, h);
            && (ShouldRun(plan, h, WriteCorrosionSchema, "") <==> WantsSchema(t, s))
            && (ShouldRun(plan, h, InstallCorrosionService, "") <==> CorrosionServiceDrift(d, t, s, al, h))
            && (ShouldRun(plan, h, InstallCooldService, "") <==> CooldServiceDrift(d, t, s, al, h))
  {
    hide ShouldRun, AllActions, CooldWants, TunnelKind, PodmanKind, VersionDrift, ConfigHash, WantsSchema, CorrosionServiceDrift,
         CooldServiceDrift;
    CooldStep(d, t, cur, al, h, plan, InstallCorrosion);
    CooldStep(d, t, cur, al, h, plan, InstallCoold);
    CooldStep(d, t, cur, al, h, plan, WriteCorrosionConfig);
    CooldStep(d, t, cur, al, h, plan, WriteCorrosionSchema);
    CooldStep(d, t, cur, al, h, plan, InstallCorrosionService);
    CooldStep(d, t, cur, al, h, plan, InstallCooldService);
    CooldDrifts(d, t, cur, al, h);
  }

  lemma CooldStep(d: Desired, t: Texts, cur: MeshState, al: Allocation, h: string, plan: seq<Action>, k: Kind)
    requires h in d.hosts && plan == AllActions(d, t, cur, al, d.hosts)
    requires k in {InstallCorrosion, InstallCoold, WriteCorrosionConfig, WriteCorrosionSchema, InstallCorrosionService, InstallCooldService}
    ensures ShouldRun(plan, h, k, "") <==> CooldWants(d, t, cur, al, h, k)
  {
    hide ShouldRun, AllActions, CooldWants;
    StepRuns(d, t, cur, al, h, plan, k, "");
  }

  lemma CooldDrifts(d: Desired, t: Texts, cur: MeshState, al: Allocation, h: string)
    requires IsCooldNode(d, h)
    ensures var s := StateOf(cur, h).services;
            && (CooldWants(d, t, cur, al, h, InstallCorrosion) <==> VersionDrift(d.corrosionVersion, s.corrosionInstalled, s.corrosionVersion))
            && (CooldWants(d, t, cur, al, h, InstallCoold) <==> VersionDrift(d.cooldVersion, s.cooldInstalled, s.cooldVersion))
            && (CooldWants(d, t, cur, al, h, WriteCorrosionConfig) <==> s.corrosionConfigHash != ConfigHash(d, t, al, h))
    ensures var s := StateOf(cur, h);
            && (CooldWants(d, t, cur, al, h, WriteCorrosionSchema) <==> WantsSchema(t, s))
            && (CooldWants(d, t, cur, al, h, InstallCorrosionService) <==> CorrosionServiceDrift(d, t, s, al, h))
            && (CooldWants(d, t, cur, al, h, InstallCooldService) <==> CooldServiceDrift(d, t, s, al, h))
  {
    hide VersionDrift, ConfigHash, WantsSchema, CorrosionServiceDrift, CooldServiceDrift;
  }
}
