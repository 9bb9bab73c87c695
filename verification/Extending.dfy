/** Adding hosts to a converged mesh. */
module Extending {
  import opened Ipv4
  import opened Ordering
  import opened Allocator
  import opened Text
  import opened Subnet
  import opened Namespaces
  import opened Mesh
  import opened Apply
  import opened PlanRuns
  import opened Convergence
  import opened Intent

  /** `d` asks for the same settings as `before` for more hosts; an old host keeps its role. */
  ghost predicate Extends(before: Desired, d: Desired) {
    && (forall h :: h in before.hosts ==> h in d.hosts)
    && (forall h :: h in before.nodes ==> h in d.nodes)
    && (forall h :: h in before.nodes ==> h in before.hosts)
    && (forall h :: h in before.hosts && h in d.nodes ==> h in before.nodes)
    && "" !in d.namespaces && PoolSound(before) && PoolSound(d)
    && d.interface == before.interface && d.mgmtPool == before.mgmtPool
    && d.containerPool == before.containerPool && d.containerPrefix == before.containerPrefix
    && d.installPodman == before.installPodman && d.namespaces == before.namespaces
    && d.defaultDeny == before.defaultDeny && d.installCoold == before.installCoold
  }

  /** The old plan found nothing to do, and the old hosts still report the same. */
  ghost predicate Converged(before: Desired, t: Texts, cur: MeshState, al: Allocation) {
    RawPlan(before, t, cur) == Planned.Ok(Plan([], al, []))
  }

  ghost predicate StillReports(before: Desired, cur: MeshState, now: MeshState) {
    forall h :: h in before.hosts ==> h in cur && h in now && now[h] == cur[h]
  }

  /** A bootstrap with nothing unsettling leaves a converged mesh behind. */
  lemma BootstrapConverges(d: Desired, t: Texts, keys: string -> KeyPair, w: Apply.World)
    requires d.intent == Bootstrap && Ready(d, keys, w)
    requires BuildPlan(d, t, Reconstruct(w, d.hosts, d.namespaces)).Ok?
    requires forall h :: h in d.hosts ==>
               !Unsettling(d, Reconstruct(w, d.hosts, d.namespaces), BuildPlan(d, t, Reconstruct(w, d.hosts, d.namespaces)).plan.al, h)
    ensures ApplyMesh(d, t, keys, w).Done?
    ensures Converged(d, t, Reconstruct(ApplyMesh(d, t, keys, w).world, d.hosts, d.namespaces),
                      BuildPlan(d, t, Reconstruct(w, d.hosts, d.namespaces)).plan.al)
  {
    hide Ready, Unsettling, Check, AllocateMesh, AllActions, ApplyMesh;
    Converges(d, t, keys, w);
  }

  /** A newcomer that sorts before `h` already claims its management address. */
  ghost predicate IpStolen(before: Desired, d: Desired, now: MeshState, h: string) {
    exists g :: g in d.hosts && g !in before.hosts && g in AssignedMgmt(now) && h in AssignedMgmt(now) && Less(g, h)
                && AssignedMgmt(now)[g] == AssignedMgmt(now)[h]
  }

  /** A newcomer's pair with an earlier key already claims the subnet of `h` in this namespace. */
  ghost predicate SubnetStolen(before: Desired, d: Desired, now: MeshState, ns: string, h: string) {
    && d.containerPrefix <= 32
    && PairStolen(d.containerPool, d.containerPrefix, AssignedSubnets(now),
                  Pairs(d.namespaces, d.nodes), Pairs(d.namespaces, before.nodes), (ns, h))
  }

  lemma ConvergedHost(before: Desired, t: Texts, cur: MeshState, al: Allocation, h: string, k: Kind, ns: string)
    requires Converged(before, t, cur, al) && h in before.hosts && Asked(k, ns)
    ensures !Wants(before, t, cur, al, h, k, ns)
  {
    hide AllActions, Wants, AllocateMesh, Check;
    PlanRuns.PlanRuns(before, t, cur, al, before.hosts, h, k, ns);
    RunEmpty(h, k, ns);
  }

  lemma ConvergedIps(before: Desired, t: Texts, cur: MeshState, al: Allocation)
    requires Converged(before, t, cur, al) && forall h :: h in before.hosts ==> h in cur
    ensures al.mgmt.Keys == Names(before.hosts) && Injective(al.mgmt)
    ensures forall h :: h in al.mgmt ==> UsableIp(before.mgmtPool, al.mgmt[h]) && cur[h].wg.mgmtIp == Some(al.mgmt[h])
  {
    hide AllActions, Check, AllocateNamespaced, AllocateMgmt, NeedsConfig, AssignedMgmt, AssignedSubnets, PodmanWants, CooldWants;
    assert AllocateMgmt(before.mgmtPool, AssignedMgmt(cur), before.hosts) == Result<map<string, U32>>.Ok(al.mgmt);
    MgmtIsGood(before.mgmtPool, AssignedMgmt(cur), before.hosts, al.mgmt);
    forall h | h in al.mgmt ensures cur[h].wg.mgmtIp == Some(al.mgmt[h]) {
      assert h in before.hosts;
      ConvergedHost(before, t, cur, al, h, WriteConfig, "");
      ConfigKept(before, cur, al, h);
    }
  }

  lemma MgmtIsGood(pool: Net, existing: map<string, U32>, hosts: seq<string>, ips: map<string, U32>)
    requires AllocateMgmt(pool, existing, hosts) == Result<map<string, U32>>.Ok(ips)
    ensures ips.Keys == Names(hosts) && Injective(ips) && forall h :: h in ips ==> UsableIp(pool, ips[h])
  {
    hide FirstFit, FirstIpClaim, Assign, Injective;
    AllocateMgmtExact(pool, existing, hosts);
  }

  /** An old host keeps its management address exactly when no newcomer takes it. */
  lemma IpsStay(before: Desired, d: Desired, t: Texts, cur: MeshState, now: MeshState, al: Allocation, al': Allocation, h: string)
    requires Extends(before, d) && Converged(before, t, cur, al) && StillReports(before, cur, now)
    requires AllocateMesh(d, now) == Result<Allocation>.Ok(al')
    requires h in before.hosts
    ensures MgmtOf(al', h) == MgmtOf(al, h) <==> !IpStolen(before, d, now, h)
  {
    hide AllocateMgmt, AllocateNamespaced, AssignedSubnets, Converged, Injective, UsableIp;
    ConvergedIps(before, t, cur, al);
    var existing := AssignedMgmt(now);
    forall g | g in al.mgmt ensures g in existing && existing[g] == al.mgmt[g] {
      assert g in before.hosts;
    }
    assert h in al.mgmt;
    MgmtIsGood(d.mgmtPool, existing, d.hosts, al'.mgmt);
    MgmtExtend(d.mgmtPool, al.mgmt, existing, before.hosts, d.hosts);
  }

  lemma ConvergedSubnets(before: Desired, t: Texts, cur: MeshState, al: Allocation)
    requires Converged(before, t, cur, al) && PoolSound(before) && before.installPodman && "" !in before.namespaces
    requires forall h :: h in before.hosts ==> h in cur
    requires forall h :: h in before.nodes ==> h in before.hosts
    ensures before.containerPool.prefix <= before.containerPrefix <= 32
    ensures GoodPairs(before.containerPool, before.containerPrefix, Pairs(before.namespaces, before.nodes), al.subnets)
    ensures Agree(AssignedSubnets(cur), al.subnets, Pairs(before.namespaces, before.nodes))
  {
    hide AllActions, Check, AllocateNamespaced, AllocateMgmt, AssignedMgmt, AssignedSubnets, Pairs, TunnelWants, CooldWants, Fitting, Separate;
    var pool, prefix, pairs := before.containerPool, before.containerPrefix, Pairs(before.namespaces, before.nodes);
    assert AllocateNamespaced(pool, prefix, AssignedSubnets(cur), before.namespaces, before.nodes) == Result<Subnets>.Ok(al.subnets);
    PrefixIsValid(pool, prefix, AssignedSubnets(cur), before.namespaces, before.nodes);
    NamespacedExact(pool, prefix, AssignedSubnets(cur), before.namespaces, before.nodes);
    forall p | p in pairs ensures Same(AssignedSubnets(cur), al.subnets, p) {
      PairsAre(before.namespaces, before.nodes, p);
      ConvergedHost(before, t, cur, al, p.1, CreateNetwork, p.0);
      ConvergedHost(before, t, cur, al, p.1, RecreateNetwork, p.0);
      SubnetOfAssigned(cur, p.0, p.1);
      FittingHas(pool, prefix, al.subnets, p);
    }
  }

  lemma FittingHas(pool: Net, prefix: PrefixLen, s: Subnets, p: Pair)
    requires Fitting(pool, prefix, s, p)
    ensures Has(s, p.0, p.1)
  {
  }

  /** And its subnet in each namespace likewise. */
  lemma SubnetStays(before: Desired, d: Desired, t: Texts, cur: MeshState, now: MeshState, al: Allocation, al': Allocation,
                    ns: string, h: string)
    requires Extends(before, d) && Converged(before, t, cur, al) && StillReports(before, cur, now)
    requires AllocateMesh(d, now) == Result<Allocation>.Ok(al')
    requires d.installPodman && h in before.nodes && ns in d.namespaces
    ensures Has(al.subnets, ns, h) && Has(al'.subnets, ns, h)
    ensures SubnetOf(al', ns, h) == SubnetOf(al, ns, h) <==> !SubnetStolen(before, d, now, ns, h)
  {
    hide AllocateMgmt, AllocateNamespaced, AssignedSubnets, AssignedMgmt, Pairs, Converged, PairStolen, Separate;
    ConvergedSubnets(before, t, cur, al);
    var pool, prefix, pairs, p := d.containerPool, d.containerPrefix, Pairs(d.namespaces, before.nodes), (ns, h);
    forall q | q in pairs ensures Same(AssignedSubnets(now), al.subnets, q) {
      PairsAre(d.namespaces, before.nodes, q);
      assert Same(AssignedSubnets(cur), al.subnets, q);
      SubnetOfAssigned(cur, q.0, q.1);
      SubnetOfAssigned(now, q.0, q.1);
    }
    PairsAre(d.namespaces, before.nodes, p);
    PairsAre(d.namespaces, d.nodes, p);
    NamespacedExact(pool, prefix, AssignedSubnets(now), d.namespaces, d.nodes);
    FittingHas(pool, prefix, al'.subnets, p);
    FittingHas(pool, prefix, al.subnets, p);
    NamespacedExtend(pool, prefix, al.subnets, AssignedSubnets(now), d.namespaces, before.nodes, d.nodes, al'.subnets, p);
  }

  /** Different subnets give different hashes of the firewall unit. */
  ghost predicate TellsSubnets(d: Desired, t: Texts) {
    forall a: seq<(string, Net)>, b: seq<(string, Net)> ::
      t.hash(t.firewallUnit(d.interface, a, d.defaultDeny)) == t.hash(t.firewallUnit(d.interface, b, d.defaultDeny)) ==> a == b
  }

  ghost predicate SomeStolen(before: Desired, d: Desired, now: MeshState, h: string) {
    exists ns :: ns in d.namespaces && SubnetStolen(before, d, now, ns, h)
  }

  /** The unfiltered plan for the larger mesh recreates a network of an old host exactly when a
      newcomer takes its subnet, installs its firewall again only then, and never writes its schema. */
  lemma OldHostsUndisturbed(before: Desired, d: Desired, t: Texts, cur: MeshState, now: MeshState, al: Allocation, h: string)
    requires Extends(before, d) && Converged(before, t, cur, al) && StillReports(before, cur, now)
    requires RawPlan(d, t, now).Ok?
    requires h in before.hosts
    ensures var plan := RawPlan(d, t, now).plan.actions;
            && (forall ns :: ns != "" ==>
                  (ShouldRun(plan, h, RecreateNetwork, ns) <==>
                   IsNode(d, h) && ns in d.namespaces && SubnetStolen(before, d, now, ns, h)))
            && (ShouldRun(plan, h, InstallFirewall, "") ==> IsNode(d, h) && SomeStolen(before, d, now, h))
            && (TellsSubnets(d, t) && IsNode(d, h) && SomeStolen(before, d, now, h) ==> ShouldRun(plan, h, InstallFirewall, ""))
            && !ShouldRun(plan, h, WriteCorrosionSchema, "")
  {
    hide AllActions, AllocateMesh, Check, ShouldRun, SubnetStolen, Converged, PoolSound, Wants, TellsSubnets, SomeStolen;
    var plan, al' := RawPlan(d, t, now).plan.actions, RawPlan(d, t, now).plan.al;
    assert plan == AllActions(d, t, now, al', d.hosts);
    forall ns | ns != ""
      ensures ShouldRun(plan, h, RecreateNetwork, ns) <==>
              IsNode(d, h) && ns in d.namespaces && SubnetStolen(before, d, now, ns, h)
    {
      PlanRuns.PlanRuns(d, t, now, al', d.hosts, h, RecreateNetwork, ns);
      RecreateIff(before, d, t, cur, now, al, al', h, ns);
    }
    PlanRuns.PlanRuns(d, t, now, al', d.hosts, h, InstallFirewall, "");
    FirewallIff(before, d, t, cur, now, al, al', h);
    PlanRuns.PlanRuns(d, t, now, al', d.hosts, h, WriteCorrosionSchema, "");
    ConvergedHost(before, t, cur, al, h, WriteCorrosionSchema, "");
    NoSchema(before, d, t, cur, now, al, al', h);
  }

  lemma RecreateIff(before: Desired, d: Desired, t: Texts, cur: MeshState, now: MeshState, al: Allocation, al': Allocation,
                    h: string, ns: string)
    requires Extends(before, d) && Converged(before, t, cur, al) && StillReports(before, cur, now)
    requires AllocateMesh(d, now) == Result<Allocation>.Ok(al') && h in before.hosts && ns != ""
    ensures Wants(d, t, now, al', h, RecreateNetwork, ns) <==>
            IsNode(d, h) && ns in d.namespaces && SubnetStolen(before, d, now, ns, h)
  {
    hide AllActions, AllocateMesh, Check, SubnetStolen, Converged, PoolSound, Has, TunnelWants, CooldWants, Wants, SubnetOf;
    GroupOf(before, t, cur, al, h, CreateNetwork, ns);
    GroupOf(before, t, cur, al, h, RecreateNetwork, ns);
    GroupOf(d, t, now, al', h, RecreateNetwork, ns);
    ConvergedHost(before, t, cur, al, h, CreateNetwork, ns);
    ConvergedHost(before, t, cur, al, h, RecreateNetwork, ns);
    if IsNode(d, h) && ns in d.namespaces {
      SubnetStays(before, d, t, cur, now, al, al', ns, h);
    }
  }

  lemma FirewallIff(before: Desired, d: Desired, t: Texts, cur: MeshState, now: MeshState, al: Allocation, al': Allocation, h: string)
    requires Extends(before, d) && Converged(before, t, cur, al) && StillReports(before, cur, now)
    requires AllocateMesh(d, now) == Result<Allocation>.Ok(al') && h in before.hosts
    ensures Wants(d, t, now, al', h, InstallFirewall, "") ==> IsNode(d, h) && SomeStolen(before, d, now, h)
    ensures TellsSubnets(d, t) && IsNode(d, h) && SomeStolen(before, d, now, h) ==> Wants(d, t, now, al', h, InstallFirewall, "")
  {
    hide AllActions, AllocateMesh, Check, SubnetStolen, Converged, PoolSound, Has, TunnelWants, CooldWants, Wants, SubnetOf;
    GroupOf(before, t, cur, al, h, InstallFirewall, "");
    GroupOf(d, t, now, al', h, InstallFirewall, "");
    ConvergedHost(before, t, cur, al, h, InstallFirewall, "");
    if IsNode(d, h) {
      SubnetsDiffer(before, d, t, cur, now, al, al', h);
    }
  }

  lemma SubnetsDiffer(before: Desired, d: Desired, t: Texts, cur: MeshState, now: MeshState, al: Allocation, al': Allocation, h: string)
    requires Extends(before, d) && Converged(before, t, cur, al) && StillReports(before, cur, now)
    requires AllocateMesh(d, now) == Result<Allocation>.Ok(al') && h in before.hosts && IsNode(d, h)
    ensures var nss := Sort(d.namespaces);
            HostSubnets(al', nss, h) == HostSubnets(al, nss, h) <==> !SomeStolen(before, d, now, h)
  {
    hide AllActions, AllocateMesh, Check, SubnetStolen, Converged, PoolSound, Has, SubnetOf;
    var nss := Sort(d.namespaces);
    var after, was := HostSubnets(al', nss, h), HostSubnets(al, nss, h);
    SortMembers(d.namespaces);
    forall i | 0 <= i < |nss| ensures after[i] == was[i] <==> !SubnetStolen(before, d, now, nss[i], h) {
      assert nss[i] in nss;
      SubnetStays(before, d, t, cur, now, al, al', nss[i], h);
    }
    if SomeStolen(before, d, now, h) {
      var ns :| ns in d.namespaces && SubnetStolen(before, d, now, ns, h);
      assert ns in nss;
      var i :| 0 <= i < |nss| && nss[i] == ns;
      assert after[i] != was[i];
    }
  }

  lemma NoSchema(before: Desired, d: Desired, t: Texts, cur: MeshState, now: MeshState, al: Allocation, al': Allocation, h: string)
    requires Extends(before, d) && StillReports(before, cur, now) && h in before.hosts
    requires !Wants(before, t, cur, al, h, WriteCorrosionSchema, "")
    ensures !Wants(d, t, now, al', h, WriteCorrosionSchema, "")
  {
    hide AllActions, PoolSound;
    GroupOf(before, t, cur, al, h, WriteCorrosionSchema, "");
    GroupOf(d, t, now, al', h, WriteCorrosionSchema, "");
    hide TunnelWants, PodmanWants, Wants;
  }
}
