/** Small meshes on which the planner does not do what one might expect. */
module Examples {
  import opened Ipv4
  import opened Ordering
  import opened Text
  import opened Allocator
  import opened Subnet
  import opened Namespaces
  import opened Mesh
  import opened Intent
  import opened NamespaceProbe
  import opened Apply
  import opened PlanRuns
  import opened Convergence
  import opened Extending
  import opened Routing
  import WgConfig

  /** One namespace; addresses from 10.0.0.0/24, subnets of /24 from 10.1.0.0/16. */
  function Mesh1(hosts: seq<string>, coold: bool, version: string): Desired {
    Desired(
      hosts, hosts, "wg0", Net(0x0A00_0000, 24), Net(0x0A01_0000, 16), 24, 51820, map[], map[], true, ["n"], false,
      coold, version, version, 8787, 8080, false, None, Bootstrap, [], false, false)
  }

  lemma Pools()
    ensures Pow2(8) == 0x100 && Pow2(16) == 0x1_0000
    ensures var m, c := Net(0x0A00_0000, 24), Net(0x0A01_0000, 16);
            && m.Size() == 0x100 && m.Network() == 0x0A00_0000 && m.Broadcast() == 0x0A00_00FF
            && c.Network() == 0x0A01_0000 && c.Broadcast() == 0x0A01_FFFF
            && Capacity(c, 24) == 0x100 && |HostIps(m)| == 0xFE
  {
    assert Pow2(8) == 0x100;
    Pow2Add(8, 8);
    HostIpsAre(Net(0x0A00_0000, 24));
  }

  /** A host nothing is installed on. */
  const BARE := Remote(UNPROBED, "", "")

  const KEYS: string -> KeyPair := _ => KeyPair("p", "k")

  predicate OneOrTwo(hosts: seq<string>) { hosts == ["b"] || hosts == ["a", "b"] }

  lemma Named(hosts: seq<string>)
    requires OneOrTwo(hosts)
    ensures Distinct(hosts) && Distinct(["n"]) && Distinct(Keys(Pairs(["n"], hosts)))
  {
    var pairs := Pairs(["n"], hosts);
    assert ["n"][..0] == [] && Pairs([], hosts) == [];
    assert pairs == Row("n", hosts);
    if hosts == ["a", "b"] {
      var keys := Keys(pairs);
      assert keys[0] == Key("n", "a") && keys[1] == Key("n", "b");
      assert Key("n", "a")[2] == 'a' && Key("n", "b")[2] == 'b';
    }
  }

  /** Such a mesh can be planned whatever its hosts report. */
  lemma Plannable(hosts: seq<string>, coold: bool, version: string, t: Texts, cur: MeshState)
    requires OneOrTwo(hosts)
    ensures PoolSound(Mesh1(hosts, coold, version)) && BuildPlan(Mesh1(hosts, coold, version), t, cur).Ok?
  {
    hide BuildPlan, Pairs, Keys, HostIps, Capacity;
    var d := Mesh1(hosts, coold, version);
    Pools();
    Named(hosts);
    assert Consistent(d, cur);
    PlanSucceedsIff(d, t, cur);
  }

  lemma BareIsClean()
    ensures CleanRemote(BARE) && CleanNetworks(BARE, ["n"]) && CleanKey(KEYS("b")) && CleanLine("b")
  {
    assert CleanField("n");
  }

  lemma NameIsClean(d: Desired)
    requires d.namespaces == ["n"]
    ensures CleanNames(d)
  {
  }

  lemma OwnEndpoint(d: Desired)
    requires d.endpoints == map[]
    ensures EndpointFor(d, "b") == "b"
  {
    SplitNone("b", ':');
    assert IndexOf("b", ':') == 1;
  }

  lemma BareIsReady(coold: bool, version: string, t: Texts)
    ensures Ready(Mesh1(["b"], coold, version), KEYS, map["b" := BARE])
  {
    hide PoolSound, CleanRemote, CleanNetworks, CleanKey, CleanLine, CleanNames, EndpointFor, BuildPlan;
    var d := Mesh1(["b"], coold, version);
    BareIsClean();
    NameIsClean(d);
    OwnEndpoint(d);
    Plannable(["b"], coold, version, t, map[]);
  }

  /** With versions that are not pinned, the plan after a complete bootstrap is never empty. */
  lemma NightlyNeverSettles(t: Texts)
    ensures var d, w := Mesh1(["b"], true, "nightly"), map["b" := BARE];
            && Ready(d, KEYS, w) && ApplyMesh(d, t, KEYS, w).Done?
            && var again := BuildPlan(d, t, Reconstruct(ApplyMesh(d, t, KEYS, w).world, d.hosts, d.namespaces));
               again.Ok? && again.plan.actions != []
  {
    hide BuildPlan, ApplyMesh, Reconstruct, Ready, NeedsConfig, HasStaleKey;
    var d, w := Mesh1(["b"], true, "nightly"), map["b" := BARE];
    BareIsReady(true, "nightly", t);
    Plannable(["b"], true, "nightly", t, Reconstruct(w, d.hosts, d.namespaces));
    Converges(d, t, KEYS, w);
    assert "b" in d.hosts && Unsettling(d, Reconstruct(w, d.hosts, d.namespaces), BuildPlan(d, t, Reconstruct(w, d.hosts, d.namespaces)).plan.al, "b");
  }

  lemma BareSettles(t: Texts) returns (cur: MeshState, al: Allocation)
    ensures Converged(Mesh1(["b"], false, "1"), t, cur, al) && "b" in cur
  {
    hide BuildPlan, ApplyMesh, Ready, Converged, HasStaleKey;
    var d, w := Mesh1(["b"], false, "1"), map["b" := BARE];
    BareIsReady(false, "1", t);
    var first := Reconstruct(w, d.hosts, d.namespaces);
    Plannable(["b"], false, "1", t, first);
    BareNeedsConfig(d, first, BuildPlan(d, t, first).plan.al);
    BootstrapConverges(d, t, KEYS, w);
    cur, al := Reconstruct(ApplyMesh(d, t, KEYS, w).world, d.hosts, d.namespaces), BuildPlan(d, t, first).plan.al;
    InstalledIsProbed(d, t, cur, al);
  }

  lemma BareNeedsConfig(d: Desired, cur: MeshState, al: Allocation)
    requires cur == Reconstruct(map["b" := BARE], ["b"], ["n"])
    ensures NeedsConfig(d, cur, al, "b")
  {
    hide ParseNamespaces, WgConfig.ParseConfig, Difference, DesiredKeys, PeerKeys, KeyPending;
  }

  lemma InstalledIsProbed(d: Desired, t: Texts, cur: MeshState, al: Allocation)
    requires d == Mesh1(["b"], false, "1") && Converged(d, t, cur, al)
    ensures "b" in cur
  {
    hide Converged, PodmanWants, CooldWants, NeedsConfig;
    ConvergedHost(d, t, cur, al, "b", InstallWg, "");
  }

  lemma LessKeys()
    ensures Less("a", "b") && Less(Key("n", "a"), Key("n", "b")) && Key("n", "a") != Key("n", "b")
  {
    assert Key("n", "a") == "n/a" && Key("n", "b") == "n/b";
    assert "n/a"[1..] == "/a" && "n/b"[1..] == "/b" && "/a"[1..] == "a" && "/b"[1..] == "b";
  }

  /** A mesh of one settled host "b" is extended by a host "a" that already reports the address and
      the network "b" has: "b" loses both, and its network is to be recreated. */
  lemma NewcomerTakesOver(t: Texts)
    returns (before: Desired, d: Desired, cur: MeshState, now: MeshState, al: Allocation, al': Allocation)
    ensures Extends(before, d) && Converged(before, t, cur, al) && StillReports(before, cur, now)
    ensures AllocateMesh(d, now) == Result<Allocation>.Ok(al') && RawPlan(d, t, now).Ok? && "b" in before.hosts
    ensures MgmtOf(al', "b") != MgmtOf(al, "b") && SubnetOf(al', "n", "b") != SubnetOf(al, "n", "b")
    ensures ShouldRun(RawPlan(d, t, now).plan.actions, "b", RecreateNetwork, "n")
  {
    hide Converged, RawPlan, AllocateMesh, ShouldRun, IpStolen, SubnetStolen, PoolSound, AssignedMgmt, AssignedSubnets, BuildPlan,
         MgmtOf, SubnetOf;
    before, d := Mesh1(["b"], false, "1"), Mesh1(["a", "b"], false, "1");
    cur, al := BareSettles(t);
    now := cur["a" := cur["b"]];
    Plannable(["a", "b"], false, "1", t, now);
    Plannable(["b"], false, "1", t, now);
    RawIsPlanned(d, t, now);
    al' := RawPlan(d, t, now).plan.al;
    AddressTaken(before, d, t, cur, now, al);
    SubnetTaken(before, d, t, cur, now, al);
    IpsStay(before, d, t, cur, now, al, al', "b");
    SubnetStays(before, d, t, cur, now, al, al', "n", "b");
    OldHostsUndisturbed(before, d, t, cur, now, al, "b");
  }

  lemma RawIsPlanned(d: Desired, t: Texts, cur: MeshState)
    requires BuildPlan(d, t, cur).Ok?
    ensures RawPlan(d, t, cur).Ok? && AllocateMesh(d, cur) == Result<Allocation>.Ok(RawPlan(d, t, cur).plan.al)
  {
    hide Check, AllocateMesh, AllActions;
  }

  lemma AddressTaken(before: Desired, d: Desired, t: Texts, cur: MeshState, now: MeshState, al: Allocation)
    requires before == Mesh1(["b"], false, "1") && d == Mesh1(["a", "b"], false, "1")
    requires Converged(before, t, cur, al) && "b" in cur && now == cur["a" := cur["b"]]
    ensures IpStolen(before, d, now, "b")
  {
    hide Converged, UsableIp, Injective, Less;
    ConvergedIps(before, t, cur, al);
    LessKeys();
    assert "b" in al.mgmt;
    assert "a" in AssignedMgmt(now) && "b" in AssignedMgmt(now);
    assert "a" in d.hosts && "a" !in before.hosts;
  }

  lemma SubnetTaken(before: Desired, d: Desired, t: Texts, cur: MeshState, now: MeshState, al: Allocation)
    requires before == Mesh1(["b"], false, "1") && d == Mesh1(["a", "b"], false, "1")
    requires Converged(before, t, cur, al) && "b" in cur && now == cur["a" := cur["b"]]
    requires PoolSound(before)
    ensures SubnetStolen(before, d, now, "n", "b")
  {
    hide Converged, Less, Key, AssignedSubnets, PoolSound, Pairs, Separate, SubnetsIn;
    ConvergedSubnets(before, t, cur, al);
    LessKeys();
    var p, q := ("n", "b"), ("n", "a");
    PairsAre(["n"], ["b"], p);
    PairsAre(["n"], ["b"], q);
    PairsAre(["n"], ["a", "b"], q);
    SubnetOfAssigned(cur, "n", "b");
    SubnetOfAssigned(now, "n", "a");
    SubnetOfAssigned(now, "n", "b");
    assert Same(AssignedSubnets(cur), al.subnets, p) && Fitting(before.containerPool, 24, al.subnets, p);
    var net := al.subnets["n"]["b"];
    WithinPool(before.containerPool, net);
    assert Usable(d.containerPool, 24, AssignedSubnets(now)["n"]["a"]);
  }

  lemma WithinPool(pool: Net, net: Net)
    requires Inside(pool, net)
    ensures pool.Contains(net.Network())
  {
    net.WithinSpace();
  }

  /** Two hosts with known keys: in the file of "a" the address of "b" goes to the entry of "b". */
  lemma RouteToNeighbour(t: Texts, cur: MeshState, probed: MeshState)
    requires forall h :: h in {"a", "b"} ==> h in probed && probed[h].wg.publicKey != ""
    ensures var d := Mesh1(["a", "b"], false, "1");
            && AllocateMesh(d, cur).Ok?
            && var al := AllocateMesh(d, cur).value;
               var peers := PeersFor(d, probed, al, d.hosts, "a");
               exists i :: 0 <= i < |peers| && peers[i] == PeerFor(d, probed, al, "b") && RoutesTo(peers[i], MgmtOf(al, "b"))
  {
    hide AllocateMesh, RawPlan, BuildPlan, PoolSound, PeersFor, PeerFor, RoutesTo, MgmtOf;
    var d := Mesh1(["a", "b"], false, "1");
    Plannable(["a", "b"], false, "1", t, cur);
    RawIsPlanned(d, t, cur);
    var al := AllocateMesh(d, cur).value;
    Pools();
    assert DisjointPools(d);
    UniqueRoute(d, cur, probed, al, "a", "b", MgmtOf(al, "b"));
  }
}
