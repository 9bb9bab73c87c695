/**
 The intent filter (`coolify-cli/src/wireguard/intent.rs`) and the complete planner built on it.
 */
module Intent {
  import opened Text
  import opened Mesh

  datatype Category = SafeAlways | PeerRefresh | DestructiveReplace | VersionBump | WipeDb | SchemaFirstWrite

  function Categorize(a: Action): Category {
    match a.kind
    case InstallWg | GenKeyPair | EnableService | InstallPodman | EnablePodmanSocket | EnableIpForward
       | CreateNetwork | AddPeer | RemovePeer => SafeAlways
    case WriteConfig | ReloadService | InstallFirewall | WriteCorrosionConfig
       | InstallCorrosionService | InstallCooldService => PeerRefresh
    case RecreateNetwork => DestructiveReplace
    case InstallCorrosion | InstallCoold => VersionBump
    case WriteCorrosionSchema => if a.detail == DbReset then WipeDb else SchemaFirstWrite
  }

  /** Why an action is skipped, if it is. */
  function Decide(a: Action, d: Desired): Option<Reason> {
    match d.intent
    case Bootstrap => None
    case Extend =>
      if a.host in d.newNodes then None
      else (
        match Categorize(a)
        case SafeAlways | PeerRefresh | SchemaFirstWrite => None
        case DestructiveReplace => if d.allowReplace then None else Some(DestructiveReplaceBlocked)
        case VersionBump => Some(VersionBumpSkipped)
        case WipeDb => Some(WipeRefused))
    case Upgrade =>
      match Categorize(a)
      case VersionBump => None
      case PeerRefresh =>
        if a.kind == InstallCorrosionService || a.kind == InstallCooldService then None else Some(PeerRefreshSkipped)
      case _ => Some(NotAVersionBump)
  }

  function Kept(actions: seq<Action>, d: Desired): seq<Action> {
    if actions == [] then []
    else
      var a := actions[|actions| - 1];
      Kept(actions[..|actions| - 1], d) + (if Decide(a, d).None? then [a] else [])
  }

  function SkippedOf(actions: seq<Action>, d: Desired): seq<Skipped> {
    if actions == [] then []
    else
      var a := actions[|actions| - 1];
      SkippedOf(actions[..|actions| - 1], d) +
      (match Decide(a, d) case None => [] case Some(reason) => [Skipped(a, reason)])
  }

  function FilterByIntent(p: Plan, d: Desired): Plan {
    if d.intent == Bootstrap then p
    else p.(actions := Kept(p.actions, d), skipped := p.skipped + SkippedOf(p.actions, d))
  }

  function BuildPlan(d: Desired, t: Texts, cur: MeshState): Planned {
    match RawPlan(d, t, cur)
    case Failed(e) => Failed(e)
    case Ok(p) => Planned.Ok(FilterByIntent(p, d))
  }

  method RunFilter(p: Plan, d: Desired) returns (r: Plan)
    ensures r == FilterByIntent(p, d)
  {
    if d.intent == Bootstrap {
      return p;
    }
    var kept, skipped := [], p.skipped;
    for i := 0 to |p.actions|
      invariant kept == Kept(p.actions[..i], d)
      invariant skipped == p.skipped + SkippedOf(p.actions[..i], d)
    {
      assert p.actions[..i + 1][..i] == p.actions[..i];
      var a := p.actions[i];
      match Decide(a, d)
      case Some(reason) => skipped := skipped + [Skipped(a, reason)];
      case None => kept := kept + [a];
    }
    assert p.actions[..|p.actions|] == p.actions;
    return p.(actions := kept, skipped := skipped);
  }

  method RunBuildPlan(d: Desired, t: Texts, cur: MeshState) returns (r: Planned)
    ensures r == BuildPlan(d, t, cur)
  {
    hide Check, AllocateMesh, WireGuardActions, PodmanActions, CooldActions, FilterByIntent;
    var e := Check(d, cur);
    if e.Some? {
      return Failed(e.value);
    }
    var al := AllocateMesh(d, cur);
    if al.Err? {
      return Failed(Allocating(al.error));
    }
    var actions := [];
    for i := 0 to |d.hosts|
      invariant actions == AllActions(d, t, cur, al.value, d.hosts[..i])
    {
      assert d.hosts[..i + 1][..i] == d.hosts[..i];
      var wg, podman := WireGuardActions(d, cur, al.value, d.hosts[i]), PodmanActions(d, t, cur, al.value, d.hosts[i]);
      var coold := CooldActions(d, t, cur, al.value, d.hosts[i]);
      assert actions + wg + podman + coold == actions + (wg + podman + coold);
      actions := actions + wg;
      actions := actions + podman;
      actions := actions + coold;
    }
    assert d.hosts[..|d.hosts|] == d.hosts;
    var p := RunFilter(Plan(actions, al.value, []), d);
    return Planned.Ok(p);
  }

  /** Puts two lists back together by asking, for each position, which one is next. */
  function Merge(kept: seq<Action>, skipped: seq<Skipped>, chosen: seq<bool>): (r: Option<seq<Action>>) {
    if chosen == [] then (if kept == [] && skipped == [] then Some([]) else None)
    else if chosen[|chosen| - 1] then
      (if kept == [] then None
       else match Merge(kept[..|kept| - 1], skipped, chosen[..|chosen| - 1])
            case None => None
            case Some(front) => Some(front + [kept[|kept| - 1]]))
    else
      (if skipped == [] then None
       else match Merge(kept, skipped[..|skipped| - 1], chosen[..|chosen| - 1])
            case None => None
            case Some(front) => Some(front + [skipped[|skipped| - 1].action]))
  }

  function Choices(actions: seq<Action>, d: Desired): (r: seq<bool>)
    ensures |r| == |actions|
  {
    seq(|actions|, i requires 0 <= i < |actions| => Decide(actions[i], d).None?)
  }

  /** The filter splits the plan into kept and skipped without loss: interleaving the two lists
      again gives the plan back, in order. */
  lemma {:induction false} FilterLosesNothing(actions: seq<Action>, d: Desired)
    ensures Merge(Kept(actions, d), SkippedOf(actions, d), Choices(actions, d)) == Some(actions)
  {
    hide Decide, Merge, Choices;
    if actions == [] {
      MergeNone(d);
    } else {
      var front, a := actions[..|actions| - 1], actions[|actions| - 1];
      FilterLosesNothing(front, d);
      MergeOne(Kept(front, d), SkippedOf(front, d), Choices(front, d), a, Decide(a, d));
      ChoicesSnoc(actions, d);
      assert front + [a] == actions;
      assert Kept(front, d) + [] == Kept(front, d) && SkippedOf(front, d) + [] == SkippedOf(front, d);
    }
  }

  lemma MergeNone(d: Desired)
    ensures Merge([], [], Choices([], d)) == Some([])
  {
  }

  lemma ChoicesSnoc(actions: seq<Action>, d: Desired)
    requires actions != []
    ensures Choices(actions, d) == Choices(actions[..|actions| - 1], d) + [Decide(actions[|actions| - 1], d).None?]
  {
    hide Decide;
  }

  lemma MergeOne(kept: seq<Action>, skipped: seq<Skipped>, chosen: seq<bool>, a: Action, reason: Option<Reason>)
    requires Merge(kept, skipped, chosen).Some?
    ensures reason.None? ==>
              Merge(kept + [a], skipped, chosen + [true]) == Some(Merge(kept, skipped, chosen).value + [a])
    ensures reason.Some? ==>
              Merge(kept, skipped + [Skipped(a, reason.value)], chosen + [false]) ==
              Some(Merge(kept, skipped, chosen).value + [a])
  {
    assert (kept + [a])[..|kept|] == kept;
    assert reason.Some? ==> (skipped + [Skipped(a, reason.value)])[..|skipped|] == skipped;
    assert (chosen + [true])[..|chosen|] == chosen && (chosen + [false])[..|chosen|] == chosen;
  }

  /** What a filtered plan may do to a host that was there before. */
  ghost predicate GentleAction(a: Action, d: Desired) {
    match d.intent
    case Bootstrap => true
    case Extend =>
      a.host in d.newNodes ||
      (a.kind != InstallCorrosion && a.kind != InstallCoold
       && !(a.kind == WriteCorrosionSchema && a.detail == DbReset)
       && (a.kind == RecreateNetwork ==> d.allowReplace))
    case Upgrade =>
      a.kind == InstallCorrosion || a.kind == InstallCoold || a.kind == InstallCorrosionService || a.kind == InstallCooldService
  }

  /** Extending never bumps a version or wipes the database of an existing host, nor replaces one
      of its networks unless told to; upgrading touches nothing but versions and their services;
      and nothing else is held back. */
  lemma {:induction false} FilterIsExact(actions: seq<Action>, d: Desired, a: Action)
    requires a in actions
    ensures a in Kept(actions, d) <==> GentleAction(a, d)
  {
    DecideGentle(a, d);
    hide Decide, GentleAction;
    var front, last := actions[..|actions| - 1], actions[|actions| - 1];
    assert actions == front + [last];
    KeptOnly(front, d, a);
    if a in front {
      FilterIsExact(front, d, a);
    }
  }

  lemma DecideGentle(a: Action, d: Desired)
    ensures Decide(a, d).None? <==> GentleAction(a, d)
  {
  }

  lemma {:induction false} KeptOnly(actions: seq<Action>, d: Desired, a: Action)
    ensures a in Kept(actions, d) ==> a in actions && Decide(a, d).None?
  {
    hide Decide;
    if actions != [] {
      KeptOnly(actions[..|actions| - 1], d, a);
    }
  }

  /** Why an action can be held back, by intent and kind. */
  ghost predicate ReasonFits(a: Action, d: Desired, reason: Reason) {
    match reason
    case DestructiveReplaceBlocked => d.intent == Extend && a.kind == RecreateNetwork && !d.allowReplace
    case VersionBumpSkipped => d.intent == Extend && (a.kind == InstallCorrosion || a.kind == InstallCoold)
    case WipeRefused => d.intent == Extend && a.kind == WriteCorrosionSchema && a.detail == DbReset
    case PeerRefreshSkipped =>
      d.intent == Upgrade && a.kind in {WriteConfig, ReloadService, InstallFirewall, WriteCorrosionConfig}
    case NotAVersionBump =>
      d.intent == Upgrade && a.kind !in {WriteConfig, ReloadService, InstallFirewall, WriteCorrosionConfig}
  }

  /** What is skipped was planned, is not gentle, and is skipped for the reason given. */
  lemma {:induction false} SkippedFor(actions: seq<Action>, d: Desired, s: Skipped)
    requires s in SkippedOf(actions, d)
    ensures s.action in actions && !GentleAction(s.action, d) && ReasonFits(s.action, d, s.reason)
  {
    var front, last := actions[..|actions| - 1], actions[|actions| - 1];
    assert actions == front + [last];
    if s in SkippedOf(front, d) {
      SkippedFor(front, d, s);
    }
  }
}
