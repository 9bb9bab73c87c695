/**
 Container-status reporting (`coold/src/sync.rs`): a host diffs what Podman lists against the last
 snapshot it reported, broadcasts the changes, and advances the snapshot only when all of them were
 accepted; a resync request clears the snapshot. A receiver folds the accepted updates of all hosts
 into a view by host and container.
 */
module Status {
  import opened Text
  import opened KeyedDiff

  datatype Container = Container(name: string, image: string, state: string)

  type Snapshot = map<Id, Container>

  datatype Update = Update(host: string, id: Id, name: string, status: string)

  /** What a receiver knows of a container. */
  datatype Shown = Shown(name: string, state: string)

  type Shows = map<Id, Shown>

  /** What it shows of each host. */
  type View = map<string, Shows>

  function Of(view: View, host: string): Shows { if host in view then view[host] else map[] }

  function UpdateOf(host: string, d: Delta<Container>): Update {
    match d
    case Upsert(id, c) => Update(host, id, c.name, c.state)
    case Delete(id) => Update(host, id, "", "removed")
  }

  function Updates(host: string, ds: seq<Delta<Container>>): (r: seq<Update>)
    ensures |r| == |ds|
  {
    seq(|ds|, i requires 0 <= i < |ds| => UpdateOf(host, ds[i]))
  }

  function Receive(view: View, u: Update): View {
    var shows := Of(view, u.host);
    view[u.host := if u.status == "removed" then shows - {u.id} else shows[u.id := Shown(u.name, u.status)]]
  }

  function ReceiveAll(view: View, us: seq<Update>): View {
    if us == [] then view else Receive(ReceiveAll(view, us[..|us| - 1]), us[|us| - 1])
  }

  /** The updates whose broadcast was accepted. */
  function Accepted(us: seq<Update>, ok: seq<bool>): seq<Update>
    requires |us| == |ok|
  {
    if us == [] then []
    else
      Accepted(us[..|us| - 1], ok[..|us| - 1]) + if ok[|us| - 1] then [us[|us| - 1]] else []
  }

  predicate All(ok: seq<bool>) { false !in ok }

  predicate Whole(ok: seq<bool>) { All(ok) || true !in ok }

  lemma {:induction false} AcceptedWhole(us: seq<Update>, ok: seq<bool>)
    requires |us| == |ok|
    ensures All(ok) ==> Accepted(us, ok) == us
    ensures true !in ok ==> Accepted(us, ok) == []
  {
    if us != [] {
      var n := |us| - 1;
      AcceptedWhole(us[..n], ok[..n]);
      assert us[..n] + [us[n]] == us;
      assert ok[n] in ok;
    }
  }

  // ----- the shape of one reconcile -----

  /** What the receiver is to show of a container: nothing for one Podman itself calls removed. */
  function ShownOf(c: Container): Option<Shown> {
    if c.state == "removed" then None else Some(Shown(c.name, c.state))
  }

  function Visible(s: Snapshot): Shows {
    map id | id in s && s[id].state != "removed" :: Shown(s[id].name, s[id].state)
  }

  function ShowDelta(d: Delta<Container>): Delta<Shown> {
    match d
    case Upsert(id, c) => if c.state == "removed" then Delete(id) else Upsert(id, Shown(c.name, c.state))
    case Delete(id) => Delete(id)
  }

  function ShowDeltas(ds: seq<Delta<Container>>): (r: seq<Delta<Shown>>)
    ensures |r| == |ds|
  {
    seq(|ds|, i requires 0 <= i < |ds| => ShowDelta(ds[i]))
  }

  lemma ReceiveOne(view: View, host: string, d: Delta<Container>)
    ensures Of(Receive(view, UpdateOf(host, d)), host) == Put(Of(view, host), ShowDelta(d))
  {
  }

  lemma {:induction false} ReceiveIsApply(view: View, host: string, ds: seq<Delta<Container>>)
    ensures Of(ReceiveAll(view, Updates(host, ds)), host) == Apply(Of(view, host), ShowDeltas(ds))
  {
    hide Receive, Of, Put;
    if ds != [] {
      var n := |ds| - 1;
      ReceiveIsApply(view, host, ds[..n]);
      assert Updates(host, ds)[..n] == Updates(host, ds[..n]);
      assert ShowDeltas(ds)[..n] == ShowDeltas(ds[..n]);
      ReceiveOne(ReceiveAll(view, Updates(host, ds[..n])), host, ds[n]);
    }
  }

  /** What is shown of other hosts is not touched by a host's updates, accepted or not. */
  lemma {:induction false} OthersUntouched(view: View, host: string, ds: seq<Delta<Container>>, ok: seq<bool>, g: string)
    requires |ok| == |ds| && g != host
    ensures Of(ReceiveAll(view, Accepted(Updates(host, ds), ok)), g) == Of(view, g)
  {
    hide Receive, Of;
    if ds != [] {
      var n := |ds| - 1;
      var us := Updates(host, ds);
      OthersUntouched(view, host, ds[..n], ok[..n], g);
      assert us[..n] == Updates(host, ds[..n]);
      var before := Accepted(us[..n], ok[..n]);
      assert (before + [us[n]])[..|before|] == before && before + [] == before;
      ReceiveElsewhere(ReceiveAll(view, before), us[n], g);
    }
  }

  lemma ReceiveElsewhere(view: View, u: Update, g: string)
    requires u.host != g
    ensures Of(Receive(view, u), g) == Of(view, g)
  {
  }

  /** What a receiver shows of each container after taking in a whole batch, whatever it showed
      before and in whatever order the batch came. */
  lemma BatchReceived(view: View, host: string, ds: seq<Delta<Container>>, all: Snapshot, base: Snapshot, id: Id)
    requires IsDiff(ds, all, base)
    ensures Lookup(Of(ReceiveAll(view, Updates(host, ds)), host), id) ==
            if Changed(id, all, base) then ShownOf(all[id])
            else if Gone(id, all, base) then None
            else Lookup(Of(view, host), id)
  {
    hide ReceiveAll, Updates, Apply, ShowDeltas, IsDiff, Of;
    var shown := ShowDeltas(ds);
    ReceiveIsApply(view, host, ds);
    ShownOneEach(ds, all, base, id);
    ApplyAt(Of(view, host), shown, id);
    if Changed(id, all, base) || Gone(id, all, base) {
      var i :| 0 <= i < |shown| && shown[i].id == id;
      assert Wanted(shown[i]) == if id in all then ShownOf(all[id]) else None;
    }
  }

  /** The shown changes are again one for each key that differs. */
  lemma ShownOneEach(ds: seq<Delta<Container>>, all: Snapshot, base: Snapshot, id: Id)
    requires IsDiff(ds, all, base)
    ensures Unique(ShowDeltas(ds))
    ensures Mentions(ShowDeltas(ds), id) <==> Changed(id, all, base) || Gone(id, all, base)
    ensures forall i :: 0 <= i < |ds| && ShowDeltas(ds)[i].id == id ==>
                          Wanted(ShowDeltas(ds)[i]) == if id in all then ShownOf(all[id]) else None
  {
    var shown := ShowDeltas(ds);
    assert forall i :: 0 <= i < |ds| ==> shown[i].id == ds[i].id && Needed(ds[i], all, base);
    if Changed(id, all, base) {
      var i :| 0 <= i < |ds| && ds[i] == Upsert(id, all[id]);
      assert shown[i].id == id;
    } else if Gone(id, all, base) {
      var i :| 0 <= i < |ds| && ds[i] == Delete(id);
      assert shown[i].id == id;
    }
  }

  // ----- the host as a machine -----

  datatype Sync = Sync(
    flag: bool,            // a resync is requested
    held: nat,             // reconciles that took a request and have not locked the snapshot yet
    snapshot: Snapshot,
    view: View)

  const START := Sync(false, 0, map[], map[])

  datatype Step =
    | Request
    | Take
    | Elsewhere(update: Update)    // the receiver takes in an update of another host
    | Locked(all: Snapshot, forced: bool, deltas: seq<Delta<Container>>, ok: seq<bool>)

  function Base(s: Sync, step: Step): Snapshot
    requires step.Locked?
  {
    if step.forced then map[] else s.snapshot
  }

  /** A reconcile is forced only if it took a request; it reports the difference in some order, and
      each report is accepted or not. */
  ghost predicate Legal(host: string, s: Sync, step: Step) {
    match step
    case Locked(all, forced, deltas, ok) => (forced ==> s.held > 0) && IsDiff(deltas, all, Base(s, step)) && |ok| == |deltas|
    case Elsewhere(u) => u.host != host
    case Request => true
    case Take => true
  }

  function NextSnapshot(base: Snapshot, all: Snapshot, ok: seq<bool>): Snapshot {
    if ok == [] then base else if All(ok) then all else base
  }

  function Exec(host: string, s: Sync, step: Step): Sync
    requires step.Locked? ==> |step.ok| == |step.deltas|
  {
    match step
    case Request => s.(flag := true)
    case Elsewhere(u) => s.(view := Receive(s.view, u))
    case Take => if s.flag then s.(flag := false, held := s.held + 1) else s
    case Locked(all, forced, deltas, ok) =>
      s.(held := if forced && s.held > 0 then s.held - 1 else s.held,
         snapshot := NextSnapshot(Base(s, step), all, ok),
         view := ReceiveAll(s.view, Accepted(Updates(host, deltas), ok)))
  }

  /** A run: the states it goes through, one more than its steps. */
  ghost predicate Trace(host: string, states: seq<Sync>, steps: seq<Step>) {
    && |states| == |steps| + 1
    && forall i :: 0 <= i < |steps| ==> Legal(host, states[i], steps[i]) && states[i + 1] == Exec(host, states[i], steps[i])
  }

  ghost predicate WholeSteps(steps: seq<Step>) {
    forall i :: 0 <= i < |steps| && steps[i].Locked? ==> Whole(steps[i].ok)
  }

  ghost predicate NoneForced(steps: seq<Step>) {
    forall i :: 0 <= i < |steps| && steps[i].Locked? ==> !steps[i].forced
  }

  // ----- agreement without a resync -----

  lemma VisibleAt(s: Snapshot, id: Id)
    ensures Lookup(Visible(s), id) == if id in s then ShownOf(s[id]) else None
  {
  }

  /** After a step that accepts the whole batch the snapshot is what Podman listed. */
  lemma AcceptedAdvances(s: Sync, host: string, step: Step)
    requires Legal(host, s, step) && step.Locked? && All(step.ok)
    ensures Exec(host, s, step).snapshot == step.all
    ensures Exec(host, s, step).view == ReceiveAll(s.view, Updates(host, step.deltas))
  {
    EmptyDiff(step.deltas, step.all, Base(s, step));
    AcceptedWhole(Updates(host, step.deltas), step.ok);
  }

  lemma RefusedHolds(s: Sync, host: string, step: Step)
    requires Legal(host, s, step) && step.Locked? && Whole(step.ok) && !All(step.ok)
    ensures Exec(host, s, step).snapshot == Base(s, step) && Exec(host, s, step).view == s.view
  {
    AcceptedWhole(Updates(host, step.deltas), step.ok);
  }

  lemma StepAgrees(s: Sync, host: string, step: Step)
    requires Legal(host, s, step) && (step.Locked? ==> Whole(step.ok) && !step.forced)
    requires Of(s.view, host) == Visible(s.snapshot)
    ensures Of(Exec(host, s, step).view, host) == Visible(Exec(host, s, step).snapshot)
  {
    hide Visible, IsDiff, Accepted, Updates, ReceiveAll, All;
    if step.Locked? {
      if All(step.ok) {
        AcceptedAdvances(s, host, step);
        var v := Of(ReceiveAll(s.view, Updates(host, step.deltas)), host);
        forall id ensures Lookup(v, id) == Lookup(Visible(step.all), id) {
          BatchReceived(s.view, host, step.deltas, step.all, s.snapshot, id);
          VisibleAt(step.all, id);
          VisibleAt(s.snapshot, id);
        }
        SameLookups(v, Visible(step.all));
      } else {
        RefusedHolds(s, host, step);
      }
    }
  }

  /** Over any run whose batches are each wholly accepted or wholly refused, and without a resync,
      the receiver shows exactly the snapshot's containers, removals included. */
  lemma {:induction false} ViewAgrees(host: string, states: seq<Sync>, steps: seq<Step>, n: nat)
    requires Trace(host, states, steps) && WholeSteps(steps) && NoneForced(steps)
    requires states[0].snapshot == map[] && Of(states[0].view, host) == map[] && n <= |steps|
    ensures Of(states[n].view, host) == Visible(states[n].snapshot)
  {
    hide Visible, Legal, Exec;
    if n == 0 {
      NothingVisible();
    } else {
      ViewAgrees(host, states, steps, n - 1);
      StepAgrees(states[n - 1], host, steps[n - 1]);
    }
  }

  lemma NothingVisible()
    ensures Visible(map[]) == map[]
  {
  }

  /** The view shows the very ids of the snapshot exactly when no container's own state is
      "removed". */
  lemma VisibleIsAll(s: Snapshot)
    ensures Visible(s).Keys == s.Keys <==> forall id :: id in s ==> s[id].state != "removed"
  {
    if Visible(s).Keys == s.Keys {
      assert forall id :: id in s ==> id in Visible(s).Keys;
    }
  }

  // ----- resync -----

  /** The view is right about every container of `s`; it may show others besides. */
  ghost predicate Covers(view: Shows, s: Snapshot) {
    forall id :: id in s ==> Lookup(view, id) == ShownOf(s[id])
  }

  lemma StepCovers(s: Sync, host: string, step: Step)
    requires Legal(host, s, step) && (step.Locked? ==> Whole(step.ok))
    requires Covers(Of(s.view, host), s.snapshot)
    ensures Covers(Of(Exec(host, s, step).view, host), Exec(host, s, step).snapshot)
  {
    hide IsDiff, Accepted, Updates, ReceiveAll, All;
    if step.Locked? {
      if All(step.ok) {
        AcceptedAdvances(s, host, step);
        forall id | id in step.all ensures Lookup(Of(Exec(host, s, step).view, host), id) == ShownOf(step.all[id]) {
          BatchReceived(s.view, host, step.deltas, step.all, Base(s, step), id);
        }
      } else {
        RefusedHolds(s, host, step);
      }
    }
  }

  /** With resyncs anywhere in the run, the view is still right about every container of the
      snapshot at every moment. */
  lemma {:induction false} ViewCovers(host: string, states: seq<Sync>, steps: seq<Step>, n: nat)
    requires Trace(host, states, steps) && WholeSteps(steps)
    requires states[0].snapshot == map[] && Of(states[0].view, host) == map[] && n <= |steps|
    ensures Covers(Of(states[n].view, host), states[n].snapshot)
  {
    hide Legal, Exec, Covers;
    if n == 0 {
      NothingToCover(Of(states[0].view, host));
    } else {
      ViewCovers(host, states, steps, n - 1);
      StepCovers(states[n - 1], host, steps[n - 1]);
    }
  }

  lemma NothingToCover(view: Shows)
    ensures Covers(view, map[])
  {
  }

  /** The step reports every container Podman listed. */
  ghost predicate ReportsAll(step: Step)
    requires step.Locked?
  {
    forall id :: id in step.all ==> Upsert(id, step.all[id]) in step.deltas
  }

  lemma ClearedReportsAll(s: Sync, host: string, step: Step)
    requires Legal(host, s, step) && step.Locked? && Base(s, step) == map[]
    ensures ReportsAll(step)
    ensures All(step.ok) ==> Covers(Of(Exec(host, s, step).view, host), step.all)
    ensures !All(step.ok) ==> Exec(host, s, step).snapshot == map[]
  {
    forall id | id in step.all ensures Upsert(id, step.all[id]) in step.deltas {
      assert Changed(id, step.all, map[]);
    }
    if All(step.ok) {
      AcceptedAdvances(s, host, step);
      forall id | id in step.all ensures Lookup(Of(Exec(host, s, step).view, host), id) == ShownOf(step.all[id]) {
        BatchReceived(s.view, host, step.deltas, step.all, map[], id);
      }
    }
  }

  ghost predicate AcceptedStep(step: Step) { step.Locked? && All(step.ok) }

  /** From any earlier view and snapshot, and even if batches were cut in the middle: from a forced
      reconcile on, up to and including the first one that is wholly accepted, every reconcile
      reports every container, and that one makes the view right about all that are present. */
  lemma {:induction false} ResyncReportsAll(host: string, states: seq<Sync>, steps: seq<Step>, n: nat)
    requires Trace(host, states, steps) && n < |steps|
    requires steps[0].Locked? && steps[0].forced
    requires forall i :: 0 <= i < n ==> !AcceptedStep(steps[i])
    ensures steps[n].Locked? ==> ReportsAll(steps[n])
    ensures AcceptedStep(steps[n]) ==> Covers(Of(states[n + 1].view, host), steps[n].all)
    ensures !AcceptedStep(steps[n]) ==> states[n + 1].snapshot == map[]
  {
    hide Legal, ReportsAll, Covers, Updates, ReceiveAll, Accepted, NextSnapshot;
    if n > 0 { ResyncReportsAll(host, states, steps, n - 1); }
    if steps[n].Locked? {
      ClearedReportsAll(states[n], host, steps[n]);
    }
  }

  /** A request is open until a reconcile with a cleared snapshot is wholly accepted. */
  ghost predicate Repairs(s: Sync, step: Step) { AcceptedStep(step) && Base(s, step) == map[] }

  /** An open request is never lost: it is still flagged, or a reconcile holds it, or the snapshot
      is still cleared, so that the next reconcile reports everything. */
  lemma {:induction false} ResyncNeverLost(host: string, states: seq<Sync>, steps: seq<Step>, n: nat)
    requires Trace(host, states, steps) && n < |steps|
    requires steps[0] == Request
    requires forall i :: 0 <= i <= n ==> !Repairs(states[i], steps[i])
    ensures states[n + 1].flag || states[n + 1].held > 0 || states[n + 1].snapshot == map[]
  {
    hide Updates, ReceiveAll, Accepted, IsDiff;
    if n > 0 {
      ResyncNeverLost(host, states, steps, n - 1);
      var s, step := states[n], steps[n];
      assert Legal(host, s, step) && states[n + 1] == Exec(host, s, step) && !Repairs(s, step);
    }
  }

  /** A wholly accepted forced reconcile leaves the view equal to the truth exactly when the view
      showed nothing that is no longer there: a removal is not reported again. */
  lemma ResyncExact(host: string, s: Sync, step: Step)
    requires Legal(host, s, step) && AcceptedStep(step) && step.forced
    ensures Of(Exec(host, s, step).view, host) == Visible(step.all) <==> Of(s.view, host).Keys <= step.all.Keys
  {
    hide Updates, ReceiveAll, Accepted, IsDiff, All;
    AcceptedAdvances(s, host, step);
    var v, before := Of(Exec(host, s, step).view, host), Of(s.view, host);
    forall id ensures Lookup(v, id) == if id in step.all then ShownOf(step.all[id]) else Lookup(before, id) {
      BatchReceived(s.view, host, step.deltas, step.all, map[], id);
    }
    if before.Keys <= step.all.Keys {
      forall id ensures Lookup(v, id) == Lookup(Visible(step.all), id) {
        VisibleAt(step.all, id);
      }
      SameLookups(v, Visible(step.all));
    } else {
      var id :| id in before.Keys && id !in step.all.Keys;
      assert Lookup(v, id) == Lookup(before, id);
    }
  }

  /** A container that went away while the snapshot was cleared stays in the view. */
  lemma StaleAfterResync(host: string)
    ensures var c := Container("web", "nginx", "running");
            var s := Sync(false, 1, map["a" := c], map[host := map["a" := Shown("web", "running")]]);
            var step := Locked(map[], true, [], []);
            && Of(s.view, host) == Visible(s.snapshot) && Legal(host, s, step) && AcceptedStep(step)
            && Exec(host, s, step).snapshot == map[] && Exec(host, s, step).view == s.view
  {
    assert Updates(host, []) == [];
  }

  // ----- the code -----

  class Reporter {
    const host: string
    var flag: bool
    var snapshot: Snapshot

    constructor (host: string)
      ensures this.host == host && !flag && snapshot == map[]
    {
      this.host, flag, snapshot := host, false, map[];
    }

    method RequestResync()
      modifies this`flag
      ensures flag
    {
      flag := true;
    }

    method TakeRequest() returns (taken: bool)
      modifies this`flag
      ensures taken == old(flag) && !flag
    {
      taken := flag;
      flag := false;
    }

    /** `accepts(k)` is whether the k-th broadcast was taken. The step is one the machine allows,
        and leaves the snapshot the machine leaves. */
    method Reconcile(all: Snapshot, force: bool, accepts: nat -> bool)
      returns (deltas: seq<Delta<Container>>, sent: seq<Update>, ok: seq<bool>)
      modifies this`snapshot
      ensures IsDiff(deltas, all, if force then map[] else old(snapshot))
      ensures sent == Updates(host, deltas) && |ok| == |deltas|
      ensures forall k :: 0 <= k < |ok| ==> ok[k] == accepts(k)
      ensures forall s: Sync :: s.snapshot == old(snapshot) && (force ==> s.held > 0) ==>
                                  var step := Locked(all, force, deltas, ok);
                                  Legal(host, s, step) && snapshot == Exec(host, s, step).snapshot
    {
      if force {
        snapshot := map[];
      }
      sent, ok := [], [];
      deltas := Diff(all, snapshot);
      if deltas == [] {
        return;
      }
      var updates := Updates(host, deltas);
      var allEmitted := true;
      for k := 0 to |updates|
        invariant |ok| == k && sent == updates[..k]
        invariant forall i :: 0 <= i < k ==> ok[i] == accepts(i)
        invariant allEmitted == All(ok)
      {
        sent := sent + [updates[k]];
        ok := ok + [accepts(k)];
        if !accepts(k) {
          allEmitted := false;
        }
      }
      if allEmitted {
        snapshot := all;
      }
    }
  }
}
