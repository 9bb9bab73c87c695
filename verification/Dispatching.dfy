/**
 What holds of the pending map when no id is reused, and when dispatchers also insert, park and send
 in this order (`flux/src/unix_bridge.rs`, `flux/src/main.rs`).
 */
module Dispatching {
  import opened PendingProtocol

  // ----- no request id is reused -----

  /** An insert that succeeds uses an id no insert has used before. */
  predicate NewId(w: World, step: Step) {
    step.InsertCommit? && step.id in w.inserting && step.id !in w.entries ==> step.id !in w.inserted
  }

  ghost predicate NoReuse(l: Limits, steps: seq<Step>) {
    forall n :: 0 <= n < |steps| ==> NewId(Run(l, steps[..n]), steps[n])
  }

  predicate IsLanded(w: World, id: Id) { id in w.entries ==> w.entries[id].state.Landed? }

  predicate Overdue(w: World, l: Limits, id: Id) {
    id in w.entries && w.entries[id].state.Waiting? ==> Elapsed(w.entries[id].startedAt, w.now) >= l.timeout
  }

  /** A removal that is still to come can only hit an entry that has landed, or one that was
      already overdue when a sweep looked at it. */
  ghost predicate Tracked(w: World, l: Limits) {
    && w.entries.Keys <= w.inserted
    && (forall id :: id in w.claiming ==> id in w.inserted && IsLanded(w, id))
    && (forall id :: id in w.delivering ==> id in w.inserted && IsLanded(w, id))
    && (forall id :: id in w.doomed ==> id in w.inserted && Overdue(w, l, id))
  }

  lemma EvictTracks(w: World, l: Limits, id: Id)
    requires Tracked(w, l)
    ensures Tracked(Evict(w, id), l)
  {
  }

  /** Forgetting a pending removal keeps the others as they are. */
  lemma FewerTokens(w: World, l: Limits, w': World)
    requires Tracked(w, l)
    requires w'.entries == w.entries && w'.inserted == w.inserted && w'.now == w.now
    requires w'.claiming <= w.claiming && w'.delivering <= w.delivering && w'.doomed <= w.doomed
    ensures Tracked(w', l)
  {
    assert forall id :: id in w'.claiming ==> id in w.claiming;
    assert forall id :: id in w'.delivering ==> id in w.delivering;
    forall id | id in w'.doomed ensures Overdue(w', l, id) {
      assert id in w.doomed && Overdue(w, l, id);
    }
  }

  lemma StepTracks(w: World, l: Limits, step: Step)
    requires Tracked(w, l) && NewId(w, step)
    ensures Tracked(Exec(w, l, step), l)
  {
    hide Tracked, Park, Deliver, Evict, Expired, NewId, Exec;
    match step
    case ParkRemove(id) => ParkRemoveTracks(w, l, id);
    case DeliverRemove(id) => DeliverRemoveTracks(w, l, id);
    case SweepRemove(id) => SweepRemoveTracks(w, l, id);
    case Remove(id) => RemoveTracks(w, l, id);
    case Tick(seconds) => TickTracks(w, l, seconds);
    case DeliverLocked(id, body) =>
      DeliverTracks(w, l, id, body);
      LockedSteps(w, l, id, body);
    case ParkLocked(id) =>
      ParkTracks(w, l, id);
      LockedSteps(w, l, id, "");
    case InsertCommit(id) => InsertTracks(w, l, id);
    case SweepLook(id, at) => LookTracks(w, l, id, at);
    case InsertCheck(id) => CheckTracks(w, l, id);
    case Send(id) => SendTracks(w, l, id);
  }

  lemma LockedSteps(w: World, l: Limits, id: Id, body: Body)
    ensures Exec(w, l, DeliverLocked(id, body)) == Deliver(w, id, body)
    ensures Exec(w, l, ParkLocked(id)) == Park(w, id)
  {
    hide Deliver, Park;
  }

  lemma ParkRemoveTracks(w: World, l: Limits, id: Id)
    requires Tracked(w, l)
    ensures Tracked(Exec(w, l, ParkRemove(id)), l)
  {
    hide Tracked, Evict;
    var v := w.(claiming := w.claiming - multiset{id});
    FewerTokens(w, l, v);
    EvictTracks(v, l, id);
  }

  lemma DeliverRemoveTracks(w: World, l: Limits, id: Id)
    requires Tracked(w, l)
    ensures Tracked(Exec(w, l, DeliverRemove(id)), l)
  {
    hide Tracked, Evict;
    var v := w.(delivering := w.delivering - multiset{id});
    FewerTokens(w, l, v);
    EvictTracks(v, l, id);
  }

  lemma SweepRemoveTracks(w: World, l: Limits, id: Id)
    requires Tracked(w, l)
    ensures Tracked(Exec(w, l, SweepRemove(id)), l)
  {
    hide Tracked, Evict;
    var v := w.(doomed := w.doomed - multiset{id});
    FewerTokens(w, l, v);
    EvictTracks(v, l, id);
  }

  lemma RemoveTracks(w: World, l: Limits, id: Id)
    requires Tracked(w, l)
    ensures Tracked(Exec(w, l, Remove(id)), l)
  {
    hide Tracked, Evict;
    EvictTracks(w, l, id);
  }

  lemma CheckTracks(w: World, l: Limits, id: Id)
    requires Tracked(w, l)
    ensures Tracked(Exec(w, l, InsertCheck(id)), l)
  {
    hide Tracked;
    FewerTokens(w, l, Exec(w, l, InsertCheck(id)));
  }

  lemma SendTracks(w: World, l: Limits, id: Id)
    requires Tracked(w, l)
    ensures Tracked(Exec(w, l, Send(id)), l)
  {
    hide Tracked;
    FewerTokens(w, l, Exec(w, l, Send(id)));
  }

  lemma TickTracks(w: World, l: Limits, seconds: nat)
    requires Tracked(w, l)
    ensures Tracked(Exec(w, l, Tick(seconds)), l)
  {
    var w' := w.(now := w.now + seconds);
    forall id | id in w'.doomed ensures Overdue(w', l, id) {
      assert Overdue(w, l, id);
    }
  }

  lemma DeliverTracks(w: World, l: Limits, id: Id, body: Body)
    requires Tracked(w, l)
    ensures Tracked(Deliver(w, id, body), l)
  {
    var w' := Deliver(w, id, body);
    forall g | g in w'.doomed ensures Overdue(w', l, g) {
      assert Overdue(w, l, g);
    }
    assert w'.entries.Keys == w.entries.Keys;
    forall g | g in w'.delivering ensures g in w'.inserted && IsLanded(w', g) {
      assert g in w.delivering || g == id;
      assert g in w.delivering ==> IsLanded(w, g);
    }
    forall g | g in w'.claiming ensures IsLanded(w', g) {
      assert IsLanded(w, g);
    }
  }

  lemma ParkTracks(w: World, l: Limits, id: Id)
    requires Tracked(w, l)
    ensures Tracked(Park(w, id), l)
  {
    var w' := Park(w, id);
    assert w'.entries.Keys == w.entries.Keys;
    forall g | g in w'.doomed ensures Overdue(w', l, g) {
      assert Overdue(w, l, g);
    }
    forall g | g in w'.delivering ensures IsLanded(w', g) {
      assert IsLanded(w, g);
    }
    forall g | g in w'.claiming ensures g in w'.inserted && IsLanded(w', g) {
      assert g in w.claiming || g == id;
      assert g in w.claiming ==> IsLanded(w, g);
    }
  }

  lemma InsertTracks(w: World, l: Limits, id: Id)
    requires Tracked(w, l) && NewId(w, InsertCommit(id))
    ensures Tracked(Exec(w, l, InsertCommit(id)), l)
  {
    var w' := Exec(w, l, InsertCommit(id));
    forall g | g in w'.doomed ensures g in w'.inserted && Overdue(w', l, g) {
      assert Overdue(w, l, g);
    }
    forall g | g in w'.delivering ensures g in w'.inserted && IsLanded(w', g) {
      assert IsLanded(w, g);
    }
    forall g | g in w'.claiming ensures g in w'.inserted && IsLanded(w', g) {
      assert IsLanded(w, g);
    }
  }

  lemma LookTracks(w: World, l: Limits, id: Id, at: nat)
    requires Tracked(w, l)
    ensures Tracked(Exec(w, l, SweepLook(id, at)), l)
  {
    var w' := Exec(w, l, SweepLook(id, at));
    forall g | g in w'.doomed ensures g in w'.inserted && Overdue(w', l, g) {
      assert g in w.doomed || g == id;
      assert g in w.doomed ==> Overdue(w, l, g);
    }
  }

  lemma {:induction false} RunTracks(l: Limits, steps: seq<Step>)
    requires NoReuse(l, steps)
    ensures Tracked(Run(l, steps), l)
  {
    hide Exec, NewId, Tracked;
    if steps == [] {
      StartTracks(l);
    } else {
      var front := steps[..|steps| - 1];
      assert forall n :: 0 <= n < |front| ==> front[..n] == steps[..n] && front[n] == steps[n];
      RunTracks(l, front);
      assert NewId(Run(l, steps[..|front|]), steps[|front|]);
      StepTracks(Run(l, front), l, steps[|front|]);
    }
  }

  lemma StartTracks(l: Limits)
    ensures Tracked(START, l)
  {
  }

  predicate WaitingAt(w: World, id: Id) { id in w.entries && w.entries[id].state.Waiting? }

  lemma EvictDrops(w: World, id: Id)
    ensures Evict(w, id).dropped != w.dropped ==> WaitingAt(w, id)
  {
    assert w.dropped + [] == w.dropped;
  }

  lemma RemovalsDrop(w: World, l: Limits, id: Id)
    ensures Exec(w, l, ParkRemove(id)).dropped != w.dropped ==> id in w.claiming && WaitingAt(w, id)
    ensures Exec(w, l, DeliverRemove(id)).dropped != w.dropped ==> id in w.delivering && WaitingAt(w, id)
    ensures Exec(w, l, SweepRemove(id)).dropped != w.dropped ==> id in w.doomed && WaitingAt(w, id)
  {
    hide Evict;
    EvictDrops(w.(claiming := w.claiming - multiset{id}), id);
    EvictDrops(w.(delivering := w.delivering - multiset{id}), id);
    EvictDrops(w.(doomed := w.doomed - multiset{id}), id);
  }

  lemma OthersDropNothing(w: World, l: Limits, step: Step)
    requires !step.Remove? && !step.ParkRemove? && !step.DeliverRemove? && !step.SweepRemove?
    ensures Exec(w, l, step).dropped == w.dropped
  {
    hide Evict, Expired;
  }

  /** Though a sweep looks first and removes later, with no id reused a step drops parked sinks
      only if it is a plain remove, or a sweep of an entry that has waited at least the timeout. */
  lemma RemovesAndSweeps(l: Limits, steps: seq<Step>, step: Step)
    requires NoReuse(l, steps)
    ensures var w := Run(l, steps);
            Exec(w, l, step).dropped != w.dropped ==>
            || step.Remove?
            || (step.SweepRemove? && step.id in w.entries && w.entries[step.id].state.Waiting?
                && Elapsed(w.entries[step.id].startedAt, w.now) >= l.timeout)
  {
    hide Exec, Run, NoReuse;
    RunTracks(l, steps);
    var w := Run(l, steps);
    if step.ParkRemove? || step.DeliverRemove? || step.SweepRemove? {
      RemovalsDrop(w, l, step.id);
      assert step.id in w.claiming ==> IsLanded(w, step.id);
      assert step.id in w.delivering ==> IsLanded(w, step.id);
      assert step.id in w.doomed ==> Overdue(w, l, step.id);
    } else if !step.Remove? {
      OthersDropNothing(w, l, step);
    }
  }

  lemma NoReuseSnoc(l: Limits, steps: seq<Step>, step: Step)
    requires NoReuse(l, steps) && NewId(Run(l, steps), step)
    ensures NoReuse(l, steps + [step])
  {
    hide NewId, Run;
    var all := steps + [step];
    forall n | 0 <= n < |all| ensures NewId(Run(l, all[..n]), all[n]) {
      if n < |steps| {
        assert all[..n] == steps[..n] && all[n] == steps[n];
      } else {
        assert all[..n] == steps;
      }
    }
  }

  // ----- park before send -----

  /** What the dispatcher and the hosts do: an id is inserted once; its dispatcher parks once,
      sends only what it has parked on, and a host answers only what it was sent. */
  predicate Orderly(w: World, step: Step) {
    && NewId(w, step)
    && (step.ParkLocked? ==> step.id !in w.receivers)
    && (step.Send? ==> step.id in w.receivers)
    && (step.DeliverLocked? ==> step.id in w.sent)
  }

  ghost predicate OrderlyRun(l: Limits, steps: seq<Step>) {
    forall n :: 0 <= n < |steps| ==> Orderly(Run(l, steps[..n]), steps[n])
  }

  lemma OrderlySnoc(l: Limits, steps: seq<Step>, step: Step)
    requires OrderlyRun(l, steps) && Orderly(Run(l, steps), step)
    ensures OrderlyRun(l, steps + [step])
  {
    hide Orderly, Run;
    var all := steps + [step];
    forall n | 0 <= n < |all| ensures Orderly(Run(l, all[..n]), all[n]) {
      if n < |steps| {
        assert all[..n] == steps[..n] && all[n] == steps[n];
      } else {
        assert all[..n] == steps;
      }
    }
  }

  predicate Answered(w: World, id: Id) {
    id in w.receivers && exists a :: a in w.answers && a.sink == w.receivers[id]
  }

  /** A waiting entry holds the receiver of its dispatcher and nothing else; a landed one has
      answered it, and the deliver that did so is about to remove it. */
  ghost predicate InOrder(w: World, id: Id)
    requires id in w.entries
  {
    match w.entries[id].state
    case Waiting(sinks) => sinks == if id in w.receivers then [w.receivers[id]] else []
    case Landed(_, _) => id in w.delivering && Answered(w, id)
  }

  ghost predicate AllInOrder(w: World) {
    && w.entries.Keys <= w.inserted
    && w.receivers.Keys <= w.inserted
    && w.sent <= w.receivers.Keys
    && w.claiming == multiset{}
    && forall id :: id in w.entries ==> InOrder(w, id)
  }

  /** What an entry in order rests on may only grow. */
  lemma StillInOrder(w: World, w': World, id: Id)
    requires id in w.entries && id in w'.entries && w'.entries[id] == w.entries[id] && InOrder(w, id)
    requires id in w.receivers <==> id in w'.receivers
    requires id in w.receivers ==> w'.receivers[id] == w.receivers[id]
    requires w.answers <= w'.answers
    requires id in w.delivering ==> id in w'.delivering
    ensures InOrder(w', id)
  {
    if w.entries[id].state.Landed? {
      var a :| a in w.answers && a.sink == w.receivers[id];
      assert a in w'.answers;
    }
  }

  /** An entry goes, with or without the deliver that meant to remove it. */
  lemma EvictInOrder(w: World, delivering: multiset<Id>, doomed: multiset<Id>, id: Id)
    requires AllInOrder(w)
    requires delivering == w.delivering || delivering == w.delivering - multiset{id}
    ensures AllInOrder(Evict(w.(delivering := delivering, doomed := doomed), id))
  {
    var w' := Evict(w.(delivering := delivering, doomed := doomed), id);
    forall g | g in w'.entries ensures InOrder(w', g) {
      StillInOrder(w, w', g);
    }
  }

  lemma ParkInOrder(w: World, l: Limits, id: Id)
    requires AllInOrder(w) && id !in w.receivers
    ensures AllInOrder(Exec(w, l, ParkLocked(id)))
  {
    if id in w.entries {
      var w' := Park(w, id);
      assert InOrder(w, id);
      forall g | g in w'.entries ensures InOrder(w', g) {
        if g != id { StillInOrder(w, w', g); }
      }
    }
  }

  lemma DeliverInOrder(w: World, l: Limits, id: Id, body: Body)
    requires AllInOrder(w) && id in w.sent
    ensures AllInOrder(Exec(w, l, DeliverLocked(id, body)))
    ensures id in w.entries ==> Answered(Exec(w, l, DeliverLocked(id, body)), id)
    ensures id in w.entries && w.entries[id].state.Waiting? ==>
              Exec(w, l, DeliverLocked(id, body)).answers == w.answers + [Answer(w.receivers[id], body)]
  {
    if id in w.entries {
      var w' := Deliver(w, id, body);
      assert InOrder(w, id);
      if w.entries[id].state.Waiting? {
        assert Replies(w.entries[id].state.sinks, body) == [Answer(w.receivers[id], body)];
        assert Answer(w.receivers[id], body) in w'.answers;
      } else {
        assert w'.answers == w.answers;
      }
      forall g | g in w'.entries ensures InOrder(w', g) {
        if g != id { StillInOrder(w, w', g); }
      }
    }
  }

  /** The entries stay as they are, and what was sent only after a park may grow. */
  lemma SameInOrder(w: World, w': World)
    requires AllInOrder(w) && w'.entries == w.entries && w'.inserted == w.inserted && w'.receivers == w.receivers
    requires w'.claiming == w.claiming && w'.delivering == w.delivering && w'.answers == w.answers
    requires w'.sent <= w'.receivers.Keys
    ensures AllInOrder(w')
  {
    forall g | g in w'.entries ensures InOrder(w', g) {
      StillInOrder(w, w', g);
    }
  }

  lemma InsertInOrder(w: World, l: Limits, id: Id)
    requires AllInOrder(w) && NewId(w, InsertCommit(id))
    ensures AllInOrder(Exec(w, l, InsertCommit(id)))
  {
    var w' := Exec(w, l, InsertCommit(id));
    forall g | g in w'.entries ensures InOrder(w', g) {
      if g in w.entries { StillInOrder(w, w', g); }
    }
  }

  lemma OtherInOrder(w: World, l: Limits, step: Step)
    requires AllInOrder(w) && Orderly(w, step)
    requires step.Tick? || step.InsertCheck? || step.SweepLook? || step.Send?
    ensures AllInOrder(Exec(w, l, step))
  {
    hide Park, Deliver, Evict, Expired, InOrder, NewId;
    SameInOrder(w, Exec(w, l, step));
  }

  lemma DeliverRemoveInOrder(w: World, l: Limits, id: Id)
    requires AllInOrder(w)
    ensures AllInOrder(Exec(w, l, DeliverRemove(id)))
  {
    hide AllInOrder, Evict;
    EvictInOrder(w, w.delivering - multiset{id}, w.doomed, id);
  }

  lemma SweepRemoveInOrder(w: World, l: Limits, id: Id)
    requires AllInOrder(w)
    ensures AllInOrder(Exec(w, l, SweepRemove(id)))
  {
    hide AllInOrder, Evict;
    EvictInOrder(w, w.delivering, w.doomed - multiset{id}, id);
  }

  lemma RemoveInOrder(w: World, l: Limits, id: Id)
    requires AllInOrder(w)
    ensures AllInOrder(Exec(w, l, Remove(id)))
  {
    hide AllInOrder, Evict;
    EvictInOrder(w, w.delivering, w.doomed, id);
  }

  lemma ParkRemoveInOrder(w: World, l: Limits, id: Id)
    requires AllInOrder(w)
    ensures AllInOrder(Exec(w, l, ParkRemove(id)))
  {
    hide InOrder, Evict;
  }

  lemma StepInOrder(w: World, l: Limits, step: Step)
    requires AllInOrder(w) && Orderly(w, step)
    ensures AllInOrder(Exec(w, l, step))
  {
    hide AllInOrder, Park, Deliver, Evict, Expired, NewId, Exec;
    match step
    case ParkLocked(id) => ParkInOrder(w, l, id);
    case DeliverLocked(id, body) => DeliverInOrder(w, l, id, body);
    case ParkRemove(id) => ParkRemoveInOrder(w, l, id);
    case DeliverRemove(id) => DeliverRemoveInOrder(w, l, id);
    case Remove(id) => RemoveInOrder(w, l, id);
    case SweepRemove(id) => SweepRemoveInOrder(w, l, id);
    case InsertCommit(id) => InsertInOrder(w, l, id);
    case _ => OtherInOrder(w, l, step);
  }

  lemma {:induction false} RunInOrder(l: Limits, steps: seq<Step>)
    requires OrderlyRun(l, steps)
    ensures AllInOrder(Run(l, steps))
  {
    hide Exec, Orderly, InOrder;
    if steps != [] {
      var front := steps[..|steps| - 1];
      assert forall n :: 0 <= n < |front| ==> front[..n] == steps[..n] && front[n] == steps[n];
      RunInOrder(l, front);
      assert Orderly(Run(l, steps[..|front|]), steps[|front|]);
      StepInOrder(Run(l, front), l, steps[|front|]);
    }
  }
}
