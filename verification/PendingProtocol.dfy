/**
 flux's map of pending dispatches (`flux/src/state.rs`), as a machine over its locked steps. Every
 operation that takes a lock twice is two steps here, and any step of any other operation may come
 in between. The machine also records what became of every parked sink.
 */
module PendingProtocol {

  type Id = string
  type Body = string
  type Sink = nat

  const LANDED_TTL: nat := 30

  datatype State = Waiting(sinks: seq<Sink>) | Landed(body: Body, until: nat)

  datatype Entry = Entry(startedAt: nat, state: State)

  datatype Answer = Answer(sink: Sink, body: Body)

  /** The shared map and the clock; the operations that are between two locked steps; and, as
      history, who parked which sink, what was sent through it, and what was lost. */
  datatype World = World(
    entries: map<Id, Entry>,
    now: nat,
    inserting: multiset<Id>,    // passed the capacity check, not yet inserted
    claiming: multiset<Id>,     // a park that read a landed body and will remove the entry
    delivering: multiset<Id>,   // a deliver that fanned out and will remove the entry
    doomed: multiset<Id>,       // collected by a sweep that will remove it
    owners: seq<Id>,            // owners[k] is the request sink k was parked on
    answers: seq<Answer>,
    dropped: seq<Sink>,
    inserted: set<Id>,
    receivers: map<Id, Sink>,   // the sink the dispatcher of a request waits on
    sent: set<Id>)

  const START := World(map[], 0, multiset{}, multiset{}, multiset{}, multiset{}, [], [], [], {}, map[], {})

  datatype Limits = Limits(max: nat, timeout: nat)

  datatype Step =
    | Tick(seconds: nat)
    | InsertCheck(id: Id)
    | InsertCommit(id: Id)
    | ParkLocked(id: Id)
    | ParkRemove(id: Id)
    | DeliverLocked(id: Id, body: Body)
    | DeliverRemove(id: Id)
    | Remove(id: Id)
    | SweepLook(id: Id, at: nat)
    | SweepRemove(id: Id)
    | Send(id: Id)

  /** Removing an entry drops the sinks still waiting in it. */
  function Evict(w: World, id: Id): World {
    if id !in w.entries then w
    else
      var gone := if w.entries[id].state.Waiting? then w.entries[id].state.sinks else [];
      w.(entries := w.entries - {id}, dropped := w.dropped + gone)
  }

  function Elapsed(since: nat, at: nat): nat { if at >= since then at - since else 0 }

  predicate Expired(e: Entry, at: nat, timeout: nat) {
    match e.state
    case Waiting(_) => Elapsed(e.startedAt, at) >= timeout
    case Landed(_, until) => at >= until
  }

  function Replies(sinks: seq<Sink>, body: Body): (r: seq<Answer>)
    ensures |r| == |sinks|
  {
    seq(|sinks|, i requires 0 <= i < |sinks| => Answer(sinks[i], body))
  }

  function Park(w: World, id: Id): World {
    if id !in w.entries then w
    else
      match w.entries[id].state
      case Waiting(sinks) =>
        var k := |w.owners|;
        w.(entries := w.entries[id := w.entries[id].(state := Waiting(sinks + [k]))],
           owners := w.owners + [id],
           receivers := w.receivers[id := k])
      case Landed(_, _) => w.(claiming := w.claiming + multiset{id})
  }

  function Deliver(w: World, id: Id, body: Body): World {
    if id !in w.entries then w
    else
      var landed := w.entries[id].(state := Landed(body, w.now + LANDED_TTL));
      var w' := w.(entries := w.entries[id := landed]);
      match w.entries[id].state
      case Waiting(sinks) =>
        w'.(answers := w.answers + Replies(sinks, body),
            delivering := if sinks != [] then w.delivering + multiset{id} else w.delivering)
      case Landed(_, _) => w'
  }

  /** One step; a step that is not pending leaves the world as it is. */
  function Exec(w: World, l: Limits, step: Step): World {
    match step
    case Tick(seconds) => w.(now := w.now + seconds)
    case InsertCheck(id) => if |w.entries| < l.max then w.(inserting := w.inserting + multiset{id}) else w
    case InsertCommit(id) =>
      if id !in w.inserting then w
      else
        var w' := w.(inserting := w.inserting - multiset{id});
        if id in w.entries then w'
        else w'.(entries := w.entries[id := Entry(w.now, Waiting([]))], inserted := w.inserted + {id})
    case ParkLocked(id) => Park(w, id)
    case ParkRemove(id) =>
      if id !in w.claiming then w else Evict(w.(claiming := w.claiming - multiset{id}), id)
    case DeliverLocked(id, body) => Deliver(w, id, body)
    case DeliverRemove(id) =>
      if id !in w.delivering then w else Evict(w.(delivering := w.delivering - multiset{id}), id)
    case Remove(id) => Evict(w, id)
    case SweepLook(id, at) =>
      if at <= w.now && id in w.entries && Expired(w.entries[id], at, l.timeout)
      then w.(doomed := w.doomed + multiset{id}) else w
    case SweepRemove(id) =>
      if id !in w.doomed then w else Evict(w.(doomed := w.doomed - multiset{id}), id)
    case Send(id) => w.(sent := w.sent + {id})
  }

  function Run(l: Limits, steps: seq<Step>): World {
    if steps == [] then START else Exec(Run(l, steps[..|steps| - 1]), l, steps[|steps| - 1])
  }

  // ----- every sink is in exactly one place -----

  function Sinks(answers: seq<Answer>): (r: seq<Sink>)
    ensures |r| == |answers|
  {
    seq(|answers|, i requires 0 <= i < |answers| => answers[i].sink)
  }

  /** How often sink `k` sits in the entry it was parked on. */
  function Held(w: World, k: Sink): nat
    requires k < |w.owners|
  {
    var id := w.owners[k];
    if id in w.entries && w.entries[id].state.Waiting? then multiset(w.entries[id].state.sinks)[k] else 0
  }

  /** How often sink `k` is anywhere at all. */
  function Places(w: World, k: Sink): nat
    requires k < |w.owners|
  {
    Held(w, k) + multiset(Sinks(w.answers))[k] + multiset(w.dropped)[k]
  }

  ghost predicate HoldsOwn(w: World, id: Id)
    requires id in w.entries
  {
    w.entries[id].state.Waiting? ==>
      forall k :: k in w.entries[id].state.sinks ==> k < |w.owners| && w.owners[k] == id
  }

  /** A waiting entry holds only sinks parked on it; and every sink ever parked is, once, either
      in its entry, or answered, or dropped. */
  ghost predicate Conserved(w: World) {
    && (forall id :: id in w.entries ==> HoldsOwn(w, id))
    && (forall k :: k in Sinks(w.answers) ==> k < |w.owners|)
    && (forall k :: k in w.dropped ==> k < |w.owners|)
    && (forall k :: 0 <= k < |w.owners| ==> Places(w, k) == 1)
  }

  lemma CountAppend(a: seq<Sink>, b: seq<Sink>, k: Sink)
    ensures multiset(a + b)[k] == multiset(a)[k] + multiset(b)[k]
    ensures k !in b ==> multiset(a + b)[k] == multiset(a)[k]
  {
  }

  lemma SinksAppend(a: seq<Answer>, sinks: seq<Sink>, body: Body)
    ensures Sinks(a + Replies(sinks, body)) == Sinks(a) + sinks
  {
  }

  lemma EvictConserves(w: World, id: Id)
    requires Conserved(w)
    ensures Conserved(Evict(w, id))
  {
    if id in w.entries {
      var w' := Evict(w, id);
      var gone := if w.entries[id].state.Waiting? then w.entries[id].state.sinks else [];
      assert HoldsOwn(w, id);
      assert forall g :: g in w'.entries ==> HoldsOwn(w, g) && HoldsOwn(w', g);
      forall k | 0 <= k < |w.owners| ensures Places(w', k) == 1 {
        assert Places(w, k) == 1;
        CountAppend(w.dropped, gone, k);
      }
    }
  }

  lemma ParkConserves(w: World, id: Id)
    requires Conserved(w)
    ensures Conserved(Park(w, id))
  {
    if id in w.entries && w.entries[id].state.Waiting? {
      var w', n, sinks := Park(w, id), |w.owners|, w.entries[id].state.sinks;
      assert HoldsOwn(w, id);
      forall g | g in w'.entries ensures HoldsOwn(w', g) {
        assert HoldsOwn(w, g);
      }
      forall k | 0 <= k < |w'.owners| ensures Places(w', k) == 1 {
        CountAppend(sinks, [n], k);
        if k < n {
          assert Places(w, k) == 1 && w'.owners[k] == w.owners[k];
        } else {
          assert n !in sinks && n !in Sinks(w.answers) && n !in w.dropped;
        }
      }
    } else {
      SameSinks(w, Park(w, id));
    }
  }

  lemma DeliverConserves(w: World, id: Id, body: Body)
    requires Conserved(w)
    ensures Conserved(Deliver(w, id, body))
  {
    if id in w.entries {
      var w' := Deliver(w, id, body);
      var sinks := if w.entries[id].state.Waiting? then w.entries[id].state.sinks else [];
      assert HoldsOwn(w, id);
      assert w'.answers == w.answers + Replies(sinks, body);
      SinksAppend(w.answers, sinks, body);
      forall g | g in w'.entries ensures HoldsOwn(w', g) {
        assert g != id ==> HoldsOwn(w, g);
      }
      forall k | 0 <= k < |w.owners| ensures Places(w', k) == 1 {
        assert Places(w, k) == 1;
        CountAppend(Sinks(w.answers), sinks, k);
      }
    }
  }

  lemma InsertConserves(w: World, id: Id, e: Entry)
    requires Conserved(w) && id !in w.entries && e.state == Waiting([])
    ensures Conserved(w.(entries := w.entries[id := e]))
  {
    var w' := w.(entries := w.entries[id := e]);
    forall g | g in w'.entries ensures HoldsOwn(w', g) {
      assert g != id ==> HoldsOwn(w, g);
    }
    forall k | 0 <= k < |w.owners| ensures Places(w', k) == 1 {
      assert Places(w, k) == 1;
    }
  }

  /** Conservation speaks only of the entries, the sinks and their history. */
  lemma SameSinks(w: World, w': World)
    requires Conserved(w)
    requires w'.entries == w.entries && w'.owners == w.owners && w'.answers == w.answers && w'.dropped == w.dropped
    ensures Conserved(w')
  {
    forall g | g in w'.entries ensures HoldsOwn(w', g) {
      assert HoldsOwn(w, g);
    }
    forall k | 0 <= k < |w.owners| ensures Places(w', k) == 1 {
      assert Places(w, k) == 1;
    }
  }

  lemma RemovalsConserve(w: World, l: Limits, id: Id)
    requires Conserved(w)
    ensures Conserved(Exec(w, l, ParkRemove(id))) && Conserved(Exec(w, l, DeliverRemove(id)))
    ensures Conserved(Exec(w, l, SweepRemove(id))) && Conserved(Exec(w, l, Remove(id)))
  {
    hide Conserved, Evict;
    SameSinks(w, w.(claiming := w.claiming - multiset{id}));
    EvictConserves(w.(claiming := w.claiming - multiset{id}), id);
    SameSinks(w, w.(delivering := w.delivering - multiset{id}));
    EvictConserves(w.(delivering := w.delivering - multiset{id}), id);
    SameSinks(w, w.(doomed := w.doomed - multiset{id}));
    EvictConserves(w.(doomed := w.doomed - multiset{id}), id);
    EvictConserves(w, id);
  }

  lemma CommitConserves(w: World, l: Limits, id: Id)
    requires Conserved(w)
    ensures Conserved(Exec(w, l, InsertCommit(id)))
  {
    hide Conserved;
    if id in w.inserting && id !in w.entries {
      InsertConserves(w, id, Entry(w.now, Waiting([])));
      SameSinks(w.(entries := w.entries[id := Entry(w.now, Waiting([]))]), Exec(w, l, InsertCommit(id)));
    } else {
      SameSinks(w, Exec(w, l, InsertCommit(id)));
    }
  }

  lemma QuietConserves(w: World, l: Limits, step: Step)
    requires Conserved(w) && (step.Tick? || step.InsertCheck? || step.SweepLook? || step.Send?)
    ensures Conserved(Exec(w, l, step))
  {
    hide Conserved, Expired, Evict, Park, Deliver;
    SameSinks(w, Exec(w, l, step));
  }

  lemma StepConserves(w: World, l: Limits, step: Step)
    requires Conserved(w)
    ensures Conserved(Exec(w, l, step))
  {
    hide Conserved, Exec;
    match step
    case InsertCommit(id) => CommitConserves(w, l, id);
    case ParkLocked(id) => LockedConserves(w, l, id, "");
    case DeliverLocked(id, body) => LockedConserves(w, l, id, body);
    case ParkRemove(id) => RemovalsConserve(w, l, id);
    case DeliverRemove(id) => RemovalsConserve(w, l, id);
    case Remove(id) => RemovalsConserve(w, l, id);
    case SweepRemove(id) => RemovalsConserve(w, l, id);
    case _ => QuietConserves(w, l, step);
  }

  lemma LockedConserves(w: World, l: Limits, id: Id, body: Body)
    requires Conserved(w)
    ensures Conserved(Exec(w, l, ParkLocked(id))) && Conserved(Exec(w, l, DeliverLocked(id, body)))
  {
    hide Conserved, Park, Deliver;
    ParkConserves(w, id);
    DeliverConserves(w, id, body);
  }

  /** Under every interleaving, each parked sink is at all times in exactly one place, once. */
  lemma {:induction false} SinkConservation(l: Limits, steps: seq<Step>)
    ensures Conserved(Run(l, steps))
  {
    if steps != [] {
      SinkConservation(l, steps[..|steps| - 1]);
      StepConserves(Run(l, steps[..|steps| - 1]), l, steps[|steps| - 1]);
    }
  }

  /** A deliver that finds the entry waiting answers every sink in it with the one body; a sink
      that was answered or dropped stays so, whatever comes next. */
  lemma DeliverAnswersAll(w: World, l: Limits, id: Id, body: Body)
    requires id in w.entries && w.entries[id].state.Waiting?
    ensures var w' := Exec(w, l, DeliverLocked(id, body));
            && (forall k :: k in w.entries[id].state.sinks ==> Answer(k, body) in w'.answers)
            && w'.entries[id].state == Landed(body, w.now + LANDED_TTL)
  {
    var sinks := w.entries[id].state.sinks;
    forall k | k in sinks ensures Answer(k, body) in w.answers + Replies(sinks, body) {
      var i :| 0 <= i < |sinks| && sinks[i] == k;
      assert (w.answers + Replies(sinks, body))[|w.answers| + i] == Answer(k, body);
    }
  }

  lemma EvictGrows(w: World, id: Id)
    ensures w.answers == Evict(w, id).answers && w.dropped <= Evict(w, id).dropped
  {
  }

  lemma HistoryGrows(w: World, l: Limits, step: Step)
    ensures w.answers <= Exec(w, l, step).answers && w.dropped <= Exec(w, l, step).dropped
  {
    hide Expired, Evict;
    match step
    case ParkRemove(id) => EvictGrows(w.(claiming := w.claiming - multiset{id}), id);
    case DeliverRemove(id) => EvictGrows(w.(delivering := w.delivering - multiset{id}), id);
    case SweepRemove(id) => EvictGrows(w.(doomed := w.doomed - multiset{id}), id);
    case Remove(id) => EvictGrows(w, id);
    case _ =>
  }

  /** What has been answered or dropped stays so. */
  lemma {:induction false} HistoryStays(l: Limits, steps: seq<Step>, n: nat)
    requires n <= |steps|
    ensures Run(l, steps[..n]).answers <= Run(l, steps).answers
    ensures Run(l, steps[..n]).dropped <= Run(l, steps).dropped
  {
    hide Exec;
    if n == |steps| {
      assert steps[..n] == steps;
    } else {
      var front := steps[..|steps| - 1];
      assert front[..n] == steps[..n];
      HistoryStays(l, front, n);
      HistoryGrows(Run(l, front), l, steps[|steps| - 1]);
    }
  }

  // ----- capacity -----

  /** At every moment of the run at most `k` inserts are between their check and their commit. */
  ghost predicate FewInserters(l: Limits, steps: seq<Step>, k: nat) {
    forall n :: 0 <= n <= |steps| ==> |Run(l, steps[..n]).inserting| <= k
  }

  lemma ParkKeepsSize(w: World, id: Id)
    ensures |Park(w, id).entries| == |w.entries| && Park(w, id).inserting == w.inserting
  {
    assert Park(w, id).entries.Keys == w.entries.Keys;
    KeyCount(w.entries);
    KeyCount(Park(w, id).entries);
  }

  lemma DeliverKeepsSize(w: World, id: Id, body: Body)
    ensures |Deliver(w, id, body).entries| == |w.entries| && Deliver(w, id, body).inserting == w.inserting
  {
    assert Deliver(w, id, body).entries.Keys == w.entries.Keys;
    KeyCount(w.entries);
    KeyCount(Deliver(w, id, body).entries);
  }

  lemma EvictShrinks(w: World, id: Id)
    ensures |Evict(w, id).entries| <= |w.entries| && Evict(w, id).inserting == w.inserting
  {
    if id in w.entries {
      var rest := w.entries - {id};
      assert w.entries.Keys == rest.Keys + {id};
      KeyCount(w.entries);
      KeyCount(rest);
    }
  }

  lemma InsertSize(m: map<Id, Entry>, id: Id, e: Entry, waiting: multiset<Id>)
    requires id !in m && id in waiting
    ensures |m[id := e]| + |waiting - multiset{id}| == |m| + |waiting|
  {
    assert m[id := e].Keys == m.Keys + {id};
    KeyCount(m);
    KeyCount(m[id := e]);
    assert waiting == (waiting - multiset{id}) + multiset{id};
  }

  lemma KeyCount(m: map<Id, Entry>)
    ensures |m| == |m.Keys|
  {
  }

  lemma CommitSize(w: World, l: Limits, id: Id)
    ensures var w' := Exec(w, l, InsertCommit(id)); |w'.entries| + |w'.inserting| <= |w.entries| + |w.inserting|
  {
    if id in w.inserting {
      assert w.inserting == (w.inserting - multiset{id}) + multiset{id};
      if id !in w.entries {
        InsertSize(w.entries, id, Entry(w.now, Waiting([])), w.inserting);
      }
    }
  }

  lemma RemovalSize(w: World, l: Limits, step: Step)
    requires step.ParkRemove? || step.DeliverRemove? || step.Remove? || step.SweepRemove?
    ensures |Exec(w, l, step).entries| <= |w.entries| && Exec(w, l, step).inserting == w.inserting
  {
    hide Evict;
    EvictShrinks(w.(claiming := w.claiming - multiset{step.id}), step.id);
    EvictShrinks(w.(delivering := w.delivering - multiset{step.id}), step.id);
    EvictShrinks(w, step.id);
    EvictShrinks(w.(doomed := w.doomed - multiset{step.id}), step.id);
  }

  lemma QuietSize(w: World, l: Limits, step: Step)
    requires step.Tick? || step.InsertCheck? || step.SweepLook? || step.Send? || step.ParkLocked? || step.DeliverLocked?
    ensures |Exec(w, l, step).entries| == |w.entries|
    ensures Exec(w, l, step).inserting == w.inserting || |w.entries| < l.max
  {
    hide Expired, Park, Deliver, Evict;
    match step
    case ParkLocked(id) => ParkKeepsSize(w, id);
    case DeliverLocked(id, body) => DeliverKeepsSize(w, id, body);
    case _ =>
  }

  lemma StepCapacity(w: World, l: Limits, step: Step, k: nat)
    requires k >= 1 && |w.entries| + |w.inserting| <= l.max + k - 1
    requires |Exec(w, l, step).inserting| <= k
    ensures |Exec(w, l, step).entries| + |Exec(w, l, step).inserting| <= l.max + k - 1
  {
    hide Exec;
    if step.InsertCommit? {
      CommitSize(w, l, step.id);
    } else if step.ParkRemove? || step.DeliverRemove? || step.Remove? || step.SweepRemove? {
      RemovalSize(w, l, step);
    } else {
      QuietSize(w, l, step);
    }
  }

  /** The map never holds more than max + k - 1 entries when at most k inserts overlap; so never
      more than max when inserts come one at a time. */
  lemma {:induction false} CapacityBound(l: Limits, steps: seq<Step>, k: nat)
    requires k >= 1 && FewInserters(l, steps, k)
    ensures |Run(l, steps).entries| + |Run(l, steps).inserting| <= l.max + k - 1
  {
    if steps != [] {
      var front := steps[..|steps| - 1];
      forall n | 0 <= n <= |front| ensures |Run(l, front[..n]).inserting| <= k {
        assert front[..n] == steps[..n];
      }
      CapacityBound(l, front, k);
      assert steps[..|steps|] == steps;
      StepCapacity(Run(l, front), l, steps[|steps| - 1], k);
    }
  }

  // ----- a body that nobody was waiting for -----

  function RunFrom(w: World, l: Limits, steps: seq<Step>): World {
    if steps == [] then w else Exec(RunFrom(w, l, steps[..|steps| - 1]), l, steps[|steps| - 1])
  }

  /** The entry has landed with this body, at this time, and nothing is about to remove it. */
  ghost predicate Rests(w: World, id: Id, body: Body, at: nat) {
    && id in w.entries && w.entries[id].state == Landed(body, at + 30)
    && id !in w.claiming && id !in w.delivering && id !in w.doomed
  }

  /** The step is not a dispatcher's own remove, another response or a park on this id. */
  predicate LeavesAlone(step: Step, id: Id) {
    step.Remove? || step.DeliverLocked? || step.ParkLocked? ==> step.id != id
  }

  lemma RemovalRests(w: World, l: Limits, step: Step, id: Id, body: Body, at: nat)
    requires Rests(w, id, body, at) && LeavesAlone(step, id)
    requires step.ParkRemove? || step.DeliverRemove? || step.SweepRemove? || step.Remove?
    ensures Rests(Exec(w, l, step), id, body, at)
  {
  }

  lemma LockedRests(w: World, l: Limits, step: Step, id: Id, body: Body, at: nat)
    requires Rests(w, id, body, at) && LeavesAlone(step, id)
    requires step.ParkLocked? || step.DeliverLocked? || step.InsertCommit?
    ensures Rests(Exec(w, l, step), id, body, at)
  {
    hide Replies;
  }

  lemma QuietRests(w: World, l: Limits, step: Step, id: Id, body: Body, at: nat)
    requires Rests(w, id, body, at) && w.now < at + 30
    requires step.Tick? || step.InsertCheck? || step.SweepLook? || step.Send?
    ensures Rests(Exec(w, l, step), id, body, at)
  {
  }

  lemma StepRests(w: World, l: Limits, step: Step, id: Id, body: Body, at: nat)
    requires Rests(w, id, body, at) && LeavesAlone(step, id) && w.now < at + 30
    ensures Rests(Exec(w, l, step), id, body, at)
  {
    hide Exec, Rests;
    if step.ParkRemove? || step.DeliverRemove? || step.SweepRemove? || step.Remove? {
      RemovalRests(w, l, step, id, body, at);
    } else if step.ParkLocked? || step.DeliverLocked? || step.InsertCommit? {
      LockedRests(w, l, step, id, body, at);
    } else {
      QuietRests(w, l, step, id, body, at);
    }
  }

  lemma NowGrows(w: World, l: Limits, step: Step)
    ensures w.now <= Exec(w, l, step).now
  {
    hide Expired;
  }

  /** A response that came before anybody parked is kept: less than 30 seconds later it is still there
      for a park, through any sweeps, unless its own request was removed, answered again or parked on. */
  lemma {:induction false} LandedWaits(w: World, l: Limits, id: Id, body: Body, steps: seq<Step>)
    requires id in w.entries && w.entries[id].state == Waiting([])
    requires id !in w.claiming && id !in w.delivering && id !in w.doomed
    requires forall i :: 0 <= i < |steps| ==> LeavesAlone(steps[i], id)
    requires RunFrom(Exec(w, l, DeliverLocked(id, body)), l, steps).now < w.now + 30
    ensures var v := RunFrom(Exec(w, l, DeliverLocked(id, body)), l, steps);
            Rests(v, id, body, w.now) && id in Exec(v, l, ParkLocked(id)).claiming
  {
    var landed := Exec(w, l, DeliverLocked(id, body));
    if steps == [] {
      LandsWithNobody(w, l, id, body);
    } else {
      var front, step := steps[..|steps| - 1], steps[|steps| - 1];
      NowGrows(RunFrom(landed, l, front), l, step);
      LandedWaits(w, l, id, body, front);
      assert LeavesAlone(step, id);
      StepRests(RunFrom(landed, l, front), l, step, id, body, w.now);
    }
  }

  lemma LandsWithNobody(w: World, l: Limits, id: Id, body: Body)
    requires id in w.entries && w.entries[id].state == Waiting([])
    requires id !in w.claiming && id !in w.delivering && id !in w.doomed
    ensures Rests(Exec(w, l, DeliverLocked(id, body)), id, body, w.now)
  {
  }

  /** And from 30 seconds on a sweep collects it. */
  lemma LandedGoes(w: World, l: Limits, id: Id, body: Body, at: nat)
    requires Rests(w, id, body, at) && w.now >= at + 30
    ensures id !in Exec(Exec(w, l, SweepLook(id, w.now)), l, SweepRemove(id)).entries
  {
  }
}
