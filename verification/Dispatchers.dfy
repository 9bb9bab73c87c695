/**
 Concurrent dispatches (`flux/src/unix_bridge.rs`): each call has its own program counter, and the
 calls, the hosts' responses and the sweeper take turns in any order. What the calls do is fixed by
 the code here; the only assumptions are about the outside.
 */
module Dispatchers {
  import opened Text
  import opened PendingProtocol
  import opened Dispatching

  datatype Pc =
    | Start
    | Checked                 // passed the capacity check
    | Inserted(at: nat)       // its entry was inserted at this time
    | Claiming                // park found a landed body
    | Parked(sink: Sink)
    | Sent(sink: Sink)        // waits on its receiver
    | Refused(code: nat)      // answered before anything was inserted
    | GaveUp(code: nat)       // answered after the insert

  datatype Dispatcher = Dispatcher(id: Id, pc: Pc)

  datatype System = System(w: World, ds: seq<Dispatcher>)

  datatype Move =
    | Arrive(id: Id)
    | Advance(k: nat, sendOk: bool)
    | Environment(step: Step)

  /** Time, responses and sweeps; everything else is done by a dispatcher. */
  predicate FromOutside(step: Step) {
    step.Tick? || step.DeliverLocked? || step.DeliverRemove? || step.SweepLook? || step.SweepRemove?
  }

  /** The locked step a dispatcher does next. */
  function NextStep(d: Dispatcher, sendOk: bool): Option<Step> {
    match d.pc
    case Start => Some(InsertCheck(d.id))
    case Checked => Some(InsertCommit(d.id))
    case Inserted(_) => Some(ParkLocked(d.id))
    case Claiming => Some(ParkRemove(d.id))
    case Parked(_) => Some(if sendOk then Send(d.id) else Remove(d.id))
    case Sent(_) => None
    case Refused(_) => None
    case GaveUp(_) => None
  }

  /** Where it goes from there, by what it finds. */
  function NextPc(w: World, l: Limits, d: Dispatcher, sendOk: bool): Pc {
    match d.pc
    case Start => if |w.entries| < l.max then Checked else Refused(503)
    case Checked => if d.id in w.entries then Refused(409) else Inserted(w.now)
    case Inserted(_) =>
      if d.id !in w.entries then GaveUp(500)
      else if w.entries[d.id].state.Waiting? then Parked(|w.owners|)
      else Claiming
    case Claiming => GaveUp(500)
    case Parked(sink) => if sendOk then Sent(sink) else GaveUp(503)
    case _ => d.pc
  }

  /** The locked steps of a move: one, or none. */
  function StepsOfMove(s: System, m: Move): seq<Step> {
    match m
    case Arrive(_) => []
    case Advance(k, sendOk) =>
      if k < |s.ds| && NextStep(s.ds[k], sendOk).Some? then [NextStep(s.ds[k], sendOk).value] else []
    case Environment(step) => if FromOutside(step) then [step] else []
  }

  function MoveOn(l: Limits, s: System, m: Move): System {
    var steps := StepsOfMove(s, m);
    var w := if steps == [] then s.w else Exec(s.w, l, steps[0]);
    match m
    case Arrive(id) => System(w, s.ds + [Dispatcher(id, Start)])
    case Advance(k, sendOk) =>
      System(w, if k < |s.ds| then s.ds[k := s.ds[k].(pc := NextPc(s.w, l, s.ds[k], sendOk))] else s.ds)
    case Environment(_) => System(w, s.ds)
  }

  function RunMoves(l: Limits, moves: seq<Move>): System {
    if moves == [] then System(START, [])
    else MoveOn(l, RunMoves(l, moves[..|moves| - 1]), moves[|moves| - 1])
  }

  function StepsOf(l: Limits, moves: seq<Move>): seq<Step> {
    if moves == [] then []
    else
      StepsOf(l, moves[..|moves| - 1]) + StepsOfMove(RunMoves(l, moves[..|moves| - 1]), moves[|moves| - 1])
  }

  lemma RunStep(l: Limits, steps: seq<Step>, step: Step)
    ensures Run(l, steps + [step]) == Exec(Run(l, steps), l, step)
  {
    assert (steps + [step])[..|steps|] == steps;
  }

  lemma AtMostOne(s: System, m: Move)
    ensures |StepsOfMove(s, m)| <= 1
  {
  }

  /** A run of the system is a run of the machine. */
  lemma {:induction false} Projects(l: Limits, moves: seq<Move>)
    ensures RunMoves(l, moves).w == Run(l, StepsOf(l, moves))
  {
    hide Exec, NextPc, StepsOfMove;
    if moves != [] {
      var front := moves[..|moves| - 1];
      var before, s := StepsOf(l, front), RunMoves(l, front);
      var now := StepsOfMove(s, moves[|moves| - 1]);
      Projects(l, front);
      AtMostOne(s, moves[|moves| - 1]);
      if now == [] {
        assert before + now == before;
      } else {
        assert now == [now[0]];
        RunStep(l, before, now[0]);
      }
    }
  }

  // ----- the two assumptions -----

  /** No id is used again once it has been inserted. */
  predicate Fresh(s: System, m: Move) {
    m.Advance? && m.k < |s.ds| && s.ds[m.k].pc.Checked? && s.ds[m.k].id !in s.w.entries ==> s.ds[m.k].id !in s.w.inserted
  }

  /** Hosts answer only what they were sent. */
  predicate Honest(s: System, m: Move) {
    m.Environment? && m.step.DeliverLocked? ==> m.step.id in s.w.sent
  }

  ghost predicate FreshRun(l: Limits, moves: seq<Move>) {
    forall n :: 0 <= n < |moves| ==> Fresh(RunMoves(l, moves[..n]), moves[n])
  }

  ghost predicate HonestRun(l: Limits, moves: seq<Move>) {
    forall n :: 0 <= n < |moves| ==> Honest(RunMoves(l, moves[..n]), moves[n])
  }

  // ----- the dispatchers and the map -----

  function Token(d: Dispatcher): multiset<Id> { if d.pc.Checked? then multiset{d.id} else multiset{} }

  /** The ids of the dispatchers between their check and their insert. */
  function Tokens(ds: seq<Dispatcher>): multiset<Id> {
    if ds == [] then multiset{} else Tokens(ds[..|ds| - 1]) + Token(ds[|ds| - 1])
  }

  lemma {:induction false} TokensAt(ds: seq<Dispatcher>, k: nat, d: Dispatcher)
    requires k < |ds|
    ensures Token(ds[k]) <= Tokens(ds)
    ensures Tokens(ds[k := d]) == Tokens(ds) - Token(ds[k]) + Token(d)
  {
    hide Token;
    var n := |ds| - 1;
    if k == n {
      assert ds[k := d][..n] == ds[..n];
    } else {
      TokensAt(ds[..n], k, d);
      assert ds[k := d][..n] == ds[..n][k := d];
    }
  }

  lemma TokensArrive(ds: seq<Dispatcher>, id: Id)
    ensures Tokens(ds + [Dispatcher(id, Start)]) == Tokens(ds)
  {
    assert (ds + [Dispatcher(id, Start)])[..|ds|] == ds;
  }

  /** It has inserted an entry. */
  predicate HasInserted(d: Dispatcher) {
    d.pc.Inserted? || d.pc.Claiming? || d.pc.Parked? || d.pc.Sent? || d.pc.GaveUp?
  }

  ghost predicate InsertedFits(w: World, l: Limits, id: Id, at: nat) {
    && at <= w.now && id !in w.receivers
    && (if id in w.entries then w.entries[id] == Entry(at, Waiting([])) else Elapsed(at, w.now) >= l.timeout)
  }

  /** What the map looks like from where a dispatcher is. */
  ghost predicate Fits(w: World, l: Limits, d: Dispatcher) {
    && (HasInserted(d) ==> d.id in w.inserted)
    && (d.pc.Inserted? ==> InsertedFits(w, l, d.id, d.pc.at))
    && !d.pc.Claiming?
    && (d.pc.Parked? ==> d.id in w.receivers && w.receivers[d.id] == d.pc.sink)
    && (d.pc.Sent? ==> d.id in w.receivers && w.receivers[d.id] == d.pc.sink && d.id in w.sent)
  }

  predicate Apart(d: Dispatcher, e: Dispatcher) { HasInserted(d) && HasInserted(e) ==> d.id != e.id }

  ghost predicate Linked(s: System, l: Limits) {
    && s.w.inserting == Tokens(s.ds)
    && (forall k :: 0 <= k < |s.ds| ==> Fits(s.w, l, s.ds[k]))
    && (forall j, k :: 0 <= j < k < |s.ds| ==> Apart(s.ds[j], s.ds[k]))
  }

  ghost predicate Sound(s: System, l: Limits) { AllInOrder(s.w) && Tracked(s.w, l) && Linked(s, l) }

  // ----- one dispatcher is not disturbed by the others -----

  /** The step is one a dispatcher does only on the entry it has inserted. */
  predicate OnOwnEntry(step: Step) { step.ParkLocked? || step.ParkRemove? || step.Send? || step.Remove? }

  predicate SameAt(w: World, w': World, id: Id) {
    && w.now <= w'.now && (id in w'.receivers <==> id in w.receivers)
    && (id in w'.entries <==> id in w.entries) && (id in w.entries ==> w'.entries[id] == w.entries[id])
  }

  lemma LockedElsewhere(w: World, l: Limits, g: Id, body: Body, id: Id)
    requires g != id
    ensures SameAt(w, Exec(w, l, ParkLocked(g)), id) && SameAt(w, Exec(w, l, DeliverLocked(g, body)), id)
  {
    hide Replies;
  }

  lemma RemovalElsewhere(w: World, l: Limits, g: Id, id: Id)
    requires g != id
    ensures SameAt(w, Exec(w, l, ParkRemove(g)), id) && SameAt(w, Exec(w, l, DeliverRemove(g)), id)
    ensures SameAt(w, Exec(w, l, SweepRemove(g)), id) && SameAt(w, Exec(w, l, Remove(g)), id)
  {
  }

  lemma CommitElsewhere(w: World, l: Limits, g: Id, id: Id)
    requires g != id
    ensures SameAt(w, Exec(w, l, InsertCommit(g)), id)
  {
  }

  lemma QuietElsewhere(w: World, l: Limits, step: Step, id: Id)
    requires step.Tick? || step.InsertCheck? || step.SweepLook? || step.Send?
    ensures SameAt(w, Exec(w, l, step), id)
  {
    hide Expired, Park, Deliver, Evict;
    assert Exec(w, l, step).entries == w.entries && Exec(w, l, step).receivers == w.receivers;
  }

  /** A step on another id, or one that changes no entry, leaves this entry and its receiver alone. */
  lemma EntryStays(w: World, l: Limits, step: Step, id: Id)
    requires step.Tick? || step.InsertCheck? || step.SweepLook? || step.id != id
    ensures SameAt(w, Exec(w, l, step), id)
  {
    hide Exec, SameAt;
    match step
    case ParkLocked(g) => LockedElsewhere(w, l, g, "", id);
    case DeliverLocked(g, body) => LockedElsewhere(w, l, g, body, id);
    case ParkRemove(g) => RemovalElsewhere(w, l, g, id);
    case DeliverRemove(g) => RemovalElsewhere(w, l, g, id);
    case SweepRemove(g) => RemovalElsewhere(w, l, g, id);
    case Remove(g) => RemovalElsewhere(w, l, g, id);
    case InsertCommit(g) => CommitElsewhere(w, l, g, id);
    case _ => QuietElsewhere(w, l, step, id);
  }

  lemma OwnEntryStays(w: World, l: Limits, id: Id)
    requires id in w.inserted && NewId(w, InsertCommit(id))
    ensures Exec(w, l, InsertCommit(id)).entries == w.entries && Exec(w, l, InsertCommit(id)).receivers == w.receivers
    ensures Exec(w, l, InsertCommit(id)).now == w.now
  {
  }

  lemma OwnEntryGoes(w: World, l: Limits, id: Id)
    ensures var w' := Exec(w, l, DeliverRemove(id));
            && (id in w'.entries ==> id in w.entries && w'.entries[id] == w.entries[id]) && w'.now == w.now && w'.receivers == w.receivers
            && (id in w.entries && id !in w'.entries ==> id in w.delivering)
    ensures var w' := Exec(w, l, SweepRemove(id));
            && (id in w'.entries ==> id in w.entries && w'.entries[id] == w.entries[id]) && w'.now == w.now && w'.receivers == w.receivers
            && (id in w.entries && id !in w'.entries ==> id in w.doomed)
  {
  }

  lemma StillInserted(w: World, l: Limits, step: Step, id: Id, at: nat)
    requires AllInOrder(w) && Tracked(w, l) && NewId(w, step)
    requires InsertedFits(w, l, id, at) && id in w.inserted
    requires OnOwnEntry(step) ==> step.id != id
    requires step.DeliverLocked? ==> step.id in w.sent
    ensures InsertedFits(Exec(w, l, step), l, id, at)
  {
    hide AllInOrder, Tracked, Exec, NewId;
    if step.Tick? || step.InsertCheck? || step.SweepLook? || step.id != id {
      EntryStays(w, l, step, id);
    } else if step.InsertCommit? {
      OwnEntryStays(w, l, id);
    } else if step.DeliverLocked? {
      SentIsParked(w, id);
    } else {
      OwnEntryGoes(w, l, id);
      PendingRemovals(w, l, id);
    }
  }

  lemma PendingRemovals(w: World, l: Limits, id: Id)
    requires Tracked(w, l)
    ensures id in w.delivering ==> IsLanded(w, id)
    ensures id in w.doomed ==> Overdue(w, l, id)
  {
  }

  lemma SentIsParked(w: World, id: Id)
    requires AllInOrder(w) && id in w.sent
    ensures id in w.receivers
  {
  }

  lemma ReceiversStay(w: World, l: Limits, step: Step, id: Id)
    requires step.ParkLocked? ==> step.id != id
    ensures id in w.receivers ==> id in Exec(w, l, step).receivers && Exec(w, l, step).receivers[id] == w.receivers[id]
    ensures id in w.inserted ==> id in Exec(w, l, step).inserted
    ensures id in w.sent ==> id in Exec(w, l, step).sent
  {
    hide Expired;
  }

  lemma StillFits(w: World, l: Limits, step: Step, d: Dispatcher)
    requires AllInOrder(w) && Tracked(w, l) && NewId(w, step) && Fits(w, l, d)
    requires OnOwnEntry(step) && HasInserted(d) ==> step.id != d.id
    requires step.DeliverLocked? ==> step.id in w.sent
    ensures Fits(Exec(w, l, step), l, d)
  {
    hide Exec, AllInOrder, Tracked, InsertedFits, NewId;
    if HasInserted(d) {
      ReceiversStay(w, l, step, d.id);
      if d.pc.Inserted? { StillInserted(w, l, step, d.id, d.pc.at); }
    }
  }

  // ----- a dispatcher's own step -----

  lemma OwnCommit(w: World, l: Limits, id: Id)
    requires AllInOrder(w) && id in w.inserting && (id !in w.entries ==> id !in w.inserted)
    ensures Orderly(w, InsertCommit(id))
    ensures id !in w.entries ==> Fits(Exec(w, l, InsertCommit(id)), l, Dispatcher(id, Inserted(w.now)))
  {
    hide Expired, InOrder;
  }

  lemma OwnPark(w: World, l: Limits, id: Id, at: nat)
    requires AllInOrder(w) && Fits(w, l, Dispatcher(id, Inserted(at)))
    ensures Orderly(w, ParkLocked(id))
    ensures Fits(Exec(w, l, ParkLocked(id)), l, Dispatcher(id, if id in w.entries then Parked(|w.owners|) else GaveUp(500)))
  {
    hide Expired, AllInOrder;
  }

  lemma OwnSend(w: World, l: Limits, id: Id, sink: Sink)
    requires Fits(w, l, Dispatcher(id, Parked(sink)))
    ensures Orderly(w, Send(id)) && Fits(Exec(w, l, Send(id)), l, Dispatcher(id, Sent(sink)))
    ensures Orderly(w, Remove(id)) && Fits(Exec(w, l, Remove(id)), l, Dispatcher(id, GaveUp(503)))
  {
    hide Expired;
  }

  lemma OwnStep(w: World, l: Limits, d: Dispatcher, sendOk: bool)
    requires AllInOrder(w) && Fits(w, l, d) && NextStep(d, sendOk).Some?
    requires d.pc.Checked? ==> d.id in w.inserting && (d.id !in w.entries ==> d.id !in w.inserted)
    ensures Orderly(w, NextStep(d, sendOk).value)
    ensures Fits(Exec(w, l, NextStep(d, sendOk).value), l, d.(pc := NextPc(w, l, d, sendOk)))
  {
    hide AllInOrder, Exec;
    match d.pc
    case Start =>
    case Checked => OwnCommit(w, l, d.id);
    case Inserted(at) => OwnPark(w, l, d.id, at);
    case Parked(sink) => OwnSend(w, l, d.id, sink);
    case _ =>
  }

  lemma InsertingStays(w: World, l: Limits, step: Step)
    requires !step.InsertCheck? && !step.InsertCommit?
    ensures Exec(w, l, step).inserting == w.inserting
  {
    hide Expired;
  }

  lemma CheckTokens(w: World, l: Limits, id: Id)
    ensures Exec(w, l, InsertCheck(id)).inserting ==
            if |w.entries| < l.max then w.inserting + multiset{id} else w.inserting
  {
  }

  lemma CommitTokens(w: World, l: Limits, id: Id, rest: multiset<Id>)
    requires w.inserting == rest + multiset{id}
    ensures Exec(w, l, InsertCommit(id)).inserting == rest
  {
    assert rest + multiset{id} - multiset{id} == rest;
  }

  lemma OwnTokens(w: World, l: Limits, d: Dispatcher, sendOk: bool, rest: multiset<Id>)
    requires NextStep(d, sendOk).Some? && w.inserting == rest + Token(d)
    ensures Exec(w, l, NextStep(d, sendOk).value).inserting == rest + Token(d.(pc := NextPc(w, l, d, sendOk)))
  {
    hide Exec;
    var step := NextStep(d, sendOk).value;
    match d.pc
    case Start => CheckTokens(w, l, d.id);
    case Checked => CommitTokens(w, l, d.id, rest);
    case _ => InsertingStays(w, l, step);
  }

  lemma OwnInserts(w: World, l: Limits, d: Dispatcher, sendOk: bool)
    ensures !HasInserted(d) && HasInserted(d.(pc := NextPc(w, l, d, sendOk))) ==> d.pc.Checked? && d.id !in w.entries
  {
  }

  // ----- every move keeps it -----

  lemma ArriveSound(l: Limits, s: System, id: Id)
    requires Sound(s, l)
    ensures Sound(MoveOn(l, s, Arrive(id)), l)
  {
    hide AllInOrder, Tracked, InsertedFits, Tokens;
    TokensArrive(s.ds, id);
  }

  lemma OutsideSound(l: Limits, s: System, step: Step)
    requires Sound(s, l) && FromOutside(step) && (step.DeliverLocked? ==> step.id in s.w.sent)
    ensures Orderly(s.w, step) && Sound(System(Exec(s.w, l, step), s.ds), l)
  {
    hide AllInOrder, Tracked, Fits, Tokens, Exec, Apart;
    StepInOrder(s.w, l, step);
    StepTracks(s.w, l, step);
    InsertingStays(s.w, l, step);
    forall k | 0 <= k < |s.ds| ensures Fits(Exec(s.w, l, step), l, s.ds[k]) {
      StillFits(s.w, l, step, s.ds[k]);
    }
  }

  lemma ApartSymmetric(s: System, l: Limits, j: nat, k: nat)
    requires Linked(s, l) && j < |s.ds| && k < |s.ds| && j != k
    ensures Apart(s.ds[j], s.ds[k]) && Apart(s.ds[k], s.ds[j])
  {
    hide Fits, Tokens;
    assert Apart(s.ds[if j < k then j else k], s.ds[if j < k then k else j]);
  }

  lemma AdvanceApart(l: Limits, s: System, k: nat, sendOk: bool, j: nat)
    requires Linked(s, l) && j < |s.ds| && k < |s.ds| && j != k && Fresh(s, Advance(k, sendOk))
    ensures var d := s.ds[k].(pc := NextPc(s.w, l, s.ds[k], sendOk)); Apart(s.ds[j], d) && Apart(d, s.ds[j])
  {
    hide NextPc, Tokens, InsertedFits;
    ApartSymmetric(s, l, j, k);
    OwnInserts(s.w, l, s.ds[k], sendOk);
    assert Fits(s.w, l, s.ds[j]);
  }

  lemma AdvanceFits(l: Limits, s: System, k: nat, sendOk: bool, j: nat)
    requires Sound(s, l) && j < |s.ds| && k < |s.ds| && j != k && NextStep(s.ds[k], sendOk).Some?
    requires Orderly(s.w, NextStep(s.ds[k], sendOk).value)
    ensures Fits(Exec(s.w, l, NextStep(s.ds[k], sendOk).value), l, s.ds[j])
  {
    hide AllInOrder, Tracked, Tokens, Exec, InsertedFits, NewId;
    ApartSymmetric(s, l, j, k);
    assert Fits(s.w, l, s.ds[j]);
    StillFits(s.w, l, NextStep(s.ds[k], sendOk).value, s.ds[j]);
  }

  lemma AdvanceSound(l: Limits, s: System, k: nat, sendOk: bool)
    requires Sound(s, l) && k < |s.ds| && NextStep(s.ds[k], sendOk).Some? && Fresh(s, Advance(k, sendOk))
    ensures Orderly(s.w, NextStep(s.ds[k], sendOk).value)
    ensures Sound(MoveOn(l, s, Advance(k, sendOk)), l)
  {
    hide AllInOrder, Tracked, Fits, Tokens, Exec, Apart, NextPc, Orderly, Token;
    var d, step := s.ds[k], NextStep(s.ds[k], sendOk).value;
    var d' := d.(pc := NextPc(s.w, l, d, sendOk));
    TokensAt(s.ds, k, d');
    CheckedToken(s, k);
    assert Fits(s.w, l, d);
    OwnStep(s.w, l, d, sendOk);
    OwnTokens(s.w, l, d, sendOk, Tokens(s.ds) - Token(d));
    OrderlyIsNew(s.w, step);
    StepInOrder(s.w, l, step);
    StepTracks(s.w, l, step);
    var s' := MoveOn(l, s, Advance(k, sendOk));
    assert s' == System(Exec(s.w, l, step), s.ds[k := d']);
    forall j | 0 <= j < |s'.ds| ensures Fits(s'.w, l, s'.ds[j]) {
      if j != k { AdvanceFits(l, s, k, sendOk, j); }
    }
    forall i, j | 0 <= i < j < |s'.ds| ensures Apart(s'.ds[i], s'.ds[j]) {
      if i == k {
        AdvanceApart(l, s, k, sendOk, j);
      } else if j == k {
        AdvanceApart(l, s, k, sendOk, i);
      } else {
        ApartSymmetric(s, l, i, j);
      }
    }
  }

  lemma OrderlyIsNew(w: World, step: Step)
    requires Orderly(w, step)
    ensures NewId(w, step)
  {
  }

  lemma CheckedToken(s: System, k: nat)
    requires k < |s.ds| && s.w.inserting == Tokens(s.ds)
    ensures s.ds[k].pc.Checked? ==> s.ds[k].id in s.w.inserting
  {
    hide Tokens;
    TokensAt(s.ds, k, s.ds[k]);
  }

  lemma MoveSound(l: Limits, s: System, m: Move)
    requires Sound(s, l) && Fresh(s, m) && Honest(s, m)
    ensures Sound(MoveOn(l, s, m), l)
    ensures forall i :: 0 <= i < |StepsOfMove(s, m)| ==> Orderly(s.w, StepsOfMove(s, m)[i])
  {
    hide Sound, Orderly, Exec, NextPc;
    match m
    case Arrive(id) => ArriveSound(l, s, id);
    case Advance(k, sendOk) =>
      if k < |s.ds| {
        if NextStep(s.ds[k], sendOk).Some? {
          AdvanceSound(l, s, k, sendOk);
        } else {
          StoppedStays(s.w, l, s.ds[k], sendOk);
          assert s.ds[k := s.ds[k]] == s.ds;
        }
      }
    case Environment(step) => if FromOutside(step) { OutsideSound(l, s, step); }
  }

  lemma StoppedStays(w: World, l: Limits, d: Dispatcher, sendOk: bool)
    requires NextStep(d, sendOk).None?
    ensures d.(pc := NextPc(w, l, d, sendOk)) == d
  {
  }

  lemma StartSound(l: Limits)
    ensures Sound(System(START, []), l)
  {
  }

  lemma {:induction false} RunSound(l: Limits, moves: seq<Move>)
    requires FreshRun(l, moves) && HonestRun(l, moves)
    ensures Sound(RunMoves(l, moves), l)
    ensures OrderlyRun(l, StepsOf(l, moves))
  {
    hide Sound, Fresh, Honest, MoveOn, StepsOfMove, Orderly;
    if moves == [] {
      StartSound(l);
    } else {
      var front, m := moves[..|moves| - 1], moves[|moves| - 1];
      assert forall n :: 0 <= n < |front| ==> front[..n] == moves[..n] && front[n] == moves[n];
      RunSound(l, front);
      assert moves[..|front|] == front;
      MoveSound(l, RunMoves(l, front), m);
      Projects(l, front);
      AtMostOne(RunMoves(l, front), m);
      OrderlyMore(l, StepsOf(l, front), StepsOfMove(RunMoves(l, front), m));
    }
  }

  lemma OrderlyMore(l: Limits, steps: seq<Step>, more: seq<Step>)
    requires OrderlyRun(l, steps) && |more| <= 1
    requires forall i :: 0 <= i < |more| ==> Orderly(Run(l, steps), more[i])
    ensures OrderlyRun(l, steps + more)
  {
    if more == [] {
      assert steps + more == steps;
    } else {
      assert more == [more[0]];
      OrderlySnoc(l, steps, more[0]);
    }
  }

  // ----- what it gives -----

  /** With no id reused and hosts that answer only what they were sent, in every interleaving of any
      number of dispatchers: a dispatcher that has sent waits on the very receiver its entry holds; a
      response to an entry still waiting goes to that receiver and nowhere else; and an entry is
      landed only while the deliver that answered it has yet to remove it. */
  lemma ParkBeforeSend(l: Limits, moves: seq<Move>, k: nat, body: Body)
    requires FreshRun(l, moves) && HonestRun(l, moves)
    requires k < |RunMoves(l, moves).ds| && RunMoves(l, moves).ds[k].pc.Sent?
    ensures var s := RunMoves(l, moves);
            var id, sink, w' := s.ds[k].id, s.ds[k].pc.sink, Exec(s.w, l, DeliverLocked(s.ds[k].id, body));
            id in s.w.entries ==>
              match s.w.entries[id].state
              case Waiting(sinks) => sinks == [sink] && w'.answers == s.w.answers + [Answer(sink, body)]
              case Landed(_, _) => id in s.w.delivering && exists a :: a in s.w.answers && a.sink == sink
  {
    hide Exec, FreshRun, HonestRun, RunMoves, Tokens, Run, StepsOf, Orderly, OrderlyRun;
    RunSound(l, moves);
    var s := RunMoves(l, moves);
    assert Fits(s.w, l, s.ds[k]);
    var id := s.ds[k].id;
    if id in s.w.entries {
      assert InOrder(s.w, id);
      DeliverInOrder(s.w, l, id, body);
    }
  }

  /** The order insert, park, send is what the dispatchers do in every interleaving, so no park ever
      finds a landed body, and every landed entry has answered its dispatcher. */
  lemma AlwaysOrderly(l: Limits, moves: seq<Move>, id: Id)
    requires FreshRun(l, moves) && HonestRun(l, moves)
    ensures OrderlyRun(l, StepsOf(l, moves)) && RunMoves(l, moves).w == Run(l, StepsOf(l, moves))
    ensures var s := RunMoves(l, moves);
            && (forall k :: 0 <= k < |s.ds| ==> !s.ds[k].pc.Claiming?)
            && (id in s.w.entries && s.w.entries[id].state.Landed? ==> id in s.w.delivering && Answered(s.w, id))
  {
    hide Exec, FreshRun, HonestRun, RunMoves, Tokens, Run, StepsOf, OrderlyRun, InsertedFits, Answered;
    RunSound(l, moves);
    Projects(l, moves);
    var s := RunMoves(l, moves);
    assert forall k :: 0 <= k < |s.ds| ==> Fits(s.w, l, s.ds[k]);
    if id in s.w.entries { assert InOrder(s.w, id); }
  }

  /** A dispatcher answers 500 exactly when its entry is gone by the time it parks, and then at least
      the timeout has passed since it inserted it. */
  lemma LostExactlyWhen(l: Limits, moves: seq<Move>, k: nat, sendOk: bool)
    requires FreshRun(l, moves) && HonestRun(l, moves)
    requires k < |RunMoves(l, moves).ds| && RunMoves(l, moves).ds[k].pc.Inserted?
    ensures var s := RunMoves(l, moves);
            var d, next := s.ds[k], MoveOn(l, s, Advance(k, sendOk)).ds[k].pc;
            && (next == GaveUp(500) <==> d.id !in s.w.entries)
            && (next != GaveUp(500) ==> next == Parked(|s.w.owners|))
            && (next == GaveUp(500) ==> Elapsed(d.pc.at, s.w.now) >= l.timeout)
  {
    hide Exec, FreshRun, HonestRun, RunMoves, Tokens, Run, StepsOf, OrderlyRun;
    RunSound(l, moves);
    var s := RunMoves(l, moves);
    assert Fits(s.w, l, s.ds[k]);
  }

  lemma FreshIsNew(s: System, m: Move)
    requires Fresh(s, m)
    ensures forall i :: 0 <= i < |StepsOfMove(s, m)| ==> NewId(s.w, StepsOfMove(s, m)[i])
  {
  }

  lemma {:induction false} FreshProjects(l: Limits, moves: seq<Move>)
    requires FreshRun(l, moves)
    ensures NoReuse(l, StepsOf(l, moves))
  {
    hide Fresh, MoveOn, StepsOfMove, NewId;
    if moves != [] {
      var front, m := moves[..|moves| - 1], moves[|moves| - 1];
      assert forall n :: 0 <= n < |front| ==> front[..n] == moves[..n] && front[n] == moves[n];
      FreshProjects(l, front);
      assert moves[..|front|] == front;
      Projects(l, front);
      FreshIsNew(RunMoves(l, front), m);
      AtMostOne(RunMoves(l, front), m);
      var before, now := StepsOf(l, front), StepsOfMove(RunMoves(l, front), m);
      if now == [] {
        assert before + now == before;
      } else {
        assert now == [now[0]];
        NoReuseSnoc(l, before, now[0]);
      }
    }
  }

  /** Every sink dropped on the way from `w` to `w'` had been parked on `id`. */
  ghost predicate DropsOnly(w: World, w': World, id: Id) {
    && w.dropped <= w'.dropped
    && forall i :: |w.dropped| <= i < |w'.dropped| ==> w'.dropped[i] < |w.owners| && w.owners[w'.dropped[i]] == id
  }

  lemma EvictDropsOwn(w: World, l: Limits, id: Id)
    requires Conserved(w)
    ensures DropsOnly(w, Exec(w, l, Remove(id)), id)
  {
    hide Places;
    var w' := Exec(w, l, Remove(id));
    if id in w.entries && w.entries[id].state.Waiting? {
      var sinks := w.entries[id].state.sinks;
      assert HoldsOwn(w, id);
      assert w'.dropped == w.dropped + sinks;
      forall i | |w.dropped| <= i < |w'.dropped| ensures w'.dropped[i] < |w.owners| && w.owners[w'.dropped[i]] == id {
        assert w'.dropped[i] == sinks[i - |w.dropped|] && sinks[i - |w.dropped|] in sinks;
      }
    } else {
      assert w.dropped + [] == w.dropped;
      assert w'.dropped == w.dropped;
    }
  }

  /** With no id reused, sinks are dropped only by a dispatcher that could not send, and then only
      those parked on its own request, or by a sweep of an entry that has waited at least the timeout. */
  lemma SweepSafety(l: Limits, moves: seq<Move>, m: Move)
    requires FreshRun(l, moves)
    ensures var s := RunMoves(l, moves);
            var w' := MoveOn(l, s, m).w;
            w'.dropped != s.w.dropped ==>
              || (m.Advance? && !m.sendOk && m.k < |s.ds| && s.ds[m.k].pc.Parked? && DropsOnly(s.w, w', s.ds[m.k].id))
              || (m.Environment? && m.step.SweepRemove? && m.step.id in s.w.entries && s.w.entries[m.step.id].state.Waiting?
                  && Elapsed(s.w.entries[m.step.id].startedAt, s.w.now) >= l.timeout)
  {
    hide Exec, FreshRun, RunMoves, Run, StepsOf, NoReuse, Conserved, DropsOnly, NextPc;
    var s := RunMoves(l, moves);
    var steps := StepsOfMove(s, m);
    Projects(l, moves);
    FreshProjects(l, moves);
    SinkConservation(l, StepsOf(l, moves));
    AtMostOne(s, m);
    if steps != [] {
      RemovesAndSweeps(l, StepsOf(l, moves), steps[0]);
      if steps[0].Remove? { EvictDropsOwn(s.w, l, steps[0].id); }
    }
  }

  /** What each answer means: 503 to start with if the map is full, 409 if the id is in flight, and 503
      later if the host cannot be sent to; nothing else is answered before the wait. */
  lemma CodesMean(l: Limits, s: System, k: nat, sendOk: bool)
    requires k < |s.ds|
    ensures var d, next := s.ds[k], MoveOn(l, s, Advance(k, sendOk)).ds[k].pc;
            && (d.pc.Start? ==> (next == Refused(503) <==> |s.w.entries| >= l.max) && (next == Refused(503) || next == Checked))
            && (d.pc.Checked? ==> (next == Refused(409) <==> d.id in s.w.entries) && (next == Refused(409) || next == Inserted(s.w.now)))
            && (d.pc.Parked? ==> next == if sendOk then Sent(d.pc.sink) else GaveUp(503))
  {
    hide Exec;
  }

  // ----- 500 is reachable -----

  ghost predicate Reached(l: Limits, moves: seq<Move>, s: System) {
    RunMoves(l, moves) == s && FreshRun(l, moves) && HonestRun(l, moves)
  }

  lemma Then(l: Limits, moves: seq<Move>, s: System, m: Move)
    requires Reached(l, moves, s) && Fresh(s, m) && Honest(s, m)
    ensures Reached(l, moves + [m], MoveOn(l, s, m))
  {
    hide MoveOn, Fresh, Honest;
    var all := moves + [m];
    assert all[..|moves|] == moves;
    forall n | 0 <= n < |all| ensures Fresh(RunMoves(l, all[..n]), all[n]) && Honest(RunMoves(l, all[..n]), all[n]) {
      if n < |moves| { assert all[..n] == moves[..n] && all[n] == moves[n]; }
    }
  }

  const EMPTY_ENTRY := Entry(0, Waiting([]))

  function InsertedWorld(id: Id): World { START.(entries := map[id := EMPTY_ENTRY], inserted := {id}) }

  lemma InsertMoves(l: Limits, id: Id)
    requires l.max > 0
    ensures var checked := System(START.(inserting := multiset{id}), [Dispatcher(id, Checked)]);
            && MoveOn(l, System(START, [Dispatcher(id, Start)]), Advance(0, true)) == checked
            && MoveOn(l, checked, Advance(0, true)) == System(InsertedWorld(id), [Dispatcher(id, Inserted(0))])
  {
    assert START.inserting + multiset{id} - multiset{id} == multiset{};
    assert map[][id := EMPTY_ENTRY] == map[id := EMPTY_ENTRY];
  }

  lemma SweepMoves(l: Limits, id: Id)
    ensures var w, ds := InsertedWorld(id).(now := l.timeout), [Dispatcher(id, Inserted(0))];
            && MoveOn(l, System(InsertedWorld(id), ds), Environment(Tick(l.timeout))) == System(w, ds)
            && MoveOn(l, System(w, ds), Environment(SweepLook(id, l.timeout))) == System(w.(doomed := multiset{id}), ds)
  {
  }

  lemma SweptMoves(l: Limits, id: Id)
    ensures var w, ds := InsertedWorld(id).(now := l.timeout), [Dispatcher(id, Inserted(0))];
            && MoveOn(l, System(w.(doomed := multiset{id}), ds), Environment(SweepRemove(id))) == System(w.(entries := map[]), ds)
            && MoveOn(l, System(w.(entries := map[]), ds), Advance(0, true)) == System(w.(entries := map[]), [Dispatcher(id, GaveUp(500))])
  {
    assert multiset{id} - multiset{id} == multiset{};
    assert map[id := EMPTY_ENTRY] - {id} == map[];
  }

  /** A sweep between a dispatcher's insert and its park makes it answer 500. */
  lemma LostIsReachable(l: Limits, id: Id) returns (moves: seq<Move>)
    requires l.max > 0
    ensures FreshRun(l, moves) && HonestRun(l, moves)
    ensures RunMoves(l, moves).ds == [Dispatcher(id, GaveUp(500))]
  {
    hide FreshRun, HonestRun, RunMoves, MoveOn, InsertedWorld;
    InsertMoves(l, id);
    SweepMoves(l, id);
    SweptMoves(l, id);
    Arrived(l, id);
    moves := [] + [Arrive(id)];
    var s := System(START, [Dispatcher(id, Start)]);
    moves, s := Continued(l, moves, s, Advance(0, true));
    moves, s := Continued(l, moves, s, Advance(0, true));
    moves, s := Continued(l, moves, s, Environment(Tick(l.timeout)));
    moves, s := Continued(l, moves, s, Environment(SweepLook(id, l.timeout)));
    moves, s := Continued(l, moves, s, Environment(SweepRemove(id)));
    moves, s := Continued(l, moves, s, Advance(0, true));
  }

  lemma Arrived(l: Limits, id: Id)
    ensures Reached(l, [] + [Arrive(id)], System(START, [Dispatcher(id, Start)]))
  {
    assert Reached(l, [], System(START, []));
    Then(l, [], System(START, []), Arrive(id));
    assert [] + [Dispatcher(id, Start)] == [Dispatcher(id, Start)];
  }

  lemma Continued(l: Limits, moves: seq<Move>, s: System, m: Move) returns (moves': seq<Move>, s': System)
    requires Reached(l, moves, s) && Fresh(s, m) && Honest(s, m)
    ensures Reached(l, moves', s') && s' == MoveOn(l, s, m)
  {
    Then(l, moves, s, m);
    moves', s' := moves + [m], MoveOn(l, s, m);
  }
}
