/**
 The pending map itself (`flux/src/state.rs`) and the dispatcher that drives it
 (`flux/src/unix_bridge.rs`), called one at a time. Each method is a sequence of the machine's
 locked steps, so whatever holds of every run of the machine holds of the map.
 */
module Pending {
  import opened PendingProtocol
  import D = Dispatching

  datatype InsertOutcome = Inserted | Duplicate | AtCapacity

  datatype ParkResult = Parked(sink: Sink) | AlreadyLanded(body: Body) | NotFound

  datatype Dispatched = Forwarded(sink: Sink) | Refused(code: int)

  lemma RunSnoc(l: Limits, steps: seq<Step>, step: Step)
    ensures Run(l, steps + [step]) == Exec(Run(l, steps), l, step)
  {
    assert (steps + [step])[..|steps|] == steps;
  }

  lemma ParkEffect(w: World, l: Limits, id: Id)
    requires id in w.entries
    ensures var v := Exec(w, l, ParkLocked(id));
            match w.entries[id].state
            case Waiting(sinks) =>
              v == w.(entries := w.entries[id := w.entries[id].(state := Waiting(sinks + [|w.owners|]))],
                      owners := w.owners + [id], receivers := w.receivers[id := |w.owners|])
            case Landed(_, _) => Exec(v, l, ParkRemove(id)) == w.(entries := w.entries - {id})
  {
    if w.entries[id].state.Landed? {
      assert w.claiming + multiset{id} - multiset{id} == w.claiming;
      assert w.dropped + [] == w.dropped;
    }
  }

  lemma DeliverEffect(w: World, l: Limits, id: Id, body: Body)
    requires id in w.entries
    ensures var v := Exec(w, l, DeliverLocked(id, body));
            var sinks := if w.entries[id].state.Waiting? then w.entries[id].state.sinks else [];
            && v.entries == w.entries[id := w.entries[id].(state := Landed(body, w.now + LANDED_TTL))]
            && v.answers == w.answers + Replies(sinks, body)
            && v.now == w.now && v.owners == w.owners
            && (id in v.delivering <== sinks != [])
  {
  }

  lemma DeliverRemoveEffect(w: World, l: Limits, id: Id)
    requires id in w.delivering
    ensures var v := Exec(w, l, DeliverRemove(id));
            v.entries == w.entries - {id} && v.answers == w.answers && v.now == w.now && v.owners == w.owners
  {
  }

  lemma RemoveEffect(w: World, l: Limits, id: Id)
    ensures var v := Exec(w, l, Remove(id));
            && v.entries == w.entries - {id} && v.answers == w.answers && v.now == w.now && v.owners == w.owners
            && v.receivers == w.receivers && v.sent == w.sent && v.inserted == w.inserted
  {
  }

  lemma LookEffect(w: World, l: Limits, id: Id)
    requires id in w.entries && Expired(w.entries[id], w.now, l.timeout)
    ensures Exec(w, l, SweepLook(id, w.now)) == w.(doomed := w.doomed + multiset{id})
  {
  }

  lemma SweepRemoveEffect(w: World, l: Limits, id: Id)
    requires id in w.doomed
    ensures var v := Exec(w, l, SweepRemove(id));
            && v.entries == w.entries - {id} && v.answers == w.answers && v.now == w.now && v.owners == w.owners
            && v.doomed == w.doomed - multiset{id}
  {
  }

  /** The steps of one sweep: look at each entry, then remove those that were expired. */
  function Looks(ids: seq<Id>, at: nat): (r: seq<Step>)
    ensures |r| == |ids|
  {
    seq(|ids|, i requires 0 <= i < |ids| => SweepLook(ids[i], at))
  }

  function Removes(ids: seq<Id>): (r: seq<Step>)
    ensures |r| == |ids|
  {
    seq(|ids|, i requires 0 <= i < |ids| => SweepRemove(ids[i]))
  }

  lemma LooksSnoc(ids: seq<Id>, id: Id, at: nat)
    ensures Looks(ids + [id], at) == Looks(ids, at) + [SweepLook(id, at)]
    ensures Removes(ids + [id]) == Removes(ids) + [SweepRemove(id)]
  {
  }

  /** A wait goes on until the timeout has passed, a landed body until its time is up. */
  predicate Lives(e: Entry, now: nat, timeout: nat) {
    match e.state
    case Waiting(_) => timeout > 0 && now < e.startedAt + timeout
    case Landed(_, until) => now < until
  }

  lemma ExpiredIff(entries: map<Id, Entry>, now: nat, timeout: nat)
    ensures forall id :: id in entries ==> (Expired(entries[id], now, timeout) <==> !Lives(entries[id], now, timeout))
  {
  }

  class PendingMap {
    const limits: Limits
    var entries: map<Id, Entry>
    var now: nat
    var nextSink: Sink
    var answers: seq<Answer>
    ghost var history: seq<Step>

    ghost function World(): World
      reads this
    {
      Run(limits, history)
    }

    ghost predicate Valid()
      reads this
    {
      && World().entries == entries
      && World().now == now
      && |World().owners| == nextSink
      && World().answers == answers
    }

    constructor (limits: Limits)
      ensures Valid() && this.limits == limits && history == []
    {
      this.limits := limits;
      entries, now, nextSink, answers, history := map[], 0, 0, [], [];
    }

    method Elapse(seconds: nat)
      requires Valid()
      modifies this
      ensures Valid() && history == old(history) + [Tick(seconds)]
    {
      RunSnoc(limits, history, Tick(seconds));
      now, history := now + seconds, history + [Tick(seconds)];
    }

    method InsertWaiting(id: Id) returns (r: InsertOutcome)
      requires Valid()
      modifies this
      ensures Valid() && now == old(now) && answers == old(answers)
      ensures r == AtCapacity <==> |old(entries)| >= limits.max
      ensures r == AtCapacity ==> history == old(history)
      ensures r != AtCapacity ==> history == old(history) + [InsertCheck(id)] + [InsertCommit(id)]
      ensures r == Duplicate ==> id in entries
      ensures r == Inserted <==> id !in old(entries) && id in entries
      ensures entries == if r == Inserted then old(entries)[id := Entry(now, Waiting([]))] else old(entries)
      ensures World().inserted == old(World().inserted) + if r == Inserted then {id} else {}
      ensures World().receivers == old(World().receivers) && World().sent == old(World().sent)
    {
      if |entries| >= limits.max {
        return AtCapacity;
      }
      RunSnoc(limits, history, InsertCheck(id));
      RunSnoc(limits, history + [InsertCheck(id)], InsertCommit(id));
      assert World().inserting + multiset{id} - multiset{id} == World().inserting;
      history := history + [InsertCheck(id)] + [InsertCommit(id)];
      if id in entries {
        return Duplicate;
      }
      entries := entries[id := Entry(now, Waiting([]))];
      return Inserted;
    }

    method Park(id: Id) returns (r: ParkResult)
      requires Valid()
      modifies this
      ensures Valid() && now == old(now) && answers == old(answers)
      ensures r == NotFound <==> id !in old(entries)
      ensures r.Parked? <==> id in old(entries) && old(entries)[id].state.Waiting?
      ensures r.Parked? ==>
                && history == old(history) + [ParkLocked(id)]
                && r.sink == old(nextSink)
                && entries == old(entries)[id := old(entries)[id].(state := Waiting(old(entries)[id].state.sinks + [r.sink]))]
                && World().receivers == old(World().receivers)[id := r.sink]
                && World().inserted == old(World().inserted)
      ensures r.AlreadyLanded? ==>
                && history == old(history) + [ParkLocked(id)] + [ParkRemove(id)]
                && old(entries)[id].state.Landed? && old(entries)[id].state.body == r.body
                && entries == old(entries) - {id}
      ensures r.NotFound? ==> history == old(history) && entries == old(entries)
    {
      hide Run, Exec;
      if id !in entries {
        return NotFound;
      }
      ParkEffect(World(), limits, id);
      RunSnoc(limits, history, ParkLocked(id));
      match entries[id].state
      case Waiting(sinks) =>
        history := history + [ParkLocked(id)];
        r := Parked(nextSink);
        entries := entries[id := entries[id].(state := Waiting(sinks + [nextSink]))];
        nextSink := nextSink + 1;
      case Landed(body, _) =>
        RunSnoc(limits, history + [ParkLocked(id)], ParkRemove(id));
        history := history + [ParkLocked(id)] + [ParkRemove(id)];
        entries := entries - {id};
        r := AlreadyLanded(body);
    }

    /** Fan a response out to every sink parked on the request. An entry somebody was waiting on
        is gone afterwards; one nobody had parked on keeps the body for a late park. */
    method Deliver(id: Id, body: Body)
      requires Valid()
      modifies this
      ensures Valid() && now == old(now)
      ensures id !in old(entries) ==> history == old(history) && entries == old(entries) && answers == old(answers)
      ensures id in old(entries) ==>
                var sinks := if old(entries)[id].state.Waiting? then old(entries)[id].state.sinks else [];
                && answers == old(answers) + Replies(sinks, body)
                && entries == (if sinks != [] then old(entries) - {id}
                               else old(entries)[id := old(entries)[id].(state := Landed(body, now + LANDED_TTL))])
                && history == old(history) + [DeliverLocked(id, body)] + if sinks != [] then [DeliverRemove(id)] else []
    {
      hide Run, Exec, Replies;
      if id !in entries {
        return;
      }
      DeliverEffect(World(), limits, id, body);
      var was := entries[id].state;
      RunSnoc(limits, history, DeliverLocked(id, body));
      history := history + [DeliverLocked(id, body)];
      entries := entries[id := entries[id].(state := Landed(body, now + LANDED_TTL))];
      var fannedOut := false;
      if was.Waiting? {
        fannedOut := was.sinks != [];
        FanOut(was.sinks, body);
      }
      if fannedOut {
        DeliverRemoveEffect(World(), limits, id);
        RunSnoc(limits, history, DeliverRemove(id));
        history := history + [DeliverRemove(id)];
        entries := entries - {id};
      }
    }

    method FanOut(sinks: seq<Sink>, body: Body)
      modifies this`answers
      ensures answers == old(answers) + Replies(sinks, body)
    {
      for i := 0 to |sinks|
        invariant answers == old(answers) + Replies(sinks[..i], body)
      {
        answers := answers + [Answer(sinks[i], body)];
        assert Replies(sinks[..i + 1], body) == Replies(sinks[..i], body) + [Answer(sinks[i], body)];
      }
      assert sinks[..|sinks|] == sinks;
    }

    method Remove(id: Id) returns (found: bool)
      requires Valid()
      modifies this
      ensures Valid() && now == old(now) && answers == old(answers)
      ensures history == old(history) + [PendingProtocol.Remove(id)]
      ensures found == (id in old(entries)) && entries == old(entries) - {id}
      ensures World().receivers == old(World().receivers) && World().sent == old(World().sent)
    {
      hide Run, Exec;
      RemoveEffect(World(), limits, id);
      RunSnoc(limits, history, PendingProtocol.Remove(id));
      history := history + [PendingProtocol.Remove(id)];
      found := id in entries;
      entries := entries - {id};
    }

    /** A sweep nobody interrupts removes exactly the expired entries: no overdue wait is left. */
    method DrainExpired() returns (gone: seq<Id>)
      requires Valid()
      modifies this
      ensures Valid() && now == old(now) && answers == old(answers)
      ensures forall id :: id in gone <==> id in old(entries) && Expired(old(entries)[id], now, limits.timeout)
      ensures forall i, j :: 0 <= i < j < |gone| ==> gone[i] != gone[j]
      ensures entries == map id | id in old(entries) && !Expired(old(entries)[id], now, limits.timeout) :: old(entries)[id]
      ensures history == old(history) + Looks(gone, now) + Removes(gone)
      ensures forall id :: id in entries ==> Lives(entries[id], now, limits.timeout)
      ensures forall id :: id in old(entries) && id !in entries ==> !Lives(old(entries)[id], now, limits.timeout)
    {
      hide Run, Exec, Expired, Looks, Removes, Lives;
      gone := CollectExpired();
      ExpiredIff(entries, now, limits.timeout);
      RemoveAll(gone);
    }

    method CollectExpired() returns (gone: seq<Id>)
      requires Valid()
      modifies this`history
      ensures Valid() && history == old(history) + Looks(gone, now)
      ensures forall id :: id in gone <==> id in entries && Expired(entries[id], now, limits.timeout)
      ensures forall i, j :: 0 <= i < j < |gone| ==> gone[i] != gone[j]
      ensures forall id :: id in gone ==> id in World().doomed
    {
      hide Run, Exec, Expired, Looks;
      gone := [];
      assert Looks([], now) == [];
      var todo := entries.Keys;
      while todo != {}
        invariant Valid() && todo <= entries.Keys
        invariant forall id :: id in gone <==> id in entries.Keys - todo && Expired(entries[id], now, limits.timeout)
        invariant forall i, j :: 0 <= i < j < |gone| ==> gone[i] != gone[j]
        invariant forall id :: id in gone ==> id in World().doomed
        invariant history == old(history) + Looks(gone, now)
      {
        var id :| id in todo;
        todo := todo - {id};
        if Expired(entries[id], now, limits.timeout) {
          LookEffect(World(), limits, id);
          RunSnoc(limits, history, SweepLook(id, now));
          history := history + [SweepLook(id, now)];
          LooksSnoc(gone, id, now);
          gone := gone + [id];
        }
      }
    }

    method RemoveAll(gone: seq<Id>)
      requires Valid()
      requires forall id :: id in gone ==> id in World().doomed
      requires forall i, j :: 0 <= i < j < |gone| ==> gone[i] != gone[j]
      modifies this
      ensures Valid() && now == old(now) && answers == old(answers)
      ensures entries == old(entries) - Among(gone)
      ensures history == old(history) + Removes(gone)
    {
      hide Run, Exec, Removes;
      assert Removes(gone[..0]) == [];
      for i := 0 to |gone|
        invariant Valid() && now == old(now) && answers == old(answers) && nextSink == old(nextSink)
        invariant entries == old(entries) - Among(gone[..i])
        invariant forall j :: i <= j < |gone| ==> gone[j] in World().doomed
        invariant history == old(history) + Removes(gone[..i])
      {
        var id := gone[i];
        SweepRemoveEffect(World(), limits, id);
        RunSnoc(limits, history, SweepRemove(id));
        history := history + [SweepRemove(id)];
        assert gone[..i + 1] == gone[..i] + [id];
        LooksSnoc(gone[..i], id, now);
        assert Among(gone[..i + 1]) == Among(gone[..i]) + {id};
        entries := entries - {id};
      }
      assert gone[..|gone|] == gone;
    }

    method InsertAndPark(id: Id) returns (r: Dispatched)
      requires Valid()
      modifies this
      ensures Valid() && now == old(now)
      ensures r.Forwarded? <==> |old(entries)| < limits.max && id !in old(entries)
      ensures r.Refused? ==> r.code == (if |old(entries)| < limits.max then 409 else 503) && entries == old(entries)
      ensures r == Refused(503) ==> history == old(history)
      ensures r == Refused(409) ==> history == old(history) + [InsertCheck(id)] + [InsertCommit(id)]
      ensures r.Forwarded? ==> history == old(history) + [InsertCheck(id)] + [InsertCommit(id)] + [ParkLocked(id)]
      ensures r.Forwarded? ==>
                && entries == old(entries)[id := Entry(now, Waiting([r.sink]))]
                && id in World().receivers && World().receivers[id] == r.sink
    {
      hide Run, Exec;
      var inserted := InsertWaiting(id);
      if inserted == Duplicate { return Refused(409); }
      if inserted == AtCapacity { return Refused(503); }
      var parked := Park(id);
      if !parked.Parked? { return Refused(500); }
      assert [] + [parked.sink] == [parked.sink];
      return Forwarded(parked.sink);
    }

    /** One dispatch: insert, park, send. It never finds its entry lost, it leaves nothing behind
        when it is refused, and it keeps to the order every later guarantee rests on. */
    method Dispatch(id: Id, streamUp: bool, queueFree: bool) returns (r: Dispatched)
      requires Valid()
      modifies this
      ensures Valid()
      ensures r == Refused(409) <==> |old(entries)| < limits.max && id in old(entries)
      ensures r.Forwarded? <==> |old(entries)| < limits.max && id !in old(entries) && streamUp && queueFree
      ensures r.Refused? ==> r.code in {409, 503} && entries == old(entries)
      ensures r.Forwarded? ==>
                && entries == old(entries)[id := Entry(now, Waiting([r.sink]))]
                && id in World().sent && id in World().receivers && World().receivers[id] == r.sink
      ensures D.OrderlyRun(limits, old(history)) && (id in old(World().inserted) ==> id in old(entries)) ==>
                D.OrderlyRun(limits, history)
    {
      hide Run, Exec, D.OrderlyRun;
      if D.OrderlyRun(limits, history) && (id in World().inserted ==> id in entries) {
        DispatchIsOrderly(limits, history, id);
      }
      r := InsertAndPark(id);
      if r.Refused? {
        return;
      }
      if !streamUp || !queueFree {
        var _ := Remove(id);
        return Refused(503);
      }
      SendEffect(World(), limits, id);
      RunSnoc(limits, history, Send(id));
      history := history + [Send(id)];
    }
  }

  /** The dispatcher's own order of steps is the orderly one, provided its id is new or still in
      flight. */
  lemma DispatchIsOrderly(l: Limits, h: seq<Step>, id: Id)
    requires D.OrderlyRun(l, h) && (id in Run(l, h).inserted ==> id in Run(l, h).entries)
    ensures var h1 := h + [InsertCheck(id)] + [InsertCommit(id)];
            && D.OrderlyRun(l, h1)
            && (id !in Run(l, h).entries ==>
                  && D.OrderlyRun(l, h1 + [ParkLocked(id)] + [Remove(id)])
                  && (|Run(l, h).entries| < l.max ==> D.OrderlyRun(l, h1 + [ParkLocked(id)] + [Send(id)])))
  {
    hide Run, Exec, D.OrderlyRun;
    D.RunInOrder(l, h);
    D.OrderlySnoc(l, h, InsertCheck(id));
    RunSnoc(l, h, InsertCheck(id));
    InsertEffect(Run(l, h), l, id);
    var h1 := h + [InsertCheck(id)];
    D.OrderlySnoc(l, h1, InsertCommit(id));
    RunSnoc(l, h1, InsertCommit(id));
    if id !in Run(l, h).entries {
      var h2 := h1 + [InsertCommit(id)];
      D.OrderlySnoc(l, h2, ParkLocked(id));
      RunSnoc(l, h2, ParkLocked(id));
      D.OrderlySnoc(l, h2 + [ParkLocked(id)], Remove(id));
      if |Run(l, h).entries| < l.max {
        ParkEffect(Run(l, h2), l, id);
        D.OrderlySnoc(l, h2 + [ParkLocked(id)], Send(id));
      }
    }
  }

  lemma InsertEffect(w: World, l: Limits, id: Id)
    ensures var v := Exec(w, l, InsertCheck(id));
            && v.entries == w.entries && v.inserted == w.inserted
            && Exec(v, l, InsertCommit(id)).receivers == w.receivers
            && (|w.entries| < l.max && id !in w.entries ==>
                  Exec(v, l, InsertCommit(id)).entries == w.entries[id := Entry(w.now, Waiting([]))])
  {
    hide Exec;
    CheckEffect(w, l, id);
    CommitEffect(Exec(w, l, InsertCheck(id)), l, id);
  }

  lemma CheckEffect(w: World, l: Limits, id: Id)
    ensures Exec(w, l, InsertCheck(id)) ==
            if |w.entries| < l.max then w.(inserting := w.inserting + multiset{id}) else w
  {
  }

  lemma CommitEffect(w: World, l: Limits, id: Id)
    ensures var v := Exec(w, l, InsertCommit(id));
            && v.receivers == w.receivers
            && (id in w.inserting && id !in w.entries ==> v.entries == w.entries[id := Entry(w.now, Waiting([]))])
  {
  }

  lemma SendEffect(w: World, l: Limits, id: Id)
    ensures Exec(w, l, Send(id)) == w.(sent := w.sent + {id})
  {
  }

  function Among(ids: seq<Id>): set<Id> { set id | id in ids }
}
