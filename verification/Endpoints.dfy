/**
 The endpoint table all hosts share (`coold/src/sync.rs`). A reconcile reads the rows that carry
 its host's address, and later writes the difference to what Podman has; other hosts may write in
 between. A row is addressed by its container id alone.
 */
module Endpoints {
  import opened Text
  import opened KeyedDiff

  type Host = string

  datatype Endpoint = Endpoint(name: string, namespace: string, host: Host, ip: string, state: string, health: string)

  type Rows = map<Id, Endpoint>

  datatype Row = Row(endpoint: Endpoint, updatedAt: int)

  type Table = map<Id, Row>

  datatype Statement = InsertOrUpdate(id: Id, row: Row) | DeleteRow(id: Id)

  function StatementOf(d: Delta<Endpoint>, now: int): Statement {
    match d
    case Upsert(id, e) => InsertOrUpdate(id, Row(e, now))
    case Delete(id) => DeleteRow(id)
  }

  function Statements(ds: seq<Delta<Endpoint>>, now: int): (r: seq<Statement>)
    ensures |r| == |ds|
  {
    seq(|ds|, i requires 0 <= i < |ds| => StatementOf(ds[i], now))
  }

  method BuildStatements(deltas: seq<Delta<Endpoint>>, now: int) returns (out: seq<Statement>)
    ensures out == Statements(deltas, now)
  {
    out := [];
    for i := 0 to |deltas|
      invariant out == Statements(deltas, now)[..i]
    {
      match deltas[i]
      case Upsert(id, e) => out := out + [InsertOrUpdate(id, Row(e, now))];
      case Delete(id) => out := out + [DeleteRow(id)];
    }
  }

  function Execute(t: Table, s: Statement): Table {
    match s
    case InsertOrUpdate(id, row) => t[id := row]
    case DeleteRow(id) => t - {id}
  }

  function Transaction(t: Table, ss: seq<Statement>): Table {
    if ss == [] then t else Execute(Transaction(t, ss[..|ss| - 1]), ss[|ss| - 1])
  }

  function AllRows(t: Table): Rows { map id | id in t :: t[id].endpoint }

  /** The rows a host reads back: those that carry its address. */
  function RowsOf(t: Table, h: Host): Rows { map id | id in t && t[id].endpoint.host == h :: t[id].endpoint }

  predicate OfHost(rows: Rows, h: Host) { forall id :: id in rows ==> rows[id].host == h }

  lemma {:induction false} TransactionIsApply(t: Table, ds: seq<Delta<Endpoint>>, now: int)
    ensures AllRows(Transaction(t, Statements(ds, now))) == Apply(AllRows(t), ds)
  {
    if ds != [] {
      var n := |ds| - 1;
      TransactionIsApply(t, ds[..n], now);
      assert Statements(ds, now)[..n] == Statements(ds[..n], now);
    }
  }

  /** What a write does to each row. */
  lemma WrittenAt(t: Table, h: Host, desired: Rows, ds: seq<Delta<Endpoint>>, now: int, id: Id)
    requires OfHost(desired, h) && IsDiff(ds, desired, RowsOf(t, h))
    ensures Lookup(AllRows(Transaction(t, Statements(ds, now))), id) ==
            if id in desired then Some(desired[id])
            else if id in RowsOf(t, h) then None
            else Lookup(AllRows(t), id)
  {
    TransactionIsApply(t, ds, now);
    DiffApplied(AllRows(t), ds, desired, RowsOf(t, h), id);
  }

  function RowDelta(d: Delta<Endpoint>, now: int): Delta<Row> {
    match d
    case Upsert(id, e) => Upsert(id, Row(e, now))
    case Delete(id) => Delete(id)
  }

  function RowDeltas(ds: seq<Delta<Endpoint>>, now: int): (r: seq<Delta<Row>>)
    ensures |r| == |ds|
  {
    seq(|ds|, i requires 0 <= i < |ds| => RowDelta(ds[i], now))
  }

  lemma {:induction false} TransactionOnRows(t: Table, ds: seq<Delta<Endpoint>>, now: int)
    ensures Transaction(t, Statements(ds, now)) == Apply(t, RowDeltas(ds, now))
  {
    if ds != [] {
      var n := |ds| - 1;
      TransactionOnRows(t, ds[..n], now);
      assert Statements(ds, now)[..n] == Statements(ds[..n], now);
      assert RowDeltas(ds, now)[..n] == RowDeltas(ds[..n], now);
    }
  }

  /** A row that is written carries the time of the write; one that already was as wanted, or belongs to
      another host, keeps its own. */
  lemma StampsMove(t: Table, h: Host, desired: Rows, ds: seq<Delta<Endpoint>>, now: int, id: Id)
    requires OfHost(desired, h) && IsDiff(ds, desired, RowsOf(t, h))
    ensures Lookup(Transaction(t, Statements(ds, now)), id) ==
            if id in desired && !(id in t && t[id].endpoint == desired[id]) then Some(Row(desired[id], now))
            else if id !in desired && id in t && t[id].endpoint.host == h then None
            else Lookup(t, id)
  {
    hide IsDiff, Apply, Transaction;
    var rows := RowDeltas(ds, now);
    TransactionOnRows(t, ds, now);
    RowsOneEach(t, h, desired, ds, now, id);
    ApplyAt(t, rows, id);
    if Mentions(rows, id) {
      var i :| 0 <= i < |rows| && rows[i].id == id;
    }
  }

  lemma RowsOneEach(t: Table, h: Host, desired: Rows, ds: seq<Delta<Endpoint>>, now: int, id: Id)
    requires OfHost(desired, h) && IsDiff(ds, desired, RowsOf(t, h))
    ensures Unique(RowDeltas(ds, now))
    ensures Mentions(RowDeltas(ds, now), id) <==>
            (id in desired && !(id in t && t[id].endpoint == desired[id])) || (id !in desired && id in t && t[id].endpoint.host == h)
    ensures forall i :: 0 <= i < |ds| && RowDeltas(ds, now)[i].id == id ==>
                          Wanted(RowDeltas(ds, now)[i]) == if id in desired then Some(Row(desired[id], now)) else None
  {
    var rows, current := RowDeltas(ds, now), RowsOf(t, h);
    assert forall i :: 0 <= i < |ds| ==> rows[i].id == ds[i].id && Needed(ds[i], desired, current);
    if Changed(id, desired, current) {
      var i :| 0 <= i < |ds| && ds[i] == Upsert(id, desired[id]);
      assert rows[i].id == id;
    } else if Gone(id, desired, current) {
      var i :| 0 <= i < |ds| && ds[i] == Delete(id);
      assert rows[i].id == id;
    }
  }

  lemma RowsAt(t: Table, h: Host, id: Id)
    ensures Lookup(RowsOf(t, h), id) ==
            if id in t && t[id].endpoint.host == h then Lookup(AllRows(t), id) else None
    ensures Lookup(AllRows(t), id) == if id in t then Some(t[id].endpoint) else None
  {
  }

  /** Whatever order the statements come in, afterwards the host's rows are what it wanted. */
  lemma OwnRowsReached(t: Table, h: Host, desired: Rows, ds: seq<Delta<Endpoint>>, now: int)
    requires OfHost(desired, h) && IsDiff(ds, desired, RowsOf(t, h))
    ensures RowsOf(Transaction(t, Statements(ds, now)), h) == desired
  {
    hide IsDiff, Transaction, Statements, AllRows, RowsOf;
    var t' := Transaction(t, Statements(ds, now));
    forall id ensures Lookup(RowsOf(t', h), id) == Lookup(desired, id) {
      WrittenAt(t, h, desired, ds, now, id);
      RowsAt(t, h, id);
      RowsAt(t', h, id);
    }
    SameLookups(RowsOf(t', h), desired);
  }

  predicate OthersKept(t: Table, t': Table, h: Host, g: Host) { g != h ==> RowsOf(t', g) == RowsOf(t, g) }

  /** A host's write leaves every other host's rows alone exactly when none of the ids it wants is
      another host's row. */
  lemma OthersKeptIff(t: Table, h: Host, desired: Rows, ds: seq<Delta<Endpoint>>, now: int)
    requires OfHost(desired, h) && IsDiff(ds, desired, RowsOf(t, h))
    ensures var t' := Transaction(t, Statements(ds, now));
            (forall g :: OthersKept(t, t', h, g)) <==> (forall id :: id in desired && id in t ==> t[id].endpoint.host == h)
  {
    hide IsDiff, Transaction, Statements, AllRows, RowsOf;
    var t' := Transaction(t, Statements(ds, now));
    if forall id :: id in desired && id in t ==> t[id].endpoint.host == h {
      forall g ensures OthersKept(t, t', h, g) {
        if g != h {
          forall id ensures Lookup(RowsOf(t', g), id) == Lookup(RowsOf(t, g), id) {
            WrittenAt(t, h, desired, ds, now, id);
            RowsAt(t, h, id);
            RowsAt(t, g, id);
            RowsAt(t', g, id);
          }
          SameLookups(RowsOf(t', g), RowsOf(t, g));
        }
      }
    } else {
      var id :| id in desired && id in t && t[id].endpoint.host != h;
      var g := t[id].endpoint.host;
      WrittenAt(t, h, desired, ds, now, id);
      RowsAt(t, g, id);
      RowsAt(t', g, id);
      assert Lookup(RowsOf(t', g), id) != Lookup(RowsOf(t, g), id);
      assert !OthersKept(t, t', h, g);
    }
  }

  function At(h: Host): Endpoint { Endpoint("web", "n", h, "10.0.0.2", "running", "unknown") }

  /** A container id that another host has a row for: writing it takes the row away from that host. */
  lemma RowTakenOver()
    ensures var t, desired := map["x" := Row(At("g"), 0)], map["x" := At("h")];
            var ds := [Upsert("x", At("h"))];
            && OfHost(desired, "h") && IsDiff(ds, desired, RowsOf(t, "h"))
            && RowsOf(t, "g") == map["x" := At("g")] && RowsOf(Transaction(t, Statements(ds, 1)), "g") == map[]
  {
    var t, desired := map["x" := Row(At("g"), 0)], map["x" := At("h")];
    var ds := [Upsert("x", At("h"))];
    assert RowsOf(t, "h") == map[];
    assert ds[0] == Upsert("x", desired["x"]);
    assert IsDiff(ds, desired, map[]);
    assert Statements(ds, 1) == [InsertOrUpdate("x", Row(At("h"), 1))];
    assert Statements(ds, 1)[..0] == [] && Transaction(t, []) == t;
    assert Transaction(t, Statements(ds, 1)) == map["x" := Row(At("h"), 1)];
  }

  // ----- many hosts -----

  datatype Reading = Reading(desired: Rows, current: Rows)

  /** The table, the reconciles between their read and their write, and what each host last wrote. */
  datatype Mesh = Mesh(table: Table, reading: map<Host, Reading>, written: map<Host, Rows>)

  datatype Step =
    | Read(h: Host, desired: Rows)
    | Write(h: Host, deltas: seq<Delta<Endpoint>>, now: int)
    | GiveUp(h: Host)

  /** Each container id belongs to one host. */
  ghost predicate Owned(rows: Rows, h: Host, own: Id -> Host) {
    OfHost(rows, h) && forall id :: id in rows ==> own(id) == h
  }

  ghost predicate Legal(own: Id -> Host, m: Mesh, step: Step) {
    match step
    case Read(h, desired) => h !in m.reading && Owned(desired, h, own)
    case Write(h, deltas, _) => h in m.reading && IsDiff(deltas, m.reading[h].desired, m.reading[h].current)
    case GiveUp(_) => true
  }

  function Exec(m: Mesh, step: Step): Mesh {
    match step
    case Read(h, desired) => m.(reading := m.reading[h := Reading(desired, RowsOf(m.table, h))])
    case Write(h, deltas, now) =>
      if h !in m.reading then m
      else m.(table := Transaction(m.table, Statements(deltas, now)),
              written := m.written[h := m.reading[h].desired],
              reading := m.reading - {h})
    case GiveUp(h) => m.(reading := m.reading - {h})
  }

  ghost predicate Trace(own: Id -> Host, states: seq<Mesh>, steps: seq<Step>) {
    && |states| == |steps| + 1
    && forall i :: 0 <= i < |steps| ==> Legal(own, states[i], steps[i]) && states[i + 1] == Exec(states[i], steps[i])
  }

  ghost predicate OwnedTable(t: Table, own: Id -> Host) {
    forall id :: id in t ==> t[id].endpoint.host == own(id)
  }

  /** What host `h` should have in the table: what it last wrote, or what was there at the start. */
  function Due(start: Table, m: Mesh, h: Host): Rows { if h in m.written then m.written[h] else RowsOf(start, h) }

  predicate HostSound(start: Table, m: Mesh, h: Host) {
    && RowsOf(m.table, h) == Due(start, m, h)
    && (h in m.reading ==> m.reading[h].current == RowsOf(m.table, h))
  }

  ghost predicate Sound(own: Id -> Host, start: Table, m: Mesh) {
    && OwnedTable(m.table, own)
    && (forall h :: HostSound(start, m, h))
    && (forall h :: h in m.reading ==> Owned(m.reading[h].desired, h, own))
  }

  lemma WriteKeepsOwned(own: Id -> Host, t: Table, h: Host, desired: Rows, ds: seq<Delta<Endpoint>>, now: int)
    requires OwnedTable(t, own) && Owned(desired, h, own) && IsDiff(ds, desired, RowsOf(t, h))
    ensures OwnedTable(Transaction(t, Statements(ds, now)), own)
  {
    hide IsDiff, Transaction, Statements, AllRows, RowsOf;
    var t' := Transaction(t, Statements(ds, now));
    forall id | id in t' ensures t'[id].endpoint.host == own(id) {
      WrittenAt(t, h, desired, ds, now, id);
      RowsAt(t, h, id);
      RowsAt(t', h, id);
    }
  }

  lemma WriteSound(own: Id -> Host, start: Table, m: Mesh, h: Host, ds: seq<Delta<Endpoint>>, now: int)
    requires Sound(own, start, m) && Legal(own, m, Write(h, ds, now))
    ensures Sound(own, start, Exec(m, Write(h, ds, now)))
  {
    hide IsDiff, Transaction, Statements, AllRows, RowsOf, OwnedTable, Owned;
    var m' := Exec(m, Write(h, ds, now));
    var desired := m.reading[h].desired;
    assert HostSound(start, m, h);
    OwnedOfHost(own, m.table, h, desired);
    OwnRowsReached(m.table, h, desired, ds, now);
    OthersKeptIff(m.table, h, desired, ds, now);
    WriteKeepsOwned(own, m.table, h, desired, ds, now);
    forall g ensures HostSound(start, m', g) {
      assert HostSound(start, m, g);
      assert OthersKept(m.table, m'.table, h, g);
    }
  }

  lemma OwnedOfHost(own: Id -> Host, t: Table, h: Host, desired: Rows)
    requires OwnedTable(t, own) && Owned(desired, h, own)
    ensures OfHost(desired, h) && forall id :: id in desired && id in t ==> t[id].endpoint.host == h
  {
  }

  lemma StepSound(own: Id -> Host, start: Table, m: Mesh, step: Step)
    requires Sound(own, start, m) && Legal(own, m, step)
    ensures Sound(own, start, Exec(m, step))
  {
    hide IsDiff, Transaction, Statements, AllRows, RowsOf, OwnedTable, Owned;
    match step
    case Write(h, ds, now) => WriteSound(own, start, m, h, ds, now);
    case Read(_, _) =>
      forall g ensures HostSound(start, Exec(m, step), g) {
        assert HostSound(start, m, g);
      }
    case GiveUp(_) =>
      forall g ensures HostSound(start, Exec(m, step), g) {
        assert HostSound(start, m, g);
      }
  }

  lemma {:induction false} RunSound(own: Id -> Host, states: seq<Mesh>, steps: seq<Step>, n: nat)
    requires Trace(own, states, steps) && n <= |steps|
    requires OwnedTable(states[0].table, own) && states[0].reading == map[] && states[0].written == map[]
    ensures Sound(own, states[0].table, states[n])
  {
    hide Legal, Exec;
    if n > 0 {
      RunSound(own, states, steps, n - 1);
      StepSound(own, states[0].table, states[n - 1], steps[n - 1]);
    }
  }

  /** With ids unique across hosts and one reconcile at a time per host, however the hosts' reads
      and writes interleave: at every moment the table holds, of each host that has written, exactly
      the endpoints it last wanted, and of each other host what was there before. */
  lemma TableIsUnion(own: Id -> Host, states: seq<Mesh>, steps: seq<Step>, n: nat, id: Id)
    requires Trace(own, states, steps) && n <= |steps|
    requires OwnedTable(states[0].table, own) && states[0].reading == map[] && states[0].written == map[]
    ensures var h := own(id);
            && RowsOf(states[n].table, h) == Due(states[0].table, states[n], h)
            && Lookup(AllRows(states[n].table), id) ==
               if h in states[n].written then Lookup(states[n].written[h], id) else Lookup(AllRows(states[0].table), id)
  {
    RunSound(own, states, steps, n);
    assert HostSound(states[0].table, states[n], own(id));
    RowsAt(states[n].table, own(id), id);
    RowsAt(states[0].table, own(id), id);
  }
}
