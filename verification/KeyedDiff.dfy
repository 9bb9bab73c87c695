/**
 The difference of two keyed maps as a list of changes (`coold/src/model.rs`). The source walks
 hash maps, so the order of the changes is unspecified: every claim here holds for each order.
 */
module KeyedDiff {
  import opened Text

  type Id = string

  datatype Delta<V> = Upsert(id: Id, value: V) | Delete(id: Id)

  function Put<V>(t: map<Id, V>, d: Delta<V>): map<Id, V> {
    match d
    case Upsert(id, value) => t[id := value]
    case Delete(id) => t - {id}
  }

  function Apply<V>(t: map<Id, V>, ds: seq<Delta<V>>): map<Id, V> {
    if ds == [] then t else Put(Apply(t, ds[..|ds| - 1]), ds[|ds| - 1])
  }

  function Lookup<V>(t: map<Id, V>, id: Id): Option<V> { if id in t then Some(t[id]) else None }

  predicate Changed<V(==)>(id: Id, desired: map<Id, V>, current: map<Id, V>) {
    id in desired && Lookup(current, id) != Some(desired[id])
  }

  predicate Gone<V>(id: Id, desired: map<Id, V>, current: map<Id, V>) { id in current && id !in desired }

  predicate Needed<V(==)>(d: Delta<V>, desired: map<Id, V>, current: map<Id, V>) {
    match d
    case Upsert(id, value) => Changed(id, desired, current) && value == desired[id]
    case Delete(id) => Gone(id, desired, current)
  }

  ghost predicate Unique<V>(ds: seq<Delta<V>>) {
    forall i, j :: 0 <= i < j < |ds| ==> ds[i].id != ds[j].id
  }

  /** One change for each key that differs, and no other. */
  ghost predicate IsDiff<V(!new)>(ds: seq<Delta<V>>, desired: map<Id, V>, current: map<Id, V>) {
    && Unique(ds)
    && (forall d :: d in ds ==> Needed(d, desired, current))
    && (forall id :: Changed(id, desired, current) ==> Upsert(id, desired[id]) in ds)
    && (forall id :: Gone(id, desired, current) ==> Delete(id) in ds)
  }

  ghost predicate Mentions<V>(ds: seq<Delta<V>>, id: Id) { exists i :: 0 <= i < |ds| && ds[i].id == id }

  /** A list with one change per key does to each key what its change says, in whatever order. */
  lemma {:induction false} ApplyAt<V>(t: map<Id, V>, ds: seq<Delta<V>>, id: Id)
    requires Unique(ds)
    ensures !Mentions(ds, id) ==> Lookup(Apply(t, ds), id) == Lookup(t, id)
    ensures forall i :: 0 <= i < |ds| && ds[i].id == id ==> Lookup(Apply(t, ds), id) == Wanted(ds[i])
  {
    if ds != [] {
      var n := |ds| - 1;
      ApplyAt(t, ds[..n], id);
      if ds[n].id != id {
        assert Lookup(Apply(t, ds), id) == Lookup(Apply(t, ds[..n]), id);
        assert forall i :: 0 <= i < n ==> ds[..n][i] == ds[i];
      }
    }
  }

  function Wanted<V>(d: Delta<V>): Option<V> {
    match d
    case Upsert(_, value) => Some(value)
    case Delete(_) => None
  }

  /** What applying a diff to any table does to every key: the keys the diff was about become what
      was desired, and all others stay. */
  lemma DiffApplied<V(!new)>(t: map<Id, V>, ds: seq<Delta<V>>, desired: map<Id, V>, current: map<Id, V>, id: Id)
    requires IsDiff(ds, desired, current)
    ensures Lookup(Apply(t, ds), id) ==
            if Changed(id, desired, current) || Gone(id, desired, current) then Lookup(desired, id) else Lookup(t, id)
  {
    ApplyAt(t, ds, id);
    assert forall i :: 0 <= i < |ds| ==> Needed(ds[i], desired, current);
    if Changed(id, desired, current) {
      assert Upsert(id, desired[id]) in ds;
    } else if Gone(id, desired, current) {
      assert Delete(id) in ds;
    }
  }

  /** Applied to what it was computed against, a diff gives what was desired. */
  lemma DiffReaches<V(!new)>(ds: seq<Delta<V>>, desired: map<Id, V>, current: map<Id, V>)
    requires IsDiff(ds, desired, current)
    ensures Apply(current, ds) == desired
  {
    forall id ensures Lookup(Apply(current, ds), id) == Lookup(desired, id) {
      DiffApplied(current, ds, desired, current, id);
    }
    SameLookups(Apply(current, ds), desired);
  }

  lemma SameLookups<V>(a: map<Id, V>, b: map<Id, V>)
    requires forall id :: Lookup(a, id) == Lookup(b, id)
    ensures a == b
  {
    assert forall id :: id in a ==> Lookup(b, id) == Some(a[id]);
    assert forall id :: id in b ==> Lookup(a, id) == Some(b[id]);
  }

  /** No change is needed exactly when the two maps are equal. */
  lemma EmptyDiff<V(!new)>(ds: seq<Delta<V>>, desired: map<Id, V>, current: map<Id, V>)
    requires IsDiff(ds, desired, current)
    ensures ds == [] <==> desired == current
  {
    assert ds != [] ==> Needed(ds[0], desired, current);
    DiffReaches(ds, desired, current);
  }

  method Diff<V(==, !new)>(desired: map<Id, V>, current: map<Id, V>) returns (out: seq<Delta<V>>)
    ensures IsDiff(out, desired, current)
  {
    out := [];
    var todo := desired.Keys;
    while todo != {}
      invariant todo <= desired.Keys
      invariant Unique(out)
      invariant forall d :: d in out ==> d.Upsert? && d.id !in todo && Needed(d, desired, current)
      invariant forall id :: Changed(id, desired, current) && id !in todo ==> Upsert(id, desired[id]) in out
    {
      var id :| id in todo;
      todo := todo - {id};
      if Changed(id, desired, current) {
        out := out + [Upsert(id, desired[id])];
      }
    }
    todo := current.Keys;
    while todo != {}
      invariant todo <= current.Keys
      invariant Unique(out)
      invariant forall d :: d in out ==> Needed(d, desired, current) && (d.Delete? ==> d.id !in todo)
      invariant forall id :: Changed(id, desired, current) ==> Upsert(id, desired[id]) in out
      invariant forall id :: Gone(id, desired, current) && id !in todo ==> Delete(id) in out
    {
      var id :| id in todo;
      todo := todo - {id};
      if id !in desired {
        out := out + [Delete(id)];
      }
    }
  }
}
