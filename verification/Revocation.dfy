/**
 flux's list of revoked tokens over time (`flux/src/revocation.rs`) and the checks a connecting host's
 token goes through (`flux/src/auth.rs`, `flux/src/main.rs`). A decoded token is its claims.
 */
module Revocation {
  import opened Text
  import opened Ordering
  import opened Counting

  type Jti = string
  type Denied = map<Jti, Option<nat>>

  /** The store in memory, what its file holds, and the clock. */
  datatype State = State(now: nat, denied: Denied, saved: Denied)

  datatype Step =
    | Tick(seconds: nat)
    | Revoke(jti: Jti, expiresAt: Option<nat>)
    | Unrevoke(jti: Jti)
    | Prune
    | Restart

  predicate Live(expiresAt: Option<nat>, now: nat) { expiresAt.None? || expiresAt.value > now }

  function Unexpired(m: Denied, now: nat): Denied { map j | j in m && Live(m[j], now) :: m[j] }

  function Exec(s: State, step: Step): State {
    match step
    case Tick(seconds) => s.(now := s.now + seconds)
    case Revoke(jti, expiresAt) =>
      var d := s.denied[jti := expiresAt];
      s.(denied := d, saved := d)
    case Unrevoke(jti) =>
      var d := s.denied - {jti};
      s.(denied := d, saved := d)
    case Prune =>
      var d := Unexpired(s.denied, s.now);
      if d == s.denied then s else s.(denied := d, saved := d)
    case Restart => s.(denied := Unexpired(s.saved, s.now))
  }

  function Run(s: State, steps: seq<Step>): State {
    if steps == [] then s else Exec(Run(s, steps[..|steps| - 1]), steps[|steps| - 1])
  }

  // ----- connecting -----

  datatype Claims = Claims(jti: Option<Jti>, exp: nat)

  datatype Outcome = Expired | OverClamp | Revoked | Accepted(lifetime: nat)

  const LEEWAY: nat := 60

  function SecondsUntilExpiry(exp: nat, now: nat): nat { if exp >= now then exp - now else 0 }

  predicate LifetimeWithinClamp(exp: nat, now: nat, max: nat) { max == 0 || SecondsUntilExpiry(exp, now) <= max }

  /** A token is decoded up to a minute after it has expired; the stream it opens is closed after
      what is left of its life. */
  function Connect(s: State, c: Claims, max: nat): Outcome {
    if c.exp + LEEWAY < s.now then Expired
    else if !LifetimeWithinClamp(c.exp, s.now, max) then OverClamp
    else if c.jti.Some? && c.jti.value in s.denied then Revoked
    else Accepted(SecondsUntilExpiry(c.exp, s.now))
  }

  /** The token gets no stream, or one that is closed at once. */
  predicate Harmless(s: State, c: Claims, max: nat) {
    Connect(s, c, max).Accepted? ==> Connect(s, c, max).lifetime == 0
  }

  /** A token is let in if and only if it expired no more than a minute ago, does not live longer than
      allowed, and is not denied; its stream then lasts until it expires, and no longer than allowed. */
  lemma ConnectIff(s: State, c: Claims, max: nat)
    ensures Connect(s, c, max).Accepted? <==>
            s.now <= c.exp + 60 && (max == 0 || c.exp <= s.now + max) && (c.jti.None? || c.jti.value !in s.denied)
    ensures Connect(s, c, max).Accepted? ==>
              var life := Connect(s, c, max).lifetime;
              && (c.exp >= s.now ==> s.now + life == c.exp) && (c.exp < s.now ==> life == 0)
              && (max != 0 ==> life <= max)
    ensures Connect(s, c, max) == Expired <==> s.now > c.exp + 60
    ensures Connect(s, c, max) == OverClamp <==> s.now <= c.exp + 60 && max != 0 && c.exp > s.now + max
    ensures Connect(s, c, max) == Revoked <==>
            s.now <= c.exp + 60 && (max == 0 || c.exp <= s.now + max) && c.jti.Some? && c.jti.value in s.denied
  {
  }

  /** The clock never goes back. */
  lemma {:induction false} ClockGrows(s: State, steps: seq<Step>)
    ensures s.now <= Run(s, steps).now
  {
    if steps != [] { ClockGrows(s, steps[..|steps| - 1]); }
  }

  /** The stream a token was let in with at `start` is still open at `s`. */
  predicate StillOpen(start: State, c: Claims, max: nat, s: State) {
    Connect(start, c, max).Accepted? && s.now < start.now + Connect(start, c, max).lifetime
  }

  /** Whatever happens after a token was let in, revocations included: its stream is open exactly until
      the token expires, and never longer than allowed. */
  lemma StreamsEnd(start: State, c: Claims, max: nat, steps: seq<Step>)
    ensures var s := Run(start, steps);
            && start.now <= s.now
            && (StillOpen(start, c, max, s) ==> s.now < c.exp && (max != 0 ==> s.now < start.now + max))
            && (Connect(start, c, max).Accepted? && s.now < c.exp ==> StillOpen(start, c, max, s))
  {
    hide Run, Connect;
    ClockGrows(start, steps);
    ConnectIff(start, c, max);
  }

  // ----- a revocation holds -----

  /** The entry is kept at least until the token's expiry. */
  predicate Late(expiresAt: Option<nat>, exp: nat) { expiresAt.None? || expiresAt.value >= exp }

  /** The step does not weaken the revocation of `jti`. */
  predicate Firm(step: Step, jti: Jti, exp: nat) {
    && (step.Revoke? && step.jti == jti ==> Late(step.expiresAt, exp))
    && (step.Unrevoke? ==> step.jti != jti)
  }

  /** The token has expired, or memory and file both deny it until it has. */
  predicate Guarded(s: State, jti: Jti, exp: nat) {
    || exp <= s.now
    || (jti in s.denied && Late(s.denied[jti], exp) && jti in s.saved && Late(s.saved[jti], exp))
  }

  lemma StepGuards(s: State, step: Step, jti: Jti, exp: nat)
    requires Guarded(s, jti, exp) && Firm(step, jti, exp)
    ensures Guarded(Exec(s, step), jti, exp)
  {
  }

  lemma {:induction false} RunGuards(s: State, steps: seq<Step>, jti: Jti, exp: nat)
    requires Guarded(s, jti, exp) && forall i :: 0 <= i < |steps| ==> Firm(steps[i], jti, exp)
    ensures Guarded(Run(s, steps), jti, exp)
  {
    hide Guarded, Firm, Exec;
    if steps != [] {
      var front := steps[..|steps| - 1];
      assert forall i :: 0 <= i < |front| ==> front[i] == steps[i];
      RunGuards(s, front, jti, exp);
      StepGuards(Run(s, front), steps[|steps| - 1], jti, exp);
    }
  }

  /** If every revoke of a token carries no expiry or one not before the token's own, then whatever
      is pruned, restarted or revoked besides, each later connect is refused or gets no lifetime. */
  lemma RevocationHolds(s: State, jti: Jti, expiresAt: Option<nat>, steps: seq<Step>, exp: nat, max: nat)
    requires Late(expiresAt, exp) && forall i :: 0 <= i < |steps| ==> Firm(steps[i], jti, exp)
    ensures Harmless(Run(Exec(s, Revoke(jti, expiresAt)), steps), Claims(Some(jti), exp), max)
  {
    RunGuards(Exec(s, Revoke(jti, expiresAt)), steps, jti, exp);
  }

  lemma RunTwo(s: State, a: Step, b: Step)
    ensures Run(s, [a, b]) == Exec(Exec(s, a), b)
  {
    hide Exec;
    assert [a, b][..1] == [a] && [a][..0] == [];
    assert Run(s, []) == s;
    assert Run(s, [a]) == Exec(s, a);
  }

  predicate Untouched(step: Step, jti: Jti) { (step.Revoke? || step.Unrevoke?) ==> step.jti != jti }

  ghost predicate Holds(s: State, jti: Jti, exp: nat, max: nat) {
    forall steps: seq<Step> :: (forall i :: 0 <= i < |steps| ==> Untouched(steps[i], jti)) ==>
                                 Harmless(Run(s, steps), Claims(Some(jti), exp), max)
  }

  /** One revoke, left alone, holds for good exactly when its entry is kept to the token's expiry or
      the token has expired already. */
  lemma RevokeHoldsIff(s: State, jti: Jti, expiresAt: Option<nat>, exp: nat, max: nat)
    ensures Holds(Exec(s, Revoke(jti, expiresAt)), jti, exp, max) <==> Late(expiresAt, exp) || s.now >= exp
  {
    var s' := Exec(s, Revoke(jti, expiresAt));
    if Late(expiresAt, exp) || s.now >= exp {
      forall steps: seq<Step> | forall i :: 0 <= i < |steps| ==> Untouched(steps[i], jti)
        ensures Harmless(Run(s', steps), Claims(Some(jti), exp), max)
      {
        assert forall i :: 0 <= i < |steps| ==> Untouched(steps[i], jti) && Firm(steps[i], jti, exp);
        RunGuards(s', steps, jti, exp);
      }
    } else {
      var wait := Tick(exp - 1 - s.now);
      var steps := [wait, Prune];
      var late := Exec(s', wait);
      var end := Exec(late, Prune);
      RunTwo(s', wait, Prune);
      assert jti !in end.denied && end.now == exp - 1;
      assert !Harmless(end, Claims(Some(jti), exp), max);
      assert forall i :: 0 <= i < |steps| ==> Untouched(steps[i], jti);
    }
  }

  /** Revoked until 5, valid until 10: pruned at 9, the token opens a stream again. */
  lemma RevokedTooShort(max: nat)
    ensures var s := Run(Exec(State(0, map[], map[]), Revoke("j", Some(5))), [Tick(9), Prune]);
            Connect(s, Claims(Some("j"), 10), max) == Accepted(1)
  {
    var s := Exec(State(0, map[], map[]), Revoke("j", Some(5)));
    RunTwo(s, Tick(9), Prune);
    assert "j" !in Unexpired(s.denied, 9);
  }

  // ----- the store -----

  datatype Entry = Entry(jti: Jti, expiresAt: Option<nat>)

  datatype File = Missing | Malformed | Entries(entries: seq<Entry>)

  /** Entries collected into a map: a later one replaces an earlier one. */
  function Collect(entries: seq<Entry>): Denied {
    if entries == [] then map[]
    else
      var last := entries[|entries| - 1];
      Collect(entries[..|entries| - 1])[last.jti := last.expiresAt]
  }

  function Contents(f: File): Denied { if f.Entries? then Collect(f.entries) else map[] }

  /** The entries of the map, in the order of their ids. */
  ghost predicate IsListing(entries: seq<Entry>, m: Denied) {
    && (forall i, j :: 0 <= i < j < |entries| ==> Less(entries[i].jti, entries[j].jti))
    && (forall i :: 0 <= i < |entries| ==> entries[i].jti in m && m[entries[i].jti] == entries[i].expiresAt)
    && (forall j :: j in m ==> Entry(j, m[j]) in entries)
  }

  lemma {:induction false} CollectAt(entries: seq<Entry>)
    requires forall i, j :: 0 <= i < j < |entries| ==> entries[i].jti != entries[j].jti
    ensures forall i :: 0 <= i < |entries| ==> entries[i].jti in Collect(entries)
                                               && Collect(entries)[entries[i].jti] == entries[i].expiresAt
    ensures forall j :: j in Collect(entries) ==> exists i :: 0 <= i < |entries| && entries[i].jti == j
  {
    if entries != [] {
      var front := entries[..|entries| - 1];
      CollectAt(front);
      assert forall i :: 0 <= i < |front| ==> front[i] == entries[i];
      forall j | j in Collect(entries) ensures exists i :: 0 <= i < |entries| && entries[i].jti == j {
        if j in Collect(front) {
          var i :| 0 <= i < |front| && front[i].jti == j;
          assert entries[i].jti == j;
        } else {
          assert entries[|entries| - 1].jti == j;
        }
      }
    }
  }

  /** What is written and read back is the map. */
  lemma CollectListing(entries: seq<Entry>, m: Denied)
    requires IsListing(entries, m)
    ensures Collect(entries) == m
  {
    forall i, j | 0 <= i < j < |entries| ensures entries[i].jti != entries[j].jti {
      LessTrichotomy(entries[i].jti, entries[j].jti);
    }
    CollectAt(entries);
    forall j | j in m ensures j in Collect(entries) && Collect(entries)[j] == m[j] {
      var i :| 0 <= i < |entries| && entries[i] == Entry(j, m[j]);
    }
  }

  function KeepLive(entries: seq<Entry>, now: nat): seq<Entry> {
    if entries == [] then []
    else
      var last := entries[|entries| - 1];
      KeepLive(entries[..|entries| - 1], now) + if Live(last.expiresAt, now) then [last] else []
  }

  /** What a start reads: the entries that have not expired. A missing or malformed file is empty. */
  function LoadedAt(f: File, now: nat): Denied { if f.Entries? then Collect(KeepLive(f.entries, now)) else map[] }

  lemma CollectSnoc(entries: seq<Entry>, e: Entry)
    ensures Collect(entries + [e]) == Collect(entries)[e.jti := e.expiresAt]
  {
    assert (entries + [e])[..|entries|] == entries;
  }

  lemma KeepLiveSnoc(es: seq<Entry>, i: nat, now: nat)
    requires i < |es|
    ensures Collect(KeepLive(es[..i + 1], now)) ==
            var d := Collect(KeepLive(es[..i], now));
            if Live(es[i].expiresAt, now) then d[es[i].jti := es[i].expiresAt] else d
  {
    assert es[..i + 1][..i] == es[..i];
    CollectSnoc(KeepLive(es[..i], now), es[i]);
    assert KeepLive(es[..i], now) + [] == KeepLive(es[..i], now);
  }

  lemma NothingKept(now: nat)
    ensures Collect(KeepLive([], now)) == map[]
  {
  }

  lemma {:induction false} NotCollected(entries: seq<Entry>, jti: Jti)
    requires forall i :: 0 <= i < |entries| ==> entries[i].jti != jti
    ensures jti !in Collect(entries)
  {
    if entries != [] { NotCollected(entries[..|entries| - 1], jti); }
  }

  lemma UnexpiredPut(m: Denied, jti: Jti, e: Option<nat>, now: nat)
    requires jti !in m
    ensures Unexpired(m[jti := e], now) == if Live(e, now) then Unexpired(m, now)[jti := e] else Unexpired(m, now)
  {
  }

  lemma {:induction false} KeepLiveCollects(entries: seq<Entry>, now: nat)
    requires forall i, j :: 0 <= i < j < |entries| ==> entries[i].jti != entries[j].jti
    ensures Collect(KeepLive(entries, now)) == Unexpired(Collect(entries), now)
  {
    hide Unexpired;
    if entries != [] {
      var front, last := entries[..|entries| - 1], entries[|entries| - 1];
      KeepLiveCollects(front, now);
      assert forall i :: 0 <= i < |front| ==> front[i].jti != last.jti;
      NotCollected(front, last.jti);
      UnexpiredPut(Collect(front), last.jti, last.expiresAt, now);
      CollectSnoc(KeepLive(front, now), last);
      assert KeepLive(front, now) + [] == KeepLive(front, now);
    } else {
      NothingExpires(now);
    }
  }

  lemma NothingExpires(now: nat)
    ensures Unexpired(map[], now) == map[]
  {
  }

  /** A restart on a file the store has written is the machine's restart, and forgets exactly what has
      expired. */
  lemma RestartReads(entries: seq<Entry>, s: State)
    requires IsListing(entries, s.saved)
    ensures Exec(s, Restart) == s.(denied := LoadedAt(Entries(entries), s.now))
    ensures forall j :: j in Exec(s, Restart).denied <==> j in s.saved && (s.saved[j].None? || s.saved[j].value > s.now)
  {
    var m, now := s.saved, s.now;
    CollectListing(entries, m);
    forall i, j | 0 <= i < j < |entries| ensures entries[i].jti != entries[j].jti {
      LessTrichotomy(entries[i].jti, entries[j].jti);
    }
    KeepLiveCollects(entries, now);
  }

  function Listed(m: Denied, keys: seq<Jti>): (r: seq<Entry>)
    requires forall j :: j in keys ==> j in m
    ensures |r| == |keys|
  {
    seq(|keys|, i requires 0 <= i < |keys| => Entry(keys[i], m[keys[i]]))
  }

  lemma ListedSorted(m: Denied, keys: seq<Jti>)
    requires StrictlySorted(keys) && forall j :: j in keys <==> j in m
    ensures IsListing(Listed(m, keys), m)
  {
    var es := Listed(m, keys);
    forall j | j in m ensures Entry(j, m[j]) in es {
      assert j in keys;
      var i :| 0 <= i < |keys| && keys[i] == j;
      assert es[i] == Entry(j, m[j]);
    }
    assert forall i :: 0 <= i < |es| ==> keys[i] in keys;
  }

  method KeysOf(m: Denied) returns (keys: seq<Jti>)
    ensures Distinct(keys) && forall j :: j in keys <==> j in m
  {
    keys := [];
    var todo := m.Keys;
    while todo != {}
      invariant todo <= m.Keys
      invariant forall j :: j in keys <==> j in m.Keys - todo
      invariant Distinct(keys)
    {
      var j :| j in todo;
      todo := todo - {j};
      assert j !in keys;
      keys := keys + [j];
    }
  }

  class Store {
    var denied: Denied
    var file: File

    constructor Load(disk: File, now: nat)
      ensures file == disk && denied == LoadedAt(disk, now)
    {
      hide Collect, KeepLive;
      denied, file := map[], disk;
      new;
      if disk.Entries? {
        var es := disk.entries;
        NothingKept(now);
        assert es[..0] == [];
        for i := 0 to |es|
          invariant file == disk && denied == Collect(KeepLive(es[..i], now))
        {
          KeepLiveSnoc(es, i, now);
          if Live(es[i].expiresAt, now) {
            denied := denied[es[i].jti := es[i].expiresAt];
          }
        }
        assert es[..|es|] == es;
      }
    }

    ghost function View(now: nat): State
      reads this
    {
      State(now, denied, Contents(file))
    }

    method List() returns (entries: seq<Entry>)
      ensures IsListing(entries, denied)
    {
      var keys := KeysOf(denied);
      SortMembers(keys);
      SortStrict(keys);
      ListedSorted(denied, Sort(keys));
      entries := Listed(denied, Sort(keys));
    }

    method Persist()
      modifies this`file
      ensures Contents(file) == denied
      ensures file.Entries? && IsListing(file.entries, denied)
    {
      var entries := List();
      CollectListing(entries, denied);
      file := Entries(entries);
    }

    method RevokeJti(jti: Jti, expiresAt: Option<nat>, ghost now: nat)
      modifies this
      ensures View(now) == Exec(old(View(now)), Revoke(jti, expiresAt))
    {
      denied := denied[jti := expiresAt];
      Persist();
    }

    method UnrevokeJti(jti: Jti, ghost now: nat) returns (removed: bool)
      modifies this
      ensures View(now) == Exec(old(View(now)), Unrevoke(jti))
      ensures removed == (jti in old(denied))
    {
      removed := jti in denied;
      denied := denied - {jti};
      Persist();
    }

    method PruneExpired(now: nat) returns (pruned: nat)
      modifies this
      ensures View(now) == Exec(old(View(now)), Prune)
      ensures pruned == |old(denied)| - |denied|
    {
      var kept: Denied, todo := map[], denied.Keys;
      while todo != {}
        invariant todo <= denied.Keys
        invariant kept == map j | j in denied && j !in todo && Live(denied[j], now) :: denied[j]
      {
        var j :| j in todo;
        todo := todo - {j};
        if Live(denied[j], now) {
          kept := kept[j := denied[j]];
        }
      }
      assert kept == Unexpired(denied, now);
      FewerKept(denied, now);
      pruned := |denied| - |kept|;
      denied := kept;
      if pruned > 0 {
        Persist();
      }
    }
  }

  /** Nothing was pruned exactly when no entry is lost. */
  lemma FewerKept(m: Denied, now: nat)
    ensures |Unexpired(m, now)| <= |m|
    ensures |Unexpired(m, now)| == |m| <==> Unexpired(m, now) == m
  {
    var u := Unexpired(m, now);
    assert u.Keys <= m.Keys && |u| == |u.Keys| && |m| == |m.Keys|;
    SubsetSize(u.Keys, m.Keys);
    if |u| == |m| {
      assert u.Keys == m.Keys;
      assert forall j :: j in m ==> j in u.Keys && u[j] == m[j];
    }
  }
}
