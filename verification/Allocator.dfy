/**
 The first-fit core shared by the subnet and the management address allocators: keep what hosts
 already claim, then give every other host the lowest free number of an arithmetic progression.
 Additions saturate at 2^32 - 1, exactly as the 32-bit code does.
 */
module Allocator {
  import opened Ipv4
  import opened Ordering
  import opened Counting

  /** `Spins` stands for a search that never ends because the candidate no longer moves. */
  datatype Search = Found(n: U32) | Exhausted | Spins

  datatype Outcome = Done(m: map<string, U32>) | Full | Hangs

  function SaturatingAdd(a: U32, b: U32): (r: U32)
    ensures r == if a + b <= TOP then a + b else TOP
  {
    if a + b <= TOP then a + b else TOP
  }

  /** The numbers the allocator may hand out: `start`, `start + step`, ... up to `last`. */
  ghost function Slots(start: int, last: int, step: nat): set<int>
    requires step > 0
  {
    set x | start <= x <= last && OnGrid(x, start, step)
  }

  ghost predicate OnGrid(x: int, start: int, step: nat)
    requires step > 0
  {
    (x - start) % step == 0
  }

  function FirstFree(used: set<U32>, n: U32, last: int, step: U32): Search
    requires step > 0
    decreases TOP - n
  {
    if n > last then Exhausted
    else if n !in used then Found(n)
    else
      var m := SaturatingAdd(n, step);
      if m == n then Spins else FirstFree(used, m, last, step)
  }

  /** Walks `order`; a claim is kept unless its number was already taken. */
  function Keep(order: seq<string>, claim: map<string, U32>): (kept: map<string, U32>)
    ensures forall h :: h in kept ==> h in order && h in claim && kept[h] == claim[h]
  {
    if order == [] then map[]
    else
      var kept := Keep(order[..|order| - 1], claim);
      var h := order[|order| - 1];
      if h !in claim || claim[h] in kept.Values then kept else kept[h := claim[h]]
  }

  function Fill(hosts: seq<string>, kept: map<string, U32>, start: U32, last: int, step: U32): Outcome
    requires step > 0
  {
    if hosts == [] then Done(kept)
    else
      match Fill(hosts[..|hosts| - 1], kept, start, last, step)
      case Done(m) =>
        var h := hosts[|hosts| - 1];
        if h in m then Done(m)
        else (
          match FirstFree(m.Values, start, last, step)
          case Found(n) => Done(m[h := n])
          case Exhausted => Full
          case Spins => Hangs)
      case stuck => stuck
  }

  /** The whole allocation: claims are read in the key order of a `BTreeMap`. */
  function Assign(hosts: seq<string>, claim: map<string, U32>, start: U32, last: int, step: U32): Outcome
    requires step > 0
  {
    Fill(hosts, Keep(Sort(hosts), claim), start, last, step)
  }

  // ----- the search -----

  lemma GridStep(x: int, start: int, step: nat)
    requires step > 0 && start <= x
    ensures OnGrid(x, start, step) <==> x == start || (start + step <= x && OnGrid(x, start + step, step))
  {
    ModShift(x - (start + step), step);
    if x - start < step {
      DivUnique(x - start, step, 0, x - start);
    }
  }

  lemma SlotsStep(start: int, last: int, step: nat)
    requires step > 0 && start <= last
    ensures Slots(start, last, step) == {start} + Slots(start + step, last, step)
  {
    forall x | start <= x <= last
      ensures OnGrid(x, start, step) <==> x == start || (start + step <= x && OnGrid(x, start + step, step))
    {
      GridStep(x, start, step);
    }
  }

  /** While some slot is free, or the progression stops short of the top, the search finds the
      lowest free slot, and reports exhaustion exactly when there is none. */
  lemma {:induction false} FirstFreeIsLowest(used: set<U32>, n: U32, last: int, step: U32)
    requires step > 0 && last <= TOP
    requires last < TOP || !(Slots(n, last, step) <= used)
    ensures Lowest(Slots(n, last, step), used, FirstFree(used, n, last, step))
    decreases TOP - n
  {
    if n <= last {
      SlotsStep(n, last, step);
      if n in used {
        if n + step <= TOP {
          FirstFreeIsLowest(used, n + step, last, step);
        } else {
          assert Slots(n + step, last, step) == {};
          assert last < TOP ==> FirstFree(used, TOP, last, step) == Exhausted;
        }
      }
    }
  }

  ghost predicate Lowest(slots: set<int>, used: set<U32>, s: Search) {
    match s
    case Found(m) => m in slots && m !in used && forall x :: x in slots && x < m ==> x in used
    case Exhausted => slots <= used
    case Spins => false
  }

  /** The search as the allocation sees it: whatever is used, it picks the lowest free slot. */
  ghost predicate Searches(slots: set<int>, start: U32, last: int, step: U32)
    requires step > 0
  {
    forall used: set<U32> :: last < TOP || !(slots <= used) ==>
      Lowest(slots, used, FirstFree(used, start, last, step))
  }

  lemma SlotsAreSearched(start: U32, last: int, step: U32)
    requires step > 0 && last <= TOP
    ensures Searches(Slots(start, last, step), start, last, step)
  {
    forall used: set<U32> | last < TOP || !(Slots(start, last, step) <= used)
      ensures Lowest(Slots(start, last, step), used, FirstFree(used, start, last, step))
    {
      FirstFreeIsLowest(used, start, last, step);
    }
  }

  /** At the top of the address space the search cannot report exhaustion: it hands out the
      last address, or never returns. */
  lemma {:induction false} FirstFreeAtTop(used: set<U32>, n: U32, step: U32)
    requires step > 0
    requires Slots(n, TOP, step) <= used
    ensures FirstFree(used, n, TOP, step) == if TOP in used then Spins else Found(TOP)
    decreases TOP - n
  {
    SlotsStep(n, TOP, step);
    if n + step <= TOP {
      FirstFreeAtTop(used, n + step, step);
    }
  }

  lemma {:induction false} NeverExhaustedAtTop(used: set<U32>, n: U32, step: U32)
    requires step > 0
    ensures !FirstFree(used, n, TOP, step).Exhausted?
    decreases TOP - n
  {
    if n in used && SaturatingAdd(n, step) != n {
      NeverExhaustedAtTop(used, SaturatingAdd(n, step), step);
    }
  }

  // ----- the claims -----

  ghost predicate Injective(m: map<string, U32>) {
    forall g, h :: g in m && h in m && m[g] == m[h] ==> g == h
  }

  ghost predicate Claimed(hosts: seq<string>, claim: map<string, U32>, n: U32) {
    exists g :: g in hosts && g in claim && claim[g] == n
  }

  /** Every claimed number is kept by somebody, and by one host only. */
  lemma {:induction false} KeepValues(order: seq<string>, claim: map<string, U32>)
    ensures Injective(Keep(order, claim))
    ensures forall n :: n in Keep(order, claim).Values <==> Claimed(order, claim, n)
  {
    if order != [] {
      var front, h := order[..|order| - 1], order[|order| - 1];
      KeepValues(front, claim);
      assert order == front + [h];
      var kept, kept' := Keep(front, claim), Keep(order, claim);
      forall n ensures n in kept'.Values <==> Claimed(order, claim, n) {
        if n in kept.Values {
          var g :| g in kept && kept[g] == n;
          assert g in order && kept'[g] == n;
        } else if Claimed(order, claim, n) {
          var g :| g in order && g in claim && claim[g] == n;
          assert g == h && kept'[h] == n;
        }
      }
    }
  }

  /** A claim is kept exactly when nobody earlier in the order claims the same number. */
  lemma {:induction false} KeepFirstClaim(order: seq<string>, claim: map<string, U32>, i: nat)
    requires Distinct(order) && i < |order| && order[i] in claim
    ensures order[i] in Keep(order, claim) <==> !Claimed(order[..i], claim, claim[order[i]])
  {
    var front := order[..|order| - 1];
    if i < |order| - 1 {
      KeepFirstClaim(front, claim, i);
      assert front[..i] == order[..i];
    } else {
      KeepValues(front, claim);
    }
  }

  // ----- the fill -----

  ghost function Names(s: seq<string>): set<string> { set h | h in s }

  lemma {:induction false} InjectiveSize(m: map<string, U32>)
    requires Injective(m)
    ensures |m.Values| == |m.Keys|
  {
    if m.Keys != {} {
      var h :| h in m;
      var rest := m - {h};
      assert Injective(rest);
      InjectiveSize(rest);
      WithoutOne(m, h);
    }
  }

  lemma WithoutOne(m: map<string, U32>, h: string)
    requires Injective(m) && h in m
    ensures var rest := m - {h};
            && h !in rest.Keys && m.Keys == rest.Keys + {h}
            && m[h] !in rest.Values && m.Values == rest.Values + {m[h]}
  {
    var rest := m - {h};
    forall v | v in m.Values && v != m[h] ensures v in rest.Values {
      var g :| g in m && m[g] == v;
      assert rest[g] == v;
    }
    forall v | v in rest.Values ensures v in m.Values && v != m[h] {
      var g :| g in rest && rest[g] == v;
      assert m[g] == v;
    }
  }

  /** A host without a kept claim gets the lowest slot that neither a kept claim nor an earlier
      host holds. */
  ghost predicate FirstFit(hosts: seq<string>, kept: map<string, U32>, m: map<string, U32>, slots: set<int>)
    requires Names(hosts) <= m.Keys
  {
    forall i :: 0 <= i < |hosts| && hosts[i] !in kept ==>
      forall x :: x in slots && x < m[hosts[i]] ==> Held(hosts, kept, m, i, x)
  }

  /** `x` belongs to a kept claim or to one of the first `i` hosts. */
  ghost predicate Held(hosts: seq<string>, kept: map<string, U32>, m: map<string, U32>, i: nat, x: int)
    requires i <= |hosts| && Names(hosts) <= m.Keys
  {
    x in kept.Values || exists j :: 0 <= j < i && m[hosts[j]] == x
  }

  ghost predicate Fits(hosts: seq<string>, kept: map<string, U32>, slots: set<int>) {
    |kept.Keys + Names(hosts)| <= |slots|
  }

  /** Everybody has one slot of their own, kept claims are untouched and the rest is first-fit. */
  ghost predicate Good(hosts: seq<string>, kept: map<string, U32>, slots: set<int>, m: map<string, U32>) {
    && m.Keys == kept.Keys + Names(hosts)
    && Injective(m)
    && (forall h :: h in m ==> m[h] in slots)
    && (forall h :: h in kept ==> m[h] == kept[h])
    && FirstFit(hosts, kept, m, slots)
  }

  /** The allocation succeeds exactly when there are enough slots. */
  ghost predicate Exact(hosts: seq<string>, kept: map<string, U32>, slots: set<int>, r: Outcome) {
    if Fits(hosts, kept, slots) then r.Done? && Good(hosts, kept, slots, r.m) else r == Full
  }

  lemma {:induction false} FillExact(hosts: seq<string>, kept: map<string, U32>, slots: set<int>,
                                     start: U32, last: int, step: U32)
    requires step > 0 && Searches(slots, start, last, step)
    requires Distinct(hosts) && Injective(kept)
    requires forall h :: h in kept ==> kept[h] in slots
    requires last < TOP || Fits(hosts, kept, slots)
    ensures Exact(hosts, kept, slots, Fill(hosts, kept, start, last, step))
  {
    if hosts == [] {
      GoodEmpty(kept, slots);
    } else {
      var front, h := hosts[..|hosts| - 1], hosts[|hosts| - 1];
      assert hosts == front + [h];
      FitsFront(front, h, kept, slots);
      FillExact(front, kept, slots, start, last, step);
      if Fits(front, kept, slots) {
        FillStep(front, h, kept, slots, start, last, step);
      }
    }
  }

  lemma GoodEmpty(kept: map<string, U32>, slots: set<int>)
    requires Injective(kept)
    requires forall h :: h in kept ==> kept[h] in slots
    ensures Fits([], kept, slots) && Good([], kept, slots, kept)
  {
    KeptFits(kept, slots);
    assert kept.Keys + Names([]) == kept.Keys;
  }

  lemma NamesSnoc(front: seq<string>, h: string)
    ensures Names(front + [h]) == Names(front) + {h}
  {
  }

  lemma FitsFront(front: seq<string>, h: string, kept: map<string, U32>, slots: set<int>)
    ensures Fits(front + [h], kept, slots) ==> Fits(front, kept, slots)
  {
    NamesSnoc(front, h);
    var small := kept.Keys + Names(front);
    assert kept.Keys + Names(front + [h]) == small + {h};
    if h in small {
      assert small + {h} == small;
    }
  }

  lemma KeptFits(kept: map<string, U32>, slots: set<int>)
    requires Injective(kept)
    requires forall h :: h in kept ==> kept[h] in slots
    ensures |kept.Keys| <= |slots|
    ensures |kept.Keys| == |slots| ==> slots <= kept.Values
    ensures slots <= kept.Values ==> |kept.Keys| == |slots|
  {
    InjectiveSize(kept);
    var values: set<int> := kept.Values;
    assert values <= slots;
    SubsetSize(values, slots);
    if slots <= values {
      assert slots == values;
    }
  }

  lemma FillStep(front: seq<string>, h: string, kept: map<string, U32>, slots: set<int>,
                 start: U32, last: int, step: U32)
    requires step > 0 && Searches(slots, start, last, step)
    requires last < TOP || Fits(front + [h], kept, slots)
    requires Fill(front, kept, start, last, step).Done?
    requires Good(front, kept, slots, Fill(front, kept, start, last, step).m)
    requires Fits(front, kept, slots)
    ensures Exact(front + [h], kept, slots, Fill(front + [h], kept, start, last, step))
  {
    var m := Fill(front, kept, start, last, step).m;
    assert (front + [h])[..|front|] == front;
    GoodSize(front, h, kept, slots, m);
    if h in m {
      GoodExtend(front, h, kept, slots, m);
    } else {
      var s := FirstFree(m.Values, start, last, step);
      assert Lowest(slots, m.Values, s);
      if s.Found? {
        GoodGrow(front, h, kept, slots, m, s.n);
      }
    }
  }

  lemma GoodSize(front: seq<string>, h: string, kept: map<string, U32>, slots: set<int>, m: map<string, U32>)
    requires Good(front, kept, slots, m)
    ensures h in m ==> Fits(front + [h], kept, slots)
    ensures h !in m ==> (Fits(front + [h], kept, slots) <==> !(slots <= m.Values))
  {
    hide FirstFit, Injective, Names;
    NamesCount(front, h, kept.Keys, m.Keys);
    KeptFits(m, slots);
  }

  lemma NamesCount(front: seq<string>, h: string, kept: set<string>, all: set<string>)
    requires all == kept + Names(front)
    ensures |kept + Names(front + [h])| == |all| + if h in all then 0 else 1
  {
    hide Names;
    NamesSnoc(front, h);
    assert kept + Names(front + [h]) == all + {h};
  }

  lemma GoodExtend(front: seq<string>, h: string, kept: map<string, U32>, slots: set<int>, m: map<string, U32>)
    requires Good(front, kept, slots, m) && h in m
    ensures Good(front + [h], kept, slots, m)
  {
    NamesSnoc(front, h);
    if h !in kept {
      var i :| 0 <= i < |front| && front[i] == h;
      forall x | x in slots && x < m[h] ensures Held(front, kept, m, |front|, x) {
        assert Held(front, kept, m, i, x);
      }
    }
    FirstFitExtend(front, h, kept, m, slots);
  }

  lemma GoodGrow(front: seq<string>, h: string, kept: map<string, U32>, slots: set<int>, m: map<string, U32>, n: U32)
    requires Good(front, kept, slots, m) && h !in m
    requires Lowest(slots, m.Values, Found(n))
    ensures Good(front + [h], kept, slots, m[h := n])
  {
    NamesSnoc(front, h);
    assert FirstFit(front + [h], kept, m[h := n], slots) by {
      FirstFitGrow(front, h, kept, m, n, slots);
      FirstFitExtend(front, h, kept, m[h := n], slots);
    }
    InjectiveGrow(m, h, n);
  }

  lemma InjectiveGrow(m: map<string, U32>, h: string, n: U32)
    requires Injective(m) && n !in m.Values
    ensures Injective(m[h := n])
  {
    assert forall g :: g in m ==> m[g] in m.Values;
  }

  /** Giving `h` the lowest unused slot leaves the choices of the hosts before it as they were. */
  lemma FirstFitGrow(front: seq<string>, h: string, kept: map<string, U32>, m: map<string, U32>, n: U32, slots: set<int>)
    requires h !in m && m.Keys == kept.Keys + Names(front)
    requires forall g :: g in kept ==> m[g] == kept[g]
    requires FirstFit(front, kept, m, slots)
    requires forall x :: x in slots && x < n ==> x in m.Values
    ensures FirstFit(front, kept, m[h := n], slots)
    ensures forall x :: x in slots && x < n ==> Held(front, kept, m[h := n], |front|, x)
  {
    var r := m[h := n];
    assert forall i :: 0 <= i < |front| ==> r[front[i]] == m[front[i]];
    forall i, x | 0 <= i < |front| && Held(front, kept, m, i, x) ensures Held(front, kept, r, i, x) {
      if x !in kept.Values {
        var j :| 0 <= j < i && m[front[j]] == x;
        assert r[front[j]] == x;
      }
    }
    forall x | x in slots && x < n ensures Held(front, kept, r, |front|, x) {
      var g :| g in m && m[g] == x;
      if g in kept {
        assert kept[g] in kept.Values;
      } else {
        var j :| 0 <= j < |front| && front[j] == g;
        assert r[front[j]] == x;
      }
    }
  }

  lemma FirstFitExtend(front: seq<string>, h: string, kept: map<string, U32>, m: map<string, U32>, slots: set<int>)
    requires Names(front) + {h} <= m.Keys
    requires FirstFit(front, kept, m, slots)
    requires h !in kept ==> forall x :: x in slots && x < m[h] ==> Held(front, kept, m, |front|, x)
    ensures FirstFit(front + [h], kept, m, slots)
  {
    var hosts := front + [h];
    forall i, x | 0 <= i < |hosts| && Held(front, kept, m, i, x) ensures Held(hosts, kept, m, i, x) {
      if x !in kept.Values {
        var j :| 0 <= j < i && m[front[j]] == x;
        assert m[hosts[j]] == x;
      }
    }
  }
}
