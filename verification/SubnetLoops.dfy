/**
 The allocators as the loops they are, each proved to compute the function that specifies it.
 A search whose candidate no longer moves never ends in the source; here it reports that it spins.
 */
module SubnetLoops {
  import opened Ipv4
  import opened Ordering
  import opened Allocator
  import opened Subnet

  method SearchFree(used: set<U32>, start: U32, last: int, step: U32) returns (s: Search)
    requires step > 0
    ensures s == FirstFree(used, start, last, step)
  {
    var n: U32 := start;
    while true
      invariant FirstFree(used, n, last, step) == FirstFree(used, start, last, step)
      decreases TOP - n
    {
      if n > last {
        return Exhausted;
      }
      if n !in used {
        return Found(n);
      }
      var m := SaturatingAdd(n, step);
      if m == n {
        return Spins;
      }
      n := m;
    }
  }

  method RejectDuplicates(names: seq<string>) returns (distinct: bool)
    ensures distinct <==> Distinct(names)
  {
    var seen: set<string> := {};
    for i := 0 to |names|
      invariant forall x :: x in seen <==> x in names[..i]
      invariant Distinct(names[..i])
    {
      if names[i] in seen {
        var j :| 0 <= j < i && names[j] == names[i];
        return false;
      }
      seen := seen + {names[i]};
    }
    assert names[..|names|] == names;
    return true;
  }

  /** The kept claims, read in key order. */
  method KeepClaims(order: seq<string>, claim: map<string, U32>) returns (kept: map<string, U32>, used: set<U32>)
    ensures kept == Keep(order, claim)
    ensures used == kept.Values
  {
    kept, used := map[], {};
    for i := 0 to |order|
      invariant kept == Keep(order[..i], claim)
      invariant used == kept.Values
    {
      assert order[..i + 1][..i] == order[..i];
      var h := order[i];
      if h in claim && claim[h] !in used {
        GrowValues(kept, h, claim[h]);
        used := used + {claim[h]};
        kept := kept[h := claim[h]];
      }
    }
    assert order[..|order|] == order;
  }

  lemma GrowValues(m: map<string, U32>, h: string, n: U32)
    requires h in m ==> m[h] == n
    ensures m[h := n].Values == m.Values + {n}
  {
    var grown := m[h := n];
    assert grown[h] == n;
    forall v | v in m.Values ensures v in grown.Values {
      var g :| g in m && m[g] == v;
      assert grown[g] == v;
    }
  }

  lemma {:induction false} FillStuck(hosts: seq<string>, i: nat, kept: map<string, U32>, start: U32, last: int, step: U32)
    requires step > 0 && i <= |hosts|
    requires !Fill(hosts[..i], kept, start, last, step).Done?
    ensures Fill(hosts, kept, start, last, step) == Fill(hosts[..i], kept, start, last, step)
    decreases |hosts|
  {
    if i == |hosts| {
      assert hosts[..i] == hosts;
    } else {
      var front := hosts[..|hosts| - 1];
      assert front[..i] == hosts[..i];
      FillStuck(front, i, kept, start, last, step);
    }
  }

  method FillHosts(hosts: seq<string>, kept: map<string, U32>, used0: set<U32>, start: U32, last: int, step: U32)
    returns (r: Outcome)
    requires step > 0 && used0 == kept.Values
    ensures r == Fill(hosts, kept, start, last, step)
  {
    var result, used := kept, used0;
    for i := 0 to |hosts|
      invariant Fill(hosts[..i], kept, start, last, step) == Done(result)
      invariant used == result.Values
    {
      assert hosts[..i + 1][..i] == hosts[..i];
      var h := hosts[i];
      if h !in result {
        if !Fill(hosts[..i + 1], kept, start, last, step).Done? {
          FillStuck(hosts, i + 1, kept, start, last, step);
        }
        var s := SearchFree(used, start, last, step);
        if !s.Found? {
          return if s.Exhausted? then Full else Hangs;
        }
        GrowValues(result, h, s.n);
        used := used + {s.n};
        result := result[h := s.n];
      }
    }
    assert hosts[..|hosts|] == hosts;
    return Done(result);
  }

  method RunAllocate(pool: Net, prefix: nat, existing: map<string, Net>, hosts: seq<string>)
    returns (r: Result<map<string, Net>>)
    ensures r == Allocate(pool, prefix, existing, hosts)
  {
    if prefix < pool.prefix || prefix > 32 {
      return Err(BadPrefix);
    }
    var distinct := RejectDuplicates(hosts);
    if !distinct {
      return Err(DuplicateHost);
    }
    var kept, used := KeepClaims(Sort(hosts), SubnetClaims(pool, prefix, existing));
    var filled := FillHosts(hosts, kept, used, pool.Network(), pool.Broadcast(), Step(prefix));
    if !filled.Done? {
      return Err(if filled.Full? then PoolExhausted else NeverReturns);
    }
    return Ok(map h | h in filled.m :: NetOf(prefix, kept, existing, h, filled.m[h]));
  }

  method RunAllocateMgmt(pool: Net, existing: map<string, U32>, hosts: seq<string>)
    returns (r: Result<map<string, U32>>)
    ensures r == AllocateMgmt(pool, existing, hosts)
  {
    var distinct := RejectDuplicates(hosts);
    if !distinct {
      return Err(DuplicateHost);
    }
    var kept, used := KeepClaims(Sort(hosts), MgmtClaims(pool, existing));
    var filled := FillHosts(hosts, kept, used, SaturatingAdd(pool.Network(), 1), pool.Broadcast() - 1, 1);
    if !filled.Done? {
      return Err(if filled.Full? then PoolExhausted else NeverReturns);
    }
    return Ok(filled.m);
  }

  /** One flat key for each pair, and the existing subnets under those keys. */
  method FlattenExisting(existing: Subnets, pairs: seq<(string, string)>) returns (keys: seq<string>, flat: map<string, Net>)
    ensures keys == Keys(pairs)
    ensures flat == Flatten(existing, pairs)
  {
    keys, flat := [], map[];
    for i := 0 to |pairs|
      invariant keys == Keys(pairs[..i])
      invariant flat == Flatten(existing, pairs[..i])
    {
      assert pairs[..i + 1][..i] == pairs[..i];
      var (ns, h) := pairs[i];
      keys := keys + [Key(ns, h)];
      if Has(existing, ns, h) {
        flat := flat[Key(ns, h) := existing[ns][h]];
      }
    }
    assert pairs[..|pairs|] == pairs;
  }

  method RunAllocateNamespaced(pool: Net, prefix: nat, existing: Subnets, namespaces: seq<string>, hosts: seq<string>)
    returns (r: Result<Subnets>)
    ensures r == AllocateNamespaced(pool, prefix, existing, namespaces, hosts)
  {
    var distinct := RejectDuplicates(namespaces);
    if !distinct {
      return Err(DuplicateNamespace);
    }
    var keys, flat := FlattenExisting(existing, Pairs(namespaces, hosts));
    var nets := RunAllocate(pool, prefix, flat, keys);
    if nets.Err? {
      return Err(nets.error);
    }
    if hosts == [] {
      return Ok(map[]);
    }
    return Ok(map ns | ns in namespaces :: map h | h in hosts && Key(ns, h) in nets.value :: nets.value[Key(ns, h)]);
  }
}
