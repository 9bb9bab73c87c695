/** What the per-namespace allocation promises, on top of the flat one. */
module Namespaces {
  import opened Ipv4
  import opened Ordering
  import opened Allocator
  import opened Subnet

  type Pair = (string, string)

  lemma {:induction false} PairCount(namespaces: seq<string>, hosts: seq<string>)
    ensures |Pairs(namespaces, hosts)| == |namespaces| * |hosts|
  {
    if namespaces != [] {
      PairCount(namespaces[..|namespaces| - 1], hosts);
      assert |namespaces| * |hosts| == (|namespaces| - 1) * |hosts| + |hosts|;
    }
  }

  lemma PairKey(pairs: seq<Pair>, p: Pair)
    requires p in pairs
    ensures Key(p.0, p.1) in Keys(pairs)
  {
    var i :| 0 <= i < |pairs| && pairs[i] == p;
    assert Keys(pairs)[i] == Key(p.0, p.1);
  }

  lemma PairKeysDiffer(pairs: seq<Pair>, a: Pair, b: Pair)
    requires Distinct(Keys(pairs)) && a in pairs && b in pairs && a != b
    ensures Key(a.0, a.1) != Key(b.0, b.1)
  {
    var i :| 0 <= i < |pairs| && pairs[i] == a;
    var j :| 0 <= j < |pairs| && pairs[j] == b;
    assert Keys(pairs)[i] != Keys(pairs)[j];
  }

  /** Room for every pair, or a pool whose end lets exhaustion be noticed. */
  ghost predicate Roomy(pool: Net, prefix: PrefixLen, namespaces: seq<string>, hosts: seq<string>)
    requires pool.prefix <= prefix
  {
    pool.Broadcast() < TOP || |namespaces| * |hosts| <= Capacity(pool, prefix)
  }

  ghost predicate Same(a: Subnets, b: Subnets, p: Pair) {
    Has(a, p.0, p.1) && Has(b, p.0, p.1) && a[p.0][p.1] == b[p.0][p.1]
  }

  /** Both give the same subnet to every pair. */
  ghost predicate Agree(a: Subnets, b: Subnets, pairs: seq<Pair>) {
    forall p :: p in pairs ==> Same(a, b, p)
  }

  ghost predicate Separate(s: Subnets, p: Pair, q: Pair) {
    Has(s, p.0, p.1) && Has(s, q.0, q.1) && Disjoint(s[p.0][p.1], s[q.0][q.1])
  }

  ghost predicate Fitting(pool: Net, prefix: PrefixLen, s: Subnets, p: Pair) {
    Has(s, p.0, p.1) && s[p.0][p.1].prefix == prefix && Inside(pool, s[p.0][p.1])
  }

  /** Every pair has a block of the pool, and no two of them overlap. */
  ghost predicate GoodPairs(pool: Net, prefix: PrefixLen, pairs: seq<Pair>, s: Subnets) {
    && (forall p :: p in pairs ==> Fitting(pool, prefix, s, p))
    && (forall p, q :: p in pairs && q in pairs && p != q ==> Separate(s, p, q))
  }

  ghost predicate Unflattened(s: Subnets, flat: map<string, Net>, pairs: seq<Pair>) {
    forall p :: p in pairs ==> Has(s, p.0, p.1) && Key(p.0, p.1) in flat && s[p.0][p.1] == flat[Key(p.0, p.1)]
  }

  lemma NamespacedShape(pool: Net, prefix: PrefixLen, existing: Subnets, namespaces: seq<string>, hosts: seq<string>,
                        s: Subnets, pairs: seq<Pair>)
    returns (flat: map<string, Net>)
    requires pool.prefix <= prefix && Roomy(pool, prefix, namespaces, hosts)
    requires pairs == Pairs(namespaces, hosts)
    requires AllocateNamespaced(pool, prefix, existing, namespaces, hosts) == Ok(s)
    ensures Distinct(Keys(pairs)) && |pairs| <= Capacity(pool, prefix)
    ensures Allocate(pool, prefix, Flatten(existing, pairs), Keys(pairs)) == Ok(flat)
    ensures GoodSubnets(pool, prefix, Flatten(existing, pairs), Keys(pairs), flat)
    ensures Unflattened(s, flat, pairs)
  {
    PairCount(namespaces, hosts);
    AllocateExact(pool, prefix, Flatten(existing, pairs), Keys(pairs));
    flat := Allocate(pool, prefix, Flatten(existing, pairs), Keys(pairs)).value;
    forall p | p in pairs
      ensures Has(s, p.0, p.1) && Key(p.0, p.1) in flat && s[p.0][p.1] == flat[Key(p.0, p.1)]
    {
      PairsAre(namespaces, hosts, p);
      PairKey(pairs, p);
    }
  }

  /** Every namespace of every host gets a subnet of its own, all of them disjoint; and the
      failures are exactly a repeated name and a pool with too few blocks. */
  lemma NamespacedExact(pool: Net, prefix: PrefixLen, existing: Subnets, namespaces: seq<string>, hosts: seq<string>)
    requires pool.prefix <= prefix && Roomy(pool, prefix, namespaces, hosts)
    ensures match AllocateNamespaced(pool, prefix, existing, namespaces, hosts)
            case Ok(s) =>
              && |namespaces| * |hosts| <= Capacity(pool, prefix)
              && GoodPairs(pool, prefix, Pairs(namespaces, hosts), s)
            case Err(e) =>
              || (e == DuplicateNamespace && !Distinct(namespaces))
              || (e == DuplicateHost && !Distinct(Keys(Pairs(namespaces, hosts))))
              || (e == PoolExhausted && |namespaces| * |hosts| > Capacity(pool, prefix))
  {
    var pairs, r := Pairs(namespaces, hosts), AllocateNamespaced(pool, prefix, existing, namespaces, hosts);
    PairCount(namespaces, hosts);
    if r.Ok? {
      var flat := NamespacedShape(pool, prefix, existing, namespaces, hosts, r.value, pairs);
      GoodUnflattened(pool, prefix, Flatten(existing, pairs), pairs, flat, r.value);
    } else if Distinct(Keys(pairs)) {
      AllocateExact(pool, prefix, Flatten(existing, pairs), Keys(pairs));
    }
  }

  lemma GoodUnflattened(pool: Net, prefix: PrefixLen, existing: map<string, Net>, pairs: seq<Pair>,
                        flat: map<string, Net>, s: Subnets)
    requires Distinct(Keys(pairs))
    requires GoodSubnets(pool, prefix, existing, Keys(pairs), flat) && Unflattened(s, flat, pairs)
    ensures GoodPairs(pool, prefix, pairs, s)
  {
    forall p | p in pairs ensures Fitting(pool, prefix, s, p) {
      assert Placed(pool, prefix, existing, Keys(pairs), Key(p.0, p.1), flat[Key(p.0, p.1)]);
    }
    forall p, q | p in pairs && q in pairs && p != q ensures Separate(s, p, q) {
      PairKeysDiffer(pairs, p, q);
    }
  }

  /** Subnets that already are what the allocation gave out are given out again. */
  lemma NamespacedIdempotent(pool: Net, prefix: PrefixLen, existing: Subnets, now: Subnets,
                             namespaces: seq<string>, hosts: seq<string>, s: Subnets)
    requires pool.prefix <= prefix && Roomy(pool, prefix, namespaces, hosts)
    requires AllocateNamespaced(pool, prefix, existing, namespaces, hosts) == Ok(s)
    requires Agree(now, s, Pairs(namespaces, hosts))
    ensures AllocateNamespaced(pool, prefix, now, namespaces, hosts) == Ok(s)
  {
    var pairs := Pairs(namespaces, hosts);
    var flat := NamespacedShape(pool, prefix, existing, namespaces, hosts, s, pairs);
    AllocateIdempotent(pool, prefix, Flatten(existing, pairs), Keys(pairs));
    FlatIs(now, s, pairs, flat);
  }

  lemma FlatIs(now: Subnets, s: Subnets, pairs: seq<Pair>, flat: map<string, Net>)
    requires Distinct(Keys(pairs)) && flat.Keys == Names(Keys(pairs))
    requires Agree(now, s, pairs) && Unflattened(s, flat, pairs)
    ensures Flatten(now, pairs) == flat
  {
    forall k | k in Keys(pairs) ensures k in flat && k in Flatten(now, pairs) && Flatten(now, pairs)[k] == flat[k] {
      var i :| 0 <= i < |pairs| && Keys(pairs)[i] == k;
      FlattenExact(now, pairs, pairs[i]);
      assert Same(now, s, pairs[i]);
    }
  }

  /** A newcomer pair takes the block of `p` when its key sorts before and it claims the same. */
  ghost predicate PairStolen(pool: Net, prefix: PrefixLen, existing: Subnets, pairs: seq<Pair>, oldPairs: seq<Pair>, p: Pair) {
    Has(existing, p.0, p.1) &&
    exists q :: q in pairs && q !in oldPairs && Has(existing, q.0, q.1)
      && Less(Key(q.0, q.1), Key(p.0, p.1)) && Usable(pool, prefix, existing[q.0][q.1])
      && existing[q.0][q.1].Network() == existing[p.0][p.1].Network()
  }

  /** With more hosts, a pair that holds its subnet keeps it exactly when no newcomer takes it. */
  lemma NamespacedExtend(pool: Net, prefix: PrefixLen, held: Subnets, existing: Subnets, namespaces: seq<string>,
                         oldHosts: seq<string>, hosts: seq<string>, s: Subnets, p: Pair)
    requires pool.prefix <= prefix && Roomy(pool, prefix, namespaces, hosts)
    requires forall g :: g in oldHosts ==> g in hosts
    requires GoodPairs(pool, prefix, Pairs(namespaces, oldHosts), held)
    requires Agree(existing, held, Pairs(namespaces, oldHosts))
    requires AllocateNamespaced(pool, prefix, existing, namespaces, hosts) == Ok(s)
    requires p in Pairs(namespaces, oldHosts)
    ensures Same(s, held, p) <==>
            !PairStolen(pool, prefix, existing, Pairs(namespaces, hosts), Pairs(namespaces, oldHosts), p)
  {
    var pairs, oldPairs := Pairs(namespaces, hosts), Pairs(namespaces, oldHosts);
    forall q | q in oldPairs ensures q in pairs {
      PairsAre(namespaces, oldHosts, q);
      PairsAre(namespaces, hosts, q);
    }
    var flat := NamespacedShape(pool, prefix, existing, namespaces, hosts, s, pairs);
    FlattenExact(existing, pairs, p);
    assert Same(existing, held, p) && Fitting(pool, prefix, held, p);
    StolenIff(pool, prefix, held, existing, pairs, oldPairs, p);
    assert Placed(pool, prefix, Flatten(existing, pairs), Keys(pairs), Key(p.0, p.1), flat[Key(p.0, p.1)]);
  }

  lemma StolenIff(pool: Net, prefix: PrefixLen, held: Subnets, existing: Subnets, pairs: seq<Pair>, oldPairs: seq<Pair>, p: Pair)
    requires forall q :: q in oldPairs ==> q in pairs
    requires GoodPairs(pool, prefix, oldPairs, held) && Agree(existing, held, oldPairs)
    requires Distinct(Keys(pairs)) && p in oldPairs
    ensures FirstClaim(pool, prefix, Flatten(existing, pairs), Keys(pairs), Key(p.0, p.1))
            <==> !PairStolen(pool, prefix, existing, pairs, oldPairs, p)
  {
    var flat, key := Flatten(existing, pairs), Key(p.0, p.1);
    FlattenExact(existing, pairs, p);
    assert Same(existing, held, p) && Fitting(pool, prefix, held, p);
    forall q | q in oldPairs && q != p
      ensures Has(existing, q.0, q.1) && existing[q.0][q.1].Network() != existing[p.0][p.1].Network()
    {
      assert Same(existing, held, q) && Separate(held, q, p);
    }
    if !FirstClaim(pool, prefix, flat, Keys(pairs), key) {
      var k :| k in Keys(pairs) && k in flat && Less(k, key) && Usable(pool, prefix, flat[k])
               && flat[k].Network() == flat[key].Network();
      var i :| 0 <= i < |pairs| && Keys(pairs)[i] == k;
      var q := pairs[i];
      FlattenExact(existing, pairs, q);
      LessTrichotomy(k, k);
    }
    if PairStolen(pool, prefix, existing, pairs, oldPairs, p) {
      var q :| q in pairs && q !in oldPairs && Has(existing, q.0, q.1)
        && Less(Key(q.0, q.1), key) && Usable(pool, prefix, existing[q.0][q.1])
        && existing[q.0][q.1].Network() == existing[p.0][p.1].Network();
      FlattenExact(existing, pairs, q);
      PairKey(pairs, q);
    }
  }
}
