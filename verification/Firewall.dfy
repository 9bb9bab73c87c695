/**
 The firewall store of a host (`coold/src/grpc/handlers.rs`): a state file, two snapshot files and
 two kernel planes, iptables and the nft bridge table. Each request is a list of writes and commands,
 any of which can fail and so end the request early. A write truncates first, so a failed one leaves
 anything at all; a failed command changes nothing.
 */
module Firewall {
  import opened Text
  import opened FirewallText
  import opened Ipv4
  import opened NamespaceProbe
  import WgConfig

  /** An accept rule of the iptables chain, tagged with the rule's id; and one of the bridge chain. */
  datatype Ipt = Ipt(src: string, dst: string, proto: string, port: nat, comment: string)

  datatype Nft = Nft(src: string, dst: string, proto: string, port: nat)

  function Cidr(s: string): string { if '/' in s then s else s + "/32" }

  function IptOf(r: Rule): Ipt { Ipt(Cidr(r.src), Cidr(r.dst), r.proto, r.port, "coolify-fw:" + r.id) }

  function NftOf(r: Rule): Nft { Nft(r.src, r.dst, r.proto, r.port) }

  function Ipts(rules: seq<Rule>): (s: seq<Ipt>)
    ensures |s| == |rules|
  {
    seq(|rules|, i requires 0 <= i < |rules| => IptOf(rules[i]))
  }

  function Nfts(rules: seq<Rule>): (s: seq<Nft>)
    ensures |s| == |rules|
  {
    seq(|rules|, i requires 0 <= i < |rules| => NftOf(rules[i]))
  }

  datatype World = World(
    state: Option<string>, allowFile: seq<Ipt>, bridgeFile: seq<Nft>, iptables: seq<Ipt>, nft: seq<Nft>)

  const START := World(None, [], [], [], [])

  /** The rules the state file holds. */
  function Loaded(w: World): seq<Rule> { if w.state.None? then [] else ParseState(w.state.value) }

  // ----- requests as lists of effects -----

  datatype Effect =
    | WriteState(text: string)
    | WriteAllow(entries: seq<Ipt>)
    | WriteBridge(rows: seq<Nft>)
    | IptInsert(entry: Ipt)
    | NftAdd(row: Nft)
    | IptFlush
    | IptRestore
    | NftFlush
    | NftRestore

  function Effected(w: World, e: Effect): World {
    match e
    case WriteState(text) => w.(state := Some(text))
    case WriteAllow(entries) => w.(allowFile := entries)
    case WriteBridge(rows) => w.(bridgeFile := rows)
    case IptInsert(entry) => w.(iptables := [entry] + w.iptables)
    case NftAdd(row) => w.(nft := w.nft + [row])
    case IptFlush => w.(iptables := [])
    case IptRestore => w.(iptables := w.iptables + w.allowFile)
    case NftFlush => w.(nft := [])
    case NftRestore => w.(nft := w.nft + w.bridgeFile)
  }

  /** The effects in order, of which only the first `luck` come about. */
  function Attempt(w: World, es: seq<Effect>, luck: nat): World
    decreases |es|
  {
    if es == [] || luck == 0 then w else Attempt(Effected(w, es[0]), es[1..], luck - 1)
  }

  lemma AttemptStep(w: World, e: Effect, rest: seq<Effect>, luck: nat)
    ensures Attempt(w, [e] + rest, luck + 1) == Attempt(Effected(w, e), rest, luck)
  {
    assert ([e] + rest)[1..] == rest;
  }

  lemma {:induction false} AttemptConcat(w: World, a: seq<Effect>, b: seq<Effect>, luck: nat)
    ensures Attempt(w, a + b, luck) ==
            if luck < |a| then Attempt(w, a, luck) else Attempt(Attempt(w, a, |a|), b, luck - |a|)
    decreases |a|
  {
    if a == [] {
      assert a + b == b;
    } else if luck > 0 {
      assert (a + b)[1..] == a[1..] + b;
      AttemptConcat(Effected(w, a[0]), a[1..], b, luck - 1);
    }
  }

  lemma {:induction false} AttemptAll(w: World, es: seq<Effect>, luck: nat)
    requires luck >= |es|
    ensures Attempt(w, es, luck) == Attempt(w, es, |es|)
    decreases |es|
  {
    if es != [] { AttemptAll(Effected(w, es[0]), es[1..], luck - 1); }
  }

  /** What is left when this effect fails: a write that failed leaves junk behind. */
  function Torn(w: World, e: Effect, junk: World): World {
    match e
    case WriteState(_) => w.(state := junk.state)
    case WriteAllow(_) => w.(allowFile := junk.allowFile)
    case WriteBridge(_) => w.(bridgeFile := junk.bridgeFile)
    case _ => w
  }

  /** The effects in order, up to and including the one that fails, if one does. */
  function Tried(w: World, es: seq<Effect>, luck: nat, junk: World): World {
    if luck < |es| then Torn(Attempt(w, es, luck), es[luck], junk) else Attempt(w, es, luck)
  }

  lemma TriedConcat(w: World, a: seq<Effect>, b: seq<Effect>, luck: nat, junk: World)
    ensures Tried(w, a + b, luck, junk) ==
            if luck < |a| then Tried(w, a, luck, junk) else Tried(Attempt(w, a, |a|), b, luck - |a|, junk)
  {
    AttemptConcat(w, a, b, luck);
  }

  function Without(rules: seq<Rule>, id: string): seq<Rule> {
    if rules == [] then []
    else (if rules[0].id != id then [rules[0]] else []) + Without(rules[1..], id)
  }

  function SaveEffects(rules: seq<Rule>): seq<Effect> {
    [WriteState(RenderState(rules)), WriteAllow(Ipts(rules)), WriteBridge(Nfts(rules))]
  }

  function ReconcileEffects(rules: seq<Rule>): seq<Effect> {
    SaveEffects(rules) + [IptFlush, IptRestore, NftFlush, NftRestore]
  }

  datatype Request = Allow(rule: Rule) | Revoke(id: string) | Reconcile

  function EffectsOf(w: World, q: Request): seq<Effect> {
    match q
    case Allow(r) => SaveEffects(Without(Loaded(w), r.id) + [r]) + [IptInsert(IptOf(r)), NftAdd(NftOf(r))]
    case Revoke(id) =>
      var kept := Without(Loaded(w), id);
      if |kept| == |Loaded(w)| then []
      else SaveEffects(kept) + ReconcileEffects(ParseState(RenderState(kept)))
    case Reconcile => ReconcileEffects(Loaded(w))
  }

  /** One request, ended early if its luck runs out. */
  datatype Op = Op(request: Request, luck: nat, junk: World)

  function Exec(w: World, op: Op): World { Tried(w, EffectsOf(w, op.request), op.luck, op.junk) }

  predicate Succeeds(w: World, op: Op) {
    op.luck >= |EffectsOf(w, op.request)| && (op.request.Revoke? ==> EffectsOf(w, op.request) != [])
  }

  // ----- what one request does -----

  lemma {:induction false} WithoutFound(rules: seq<Rule>, id: string)
    ensures |Without(rules, id)| <= |rules|
    ensures |Without(rules, id)| == |rules| <==> Find(rules, id) == None
    ensures Find(rules, id) == None ==> Without(rules, id) == rules
    ensures Find(Without(rules, id), id) == None
  {
    if rules != [] {
      var rest := Without(rules[1..], id);
      WithoutFound(rules[1..], id);
      assert [rules[0]] + rules[1..] == rules && ([rules[0]] + rest)[1..] == rest && [] + rest == rest;
    }
  }

  lemma {:induction false} WithoutClean(rules: seq<Rule>, id: string)
    requires AllClean(rules)
    ensures AllClean(Without(rules, id))
  {
    hide Clean;
    if rules != [] {
      WithoutClean(rules[1..], id);
    }
  }

  lemma {:induction false} WithoutOthers(rules: seq<Rule>, id: string, other: string)
    requires other != id
    ensures Find(Without(rules, id), other) == Find(rules, other)
  {
    if rules != [] {
      var rest := Without(rules[1..], id);
      WithoutOthers(rules[1..], id, other);
      assert ([rules[0]] + rest)[1..] == rest;
      assert [] + rest == rest;
    }
  }

  /** The first rule with the id. */
  function Find(rules: seq<Rule>, id: string): Option<Rule> {
    if rules == [] then None else if rules[0].id == id then Some(rules[0]) else Find(rules[1..], id)
  }

  ghost predicate UniqueIds(rules: seq<Rule>) {
    forall i, j :: 0 <= i < j < |rules| ==> rules[i].id != rules[j].id
  }

  lemma {:induction false} WithoutUnique(rules: seq<Rule>, id: string)
    requires UniqueIds(rules)
    ensures UniqueIds(Without(rules, id))
    ensures forall r :: r in Without(rules, id) <==> r in rules && r.id != id
  {
    if rules != [] {
      WithoutUnique(rules[1..], id);
      assert forall r :: r in rules <==> r == rules[0] || r in rules[1..];
    }
  }

  lemma {:induction false} FindLast(rules: seq<Rule>, r: Rule, id: string)
    ensures Find(rules + [r], id) ==
            if Find(rules, id).Some? then Find(rules, id) else if r.id == id then Some(r) else None
  {
    if rules == [] {
      assert rules + [r] == [r] && Find([r][1..], id) == None;
    } else {
      assert (rules + [r])[1..] == rules[1..] + [r];
      FindLast(rules[1..], r, id);
    }
  }

  lemma SaveDoes(w: World, rules: seq<Rule>)
    ensures Attempt(w, SaveEffects(rules), 3) ==
            w.(state := Some(RenderState(rules)), allowFile := Ipts(rules), bridgeFile := Nfts(rules))
  {
    hide RenderState, Ipts, Nfts, Attempt;
    var a, b, c := WriteState(RenderState(rules)), WriteAllow(Ipts(rules)), WriteBridge(Nfts(rules));
    assert SaveEffects(rules) == [a] + [b, c] && [b, c] == [b] + [c] && [c] == [c] + [];
    AttemptStep(w, a, [b, c], 2);
    AttemptStep(Effected(w, a), b, [c], 1);
    AttemptStep(Effected(Effected(w, a), b), c, [], 0);
    AttemptNone(Effected(Effected(Effected(w, a), b), c));
  }

  lemma RestoreDoes(w: World)
    ensures Attempt(w, [IptFlush, IptRestore, NftFlush, NftRestore], 4) ==
            w.(iptables := w.allowFile, nft := w.bridgeFile)
  {
    hide Attempt;
    assert [IptFlush, IptRestore, NftFlush, NftRestore] == [IptFlush] + ([IptRestore] + ([NftFlush] + ([NftRestore] + [])));
    AttemptStep(w, IptFlush, [IptRestore] + ([NftFlush] + ([NftRestore] + [])), 3);
    var w1 := w.(iptables := []);
    AttemptStep(w1, IptRestore, [NftFlush] + ([NftRestore] + []), 2);
    var w2 := w.(iptables := [] + w.allowFile);
    AttemptStep(w2, NftFlush, [NftRestore] + [], 1);
    var w3 := w2.(nft := []);
    AttemptStep(w3, NftRestore, [], 0);
    AttemptNone(Effected(w3, NftRestore));
    assert [] + w.allowFile == w.allowFile && [] + w.bridgeFile == w.bridgeFile;
  }

  lemma AttemptNone(w: World)
    ensures Attempt(w, [], 0) == w
  {
  }

  /** Both planes hold exactly the stored tuples, in file order. */
  predicate Exact(w: World) { w.iptables == Ipts(Loaded(w)) && w.nft == Nfts(Loaded(w)) }

  lemma ReconcileDoes(w: World, rules: seq<Rule>)
    ensures Attempt(w, ReconcileEffects(rules), 7) ==
            World(Some(RenderState(rules)), Ipts(rules), Nfts(rules), Ipts(rules), Nfts(rules))
  {
    hide RenderState, Ipts, Nfts, SaveEffects;
    AttemptConcat(w, SaveEffects(rules), [IptFlush, IptRestore, NftFlush, NftRestore], 7);
    SaveCount(rules);
    SaveDoes(w, rules);
    RestoreDoes(Attempt(w, SaveEffects(rules), 3));
  }

  lemma SaveCount(rules: seq<Rule>)
    ensures |SaveEffects(rules)| == 3 && |ReconcileEffects(rules)| == 7
  {
  }

  lemma LoadedIsClean(w: World)
    ensures AllClean(Loaded(w))
  {
    if w.state.Some? { LoadedClean(w.state.value); }
  }

  /** From whatever state, a reconcile that succeeds makes both planes exact and keeps the rules. */
  lemma ReconcileExact(w: World, luck: nat, junk: World)
    requires Succeeds(w, Op(Reconcile, luck, junk))
    ensures Exact(Exec(w, Op(Reconcile, luck, junk))) && Loaded(Exec(w, Op(Reconcile, luck, junk))) == Loaded(w)
  {
    hide RenderState, Ipts, Nfts, SaveEffects, ReconcileEffects, ParseState;
    var rules := Loaded(w);
    SaveCount(rules);
    AttemptAll(w, ReconcileEffects(rules), luck);
    ReconcileDoes(w, rules);
    LoadedIsClean(w);
    StateRoundTrip(rules);
  }

  /** From whatever state, a revoke that succeeds makes both planes exact and drops the id; it
      succeeds only if the id is stored. */
  lemma RevokeExact(w: World, id: string, luck: nat, junk: World)
    requires Succeeds(w, Op(Revoke(id), luck, junk))
    ensures Find(Loaded(w), id).Some?
    ensures Exact(Exec(w, Op(Revoke(id), luck, junk))) && Loaded(Exec(w, Op(Revoke(id), luck, junk))) == Without(Loaded(w), id)
  {
    hide RenderState, Ipts, Nfts, SaveEffects, ReconcileEffects, ParseState;
    var kept := Without(Loaded(w), id);
    LoadedIsClean(w);
    WithoutFound(Loaded(w), id);
    WithoutClean(Loaded(w), id);
    StateRoundTrip(kept);
    SaveCount(kept);
    AttemptAll(w, EffectsOf(w, Revoke(id)), luck);
    AttemptConcat(w, SaveEffects(kept), ReconcileEffects(kept), 10);
    ReconcileDoes(Attempt(w, SaveEffects(kept), 3), kept);
  }

  lemma AllowDoes(w: World, r: Rule, luck: nat, junk: World)
    requires luck >= 5
    ensures var rules := Without(Loaded(w), r.id) + [r];
            Exec(w, Op(Allow(r), luck, junk)) ==
            World(Some(RenderState(rules)), Ipts(rules), Nfts(rules), [IptOf(r)] + w.iptables, w.nft + [NftOf(r)])
  {
    hide RenderState, Ipts, Nfts, SaveEffects, ParseState, IptOf, NftOf;
    var rules := Without(Loaded(w), r.id) + [r];
    var tail := [IptInsert(IptOf(r)), NftAdd(NftOf(r))];
    SaveCount(rules);
    AttemptAll(w, SaveEffects(rules) + tail, luck);
    AttemptConcat(w, SaveEffects(rules), tail, 5);
    SaveDoes(w, rules);
    var saved := Attempt(w, SaveEffects(rules), 3);
    assert tail == [tail[0]] + [tail[1]] && [tail[1]] == [tail[1]] + [];
    AttemptStep(saved, tail[0], [tail[1]], 1);
    AttemptStep(Effected(saved, tail[0]), tail[1], [], 0);
    AttemptNone(Effected(Effected(saved, tail[0]), tail[1]));
  }

  /** What an allow stores is read back exactly when the rule is clean: then it is the old rules
      without that id, and the new one. */
  lemma AllowStores(w: World, r: Rule, luck: nat, junk: World)
    requires luck > 0
    ensures Loaded(Exec(w, Op(Allow(r), luck, junk))) == Without(Loaded(w), r.id) + [r] <==> Clean(r)
  {
    hide RenderState, Ipts, Nfts, ParseState, IptOf, NftOf, Clean;
    var rules := Without(Loaded(w), r.id) + [r];
    FirstWriteCounts(w, EffectsOf(w, Allow(r)), luck);
    LoadedIsClean(w);
    WithoutClean(Loaded(w), r.id);
    StateRoundTrip(rules);
    assert rules[|rules| - 1] == r;
    assert AllClean(rules) <==> Clean(r);
  }

  predicate WritesSame(e: Effect, text: string) { e.WriteState? ==> e.text == text }

  /** If every state write in the list writes the same text, one step is enough to have it stored. */
  lemma {:induction false} SameWrites(w: World, es: seq<Effect>, luck: nat, text: string)
    requires w.state == Some(text) && forall i :: 0 <= i < |es| ==> WritesSame(es[i], text)
    ensures Attempt(w, es, luck).state == Some(text)
    decreases |es|
  {
    if es != [] && luck > 0 {
      assert WritesSame(es[0], text);
      SameWrites(Effected(w, es[0]), es[1..], luck - 1, text);
    }
  }

  lemma FirstWriteCounts(w: World, es: seq<Effect>, luck: nat)
    requires luck > 0 && es != [] && es[0].WriteState? && forall i :: 0 <= i < |es| ==> WritesSame(es[i], es[0].text)
    ensures Attempt(w, es, luck).state == Some(es[0].text)
  {
    SameWrites(Effected(w, es[0]), es[1..], luck - 1, es[0].text);
  }

  // ----- runs -----

  predicate CleanOp(op: Op) { op.request.Allow? ==> Clean(op.request.rule) }

  /** No write of the state file itself fails. */
  predicate Intact(w: World, op: Op) {
    var es := EffectsOf(w, op.request);
    op.luck >= |es| || !es[op.luck].WriteState?
  }

  /** The stored rules after an operation that wrote the file. */
  function Stored(rules: seq<Rule>, op: Op): seq<Rule> {
    match op.request
    case Allow(r) => Without(rules, r.id) + [r]
    case Revoke(id) => Without(rules, id)
    case Reconcile => rules
  }

  lemma OpStores(w: World, op: Op)
    requires CleanOp(op) && Intact(w, op)
    ensures Loaded(Exec(w, op)) == Stored(Loaded(w), op)
  {
    hide RenderState, Ipts, Nfts, ParseState, IptOf, NftOf, Clean, AllClean;
    var rules := Loaded(w);
    LoadedIsClean(w);
    match op.request
    case Allow(r) => AllowStores(w, r, op.luck, op.junk);
    case Revoke(id) =>
      var kept := Without(rules, id);
      WithoutClean(rules, id);
      WithoutFound(rules, id);
      StateRoundTrip(kept);
      if |kept| != |rules| {
        FirstWriteCounts(w, EffectsOf(w, op.request), op.luck);
      }
    case Reconcile =>
      StateRoundTrip(rules);
      FirstWriteCounts(w, EffectsOf(w, op.request), op.luck);
  }

  /** The rule an id was last allowed with, if it was not revoked since. */
  function LastOf(rules: seq<Rule>, ops: seq<Op>, id: string): Option<Rule> {
    if ops == [] then Find(rules, id)
    else
      var op := ops[|ops| - 1];
      if op.request.Allow? && op.request.rule.id == id then Some(op.request.rule)
      else if op.request.Revoke? && op.request.id == id then None
      else LastOf(rules, ops[..|ops| - 1], id)
  }

  ghost predicate Trace(states: seq<World>, ops: seq<Op>) {
    && |states| == |ops| + 1
    && forall i :: 0 <= i < |ops| ==> CleanOp(ops[i]) && states[i + 1] == Exec(states[i], ops[i])
  }

  lemma StoredUnique(rules: seq<Rule>, op: Op)
    requires UniqueIds(rules)
    ensures UniqueIds(Stored(rules, op))
  {
    match op.request
    case Allow(r) =>
      WithoutUnique(rules, r.id);
      assert forall x :: x in Without(rules, r.id) ==> x.id != r.id;
    case Revoke(id) => WithoutUnique(rules, id);
    case Reconcile =>
  }

  lemma StoredFind(rules: seq<Rule>, op: Op, id: string)
    ensures Find(Stored(rules, op), id) ==
            if op.request.Allow? && op.request.rule.id == id then Some(op.request.rule)
            else if op.request.Revoke? && op.request.id == id then None
            else Find(rules, id)
  {
    match op.request
    case Allow(r) =>
      WithoutFound(rules, r.id);
      FindLast(Without(rules, r.id), r, id);
      if r.id != id { WithoutOthers(rules, r.id, id); }
    case Revoke(i) =>
      WithoutFound(rules, i);
      if i != id { WithoutOthers(rules, i, id); }
    case Reconcile =>
  }

  /** At every moment of a run in which requests may fail anywhere but in writing the state file, the
      file holds each id at most once, with the rule it was last allowed with. */
  lemma {:induction false} FileHoldsLast(states: seq<World>, ops: seq<Op>, n: nat, id: string)
    requires Trace(states, ops) && n <= |ops| && UniqueIds(Loaded(states[0]))
    requires forall i :: 0 <= i < |ops| ==> Intact(states[i], ops[i])
    ensures UniqueIds(Loaded(states[n]))
    ensures Find(Loaded(states[n]), id) == LastOf(Loaded(states[0]), ops[..n], id)
  {
    hide Exec, Loaded, Stored, CleanOp, Intact;
    if n > 0 {
      FileHoldsLast(states, ops, n - 1, id);
      assert ops[..n][..n - 1] == ops[..n - 1];
      OpStores(states[n - 1], ops[n - 1]);
      StoredUnique(Loaded(states[n - 1]), ops[n - 1]);
      StoredFind(Loaded(states[n - 1]), ops[n - 1], id);
    }
  }

  predicate InPlanes(w: World, r: Rule) { IptOf(r) in w.iptables && NftOf(r) in w.nft }

  /** Every stored rule is in both planes. */
  ghost predicate Present(w: World) { forall r :: r in Loaded(w) ==> InPlanes(w, r) }

  lemma ExactPresent(w: World)
    requires Exact(w)
    ensures Present(w)
  {
    forall r | r in Loaded(w) ensures InPlanes(w, r) {
      var i :| 0 <= i < |Loaded(w)| && Loaded(w)[i] == r;
      assert w.iptables[i] == IptOf(r) && w.nft[i] == NftOf(r);
    }
  }

  lemma {:induction false} WithoutFewer(rules: seq<Rule>, id: string)
    ensures forall r :: r in Without(rules, id) ==> r in rules
  {
    if rules != [] { WithoutFewer(rules[1..], id); }
  }

  lemma StepPresent(w: World, op: Op)
    requires Present(w) && Succeeds(w, op) && CleanOp(op)
    ensures Present(Exec(w, op))
    ensures op.request.Revoke? || op.request.Reconcile? ==> Exact(Exec(w, op))
  {
    hide RenderState, Ipts, Nfts, ParseState, Clean, Exec, Loaded, IptOf, NftOf;
    match op.request
    case Reconcile =>
      ReconcileExact(w, op.luck, op.junk);
      ExactPresent(Exec(w, op));
    case Revoke(id) =>
      RevokeExact(w, id, op.luck, op.junk);
      ExactPresent(Exec(w, op));
    case Allow(r) =>
      AllowDoes(w, r, op.luck, op.junk);
      AllowStores(w, r, op.luck, op.junk);
      WithoutFewer(Loaded(w), r.id);
      forall x | x in Loaded(Exec(w, op)) ensures InPlanes(Exec(w, op), x) {
        if x in Loaded(w) {
          assert InPlanes(w, x);
        } else {
          assert x == r;
        }
      }
  }

  /** While requests succeed, every stored rule is in both planes at every moment; and after each
      revoke or reconcile the planes hold exactly the stored tuples. */
  lemma {:induction false} PlanesHoldAll(states: seq<World>, ops: seq<Op>, n: nat)
    requires Trace(states, ops) && n <= |ops| && Present(states[0])
    requires forall i :: 0 <= i < |ops| ==> Succeeds(states[i], ops[i])
    ensures Present(states[n])
    ensures n > 0 && (ops[n - 1].request.Revoke? || ops[n - 1].request.Reconcile?) ==> Exact(states[n])
  {
    hide Exec, Loaded, Present, Exact, CleanOp, Succeeds;
    if n > 0 {
      PlanesHoldAll(states, ops, n - 1);
      assert Succeeds(states[n - 1], ops[n - 1]);
      StepPresent(states[n - 1], ops[n - 1]);
    }
  }

  lemma StartHolds()
    ensures Present(START) && Exact(START) && UniqueIds(Loaded(START))
  {
  }

  /** Both planes hold the stored tuples, each as often as it is stored, in any order. */
  ghost predicate Counted(w: World) {
    multiset(w.iptables) == multiset(Ipts(Loaded(w))) && multiset(w.nft) == multiset(Nfts(Loaded(w)))
  }

  lemma TuplesSnoc(rules: seq<Rule>, r: Rule)
    ensures multiset(Ipts(rules + [r])) == multiset(Ipts(rules)) + multiset{IptOf(r)}
    ensures multiset(Nfts(rules + [r])) == multiset(Nfts(rules)) + multiset{NftOf(r)}
  {
    hide IptOf, NftOf;
    assert Ipts(rules + [r]) == Ipts(rules) + [IptOf(r)];
    assert Nfts(rules + [r]) == Nfts(rules) + [NftOf(r)];
  }

  /** An allow keeps the planes exact if and only if its id was not stored before: the old kernel
      rules are not taken out. */
  lemma AllowExactIff(w: World, r: Rule, luck: nat, junk: World)
    requires Counted(w) && Clean(r) && Succeeds(w, Op(Allow(r), luck, junk))
    ensures Counted(Exec(w, Op(Allow(r), luck, junk))) <==> Find(Loaded(w), r.id) == None
  {
    hide RenderState, ParseState, Clean, Exec, Loaded, IptOf, NftOf, Ipts, Nfts, Without;
    var w', rules := Exec(w, Op(Allow(r), luck, junk)), Loaded(w);
    SaveCount(Without(rules, r.id) + [r]);
    AllowDoes(w, r, luck, junk);
    AllowStores(w, r, luck, junk);
    WithoutFound(rules, r.id);
    TuplesSnoc(Without(rules, r.id), r);
    assert multiset(w.nft + [NftOf(r)]) == multiset(w.nft) + multiset{NftOf(r)};
    assert multiset([IptOf(r)] + w.iptables) == multiset(w.iptables) + multiset{IptOf(r)};
    if Counted(w') {
      assert |multiset(w'.iptables)| == |rules| + 1;
      assert |multiset(Ipts(Without(rules, r.id) + [r]))| == |Without(rules, r.id)| + 1;
    }
  }

  lemma PlainIsClean(r: Rule)
    requires r.id == "x" && r.namespace == "n" && r.src == "10.0.0.1" && r.dst == "10.0.0.2" && r.proto == "tcp"
    ensures Clean(r)
  {
  }

  lemma Tuples(port: U32)
    ensures var r := Rule("x", "n", "10.0.0.1", "10.0.0.2", "tcp", port);
            && IptOf(r) == Ipt("10.0.0.1/32", "10.0.0.2/32", "tcp", port, "coolify-fw:x")
            && NftOf(r) == Nft("10.0.0.1", "10.0.0.2", "tcp", port)
  {
  }

  /** Allowing an id again with another port: the file has the new rule only, the kernel both. */
  lemma OldRuleStays()
    ensures var r, r' := Rule("x", "n", "10.0.0.1", "10.0.0.2", "tcp", 80), Rule("x", "n", "10.0.0.1", "10.0.0.2", "tcp", 81);
            var w := Exec(Exec(START, Op(Allow(r), 5, START)), Op(Allow(r'), 5, START));
            && Loaded(w) == [r']
            && w.iptables == [Ipt("10.0.0.1/32", "10.0.0.2/32", "tcp", 81, "coolify-fw:x"),
                              Ipt("10.0.0.1/32", "10.0.0.2/32", "tcp", 80, "coolify-fw:x")]
            && w.nft == [Nft("10.0.0.1", "10.0.0.2", "tcp", 80), Nft("10.0.0.1", "10.0.0.2", "tcp", 81)]
  {
    hide RenderState, Ipts, Nfts, ParseState, IptOf, NftOf, Exec, Clean;
    Tuples(80);
    Tuples(81);
    var r, r' := Rule("x", "n", "10.0.0.1", "10.0.0.2", "tcp", 80), Rule("x", "n", "10.0.0.1", "10.0.0.2", "tcp", 81);
    PlainIsClean(r);
    PlainIsClean(r');
    var w := Exec(START, Op(Allow(r), 5, START));
    AllowDoes(START, r, 5, START);
    AllowStores(START, r, 5, START);
    assert Without([], "x") + [r] == [r];
    AllowDoes(w, r', 5, START);
    AllowStores(w, r', 5, START);
    assert [r][1..] == [] && Without([r], "x") == [];
  }

  // ----- what gets through -----

  datatype Packet = Packet(src: U32, dst: U32, proto: string, port: nat)

  /** The text is this address, or a network that holds it. */
  ghost predicate Covers(text: string, ip: U32) {
    || WgConfig.ParseIp(text) == Some(ip)
    || (ParseNet(text).Some? && ParseNet(text).value.Contains(ip))
  }

  /** What a rule is meant to let through. */
  ghost predicate Permits(r: Rule, p: Packet) {
    Covers(r.src, p.src) && Covers(r.dst, p.dst) && r.proto == p.proto && r.port == p.port
  }

  ghost predicate IptMatches(e: Ipt, p: Packet) {
    Covers(e.src, p.src) && Covers(e.dst, p.dst) && e.proto == p.proto && e.port == p.port
  }

  ghost predicate NftMatches(e: Nft, p: Packet) {
    Covers(e.src, p.src) && Covers(e.dst, p.dst) && e.proto == p.proto && e.port == p.port
  }

  /** Some rule of the plane accepts the packet. */
  ghost predicate IptAccepts(w: World, p: Packet) { exists e :: e in w.iptables && IptMatches(e, p) }

  ghost predicate NftAccepts(w: World, p: Packet) { exists e :: e in w.nft && NftMatches(e, p) }

  ghost predicate Permitted(w: World, p: Packet) { exists r :: r in Loaded(w) && Permits(r, p) }

  /** An address written with /32 is the same address. */
  lemma CidrCovers(s: string, ip: U32)
    ensures Covers(Cidr(s), ip) <==> Covers(s, ip)
  {
    hide WgConfig.ParseIp;
    if '/' !in s {
      assert s + "/32" == s + ['/'] + "32";
      SplitOnceAt(s, '/', "32");
      assert Value("32") == 32 by { assert "32"[..1] == "3" && "3"[..0] == ""; }
      assert AllDigits("32");
      SlashIsNoAddress(s + "/32");
      if WgConfig.ParseIp(s).Some? { SingleHost(WgConfig.ParseIp(s).value, ip); }
    }
  }

  lemma SlashIsNoAddress(s: string)
    requires '/' in s
    ensures WgConfig.ParseIp(s) == None
  {
    WgConfig.AddressHasNoSlash(s);
  }

  lemma SingleHost(a: U32, ip: U32)
    ensures Net(a, 32).Contains(ip) <==> ip == a
  {
    assert Pow2(0) == 1 && Net(a, 32).Size() == 1;
  }

  lemma TuplesPermit(r: Rule, p: Packet)
    ensures IptMatches(IptOf(r), p) <==> Permits(r, p)
    ensures NftMatches(NftOf(r), p) <==> Permits(r, p)
  {
    hide Covers, Cidr;
    CidrCovers(r.src, p.src);
    CidrCovers(r.dst, p.dst);
  }

  lemma ExactAccepts(w: World, p: Packet)
    requires Exact(w)
    ensures IptAccepts(w, p) <==> Permitted(w, p)
    ensures NftAccepts(w, p) <==> Permitted(w, p)
  {
    hide IptMatches, NftMatches, Permits, IptOf, NftOf;
    var rules := Loaded(w);
    forall i | 0 <= i < |rules| ensures IptMatches(w.iptables[i], p) <==> Permits(rules[i], p)
                                ensures NftMatches(w.nft[i], p) <==> Permits(rules[i], p) {
      TuplesPermit(rules[i], p);
    }
    if IptAccepts(w, p) {
      var i :| 0 <= i < |w.iptables| && IptMatches(w.iptables[i], p);
      assert rules[i] in rules;
    }
    if NftAccepts(w, p) {
      var i :| 0 <= i < |w.nft| && NftMatches(w.nft[i], p);
      assert rules[i] in rules;
    }
    if Permitted(w, p) {
      var i :| 0 <= i < |rules| && Permits(rules[i], p);
      assert w.iptables[i] in w.iptables && w.nft[i] in w.nft;
    }
  }

  lemma PresentAccepts(w: World, p: Packet)
    requires Present(w) && Permitted(w, p)
    ensures IptAccepts(w, p) && NftAccepts(w, p)
  {
    hide IptMatches, NftMatches, Permits, IptOf, NftOf;
    var r :| r in Loaded(w) && Permits(r, p);
    assert InPlanes(w, r);
    TuplesPermit(r, p);
  }

  /** While requests succeed, both planes let through every packet some stored rule permits, at every
      moment; and after each revoke or reconcile they let through no other. */
  lemma PacketsFollowRules(states: seq<World>, ops: seq<Op>, n: nat, p: Packet)
    requires Trace(states, ops) && n <= |ops| && Present(states[0])
    requires forall i :: 0 <= i < |ops| ==> Succeeds(states[i], ops[i])
    ensures Permitted(states[n], p) ==> IptAccepts(states[n], p) && NftAccepts(states[n], p)
    ensures n > 0 && (ops[n - 1].request.Revoke? || ops[n - 1].request.Reconcile?) ==>
              && (IptAccepts(states[n], p) <==> Permitted(states[n], p))
              && (NftAccepts(states[n], p) <==> Permitted(states[n], p))
    ensures n > 0 && ops[n - 1].request.Allow? && Permits(ops[n - 1].request.rule, p) ==>
              IptAccepts(states[n], p) && NftAccepts(states[n], p)
  {
    hide Exec, Present, Exact, IptAccepts, NftAccepts, Permitted, Permits, Succeeds, Loaded;
    PlanesHoldAll(states, ops, n);
    if Permitted(states[n], p) { PresentAccepts(states[n], p); }
    if n > 0 {
      var op := ops[n - 1];
      if op.request.Allow? && Permits(op.request.rule, p) {
        JustAllowed(states[n - 1], op, p);
        PresentAccepts(states[n], p);
      }
      if op.request.Revoke? || op.request.Reconcile? { ExactAccepts(states[n], p); }
    }
  }

  lemma JustAllowed(w: World, op: Op, p: Packet)
    requires CleanOp(op) && Succeeds(w, op) && op.request.Allow? && Permits(op.request.rule, p)
    ensures Permitted(Exec(w, op), p)
  {
    hide Permits, Exec, Loaded, Clean;
    var r := op.request.rule;
    AllowStores(w, r, op.luck, op.junk);
    assert r in Without(Loaded(w), r.id) + [r];
  }

  // ----- the code -----

  datatype Error = IdRequired | FieldsRequired | UnsupportedProto | PortRange | Unresolved | NotFound | Failed

  datatype Result = Ok | Err(error: Error)

  function Validate(r: Rule): Result {
    if r.id == "" then Err(IdRequired)
    else if r.namespace == "" || r.src == "" || r.dst == "" then Err(FieldsRequired)
    else if r.proto != "tcp" && r.proto != "udp" then Err(UnsupportedProto)
    else if r.port == 0 || r.port > 65535 then Err(PortRange)
    else Ok
  }

  /** A rule is accepted if and only if it is complete, for tcp or udp, and its port is one; otherwise
      the first thing that is wrong is named: id, other fields, protocol, port. */
  lemma ValidIff(r: Rule)
    ensures var id, fields := |r.id| > 0, |r.namespace| > 0 && |r.src| > 0 && |r.dst| > 0;
            var proto, port := r.proto in {"tcp", "udp"}, 1 <= r.port <= 65535;
            && (Validate(r) == Ok <==> id && fields && proto && port)
            && (Validate(r) == Err(IdRequired) <==> !id)
            && (Validate(r) == Err(FieldsRequired) <==> id && !fields)
            && (Validate(r) == Err(UnsupportedProto) <==> id && fields && !proto)
            && (Validate(r) == Err(PortRange) <==> id && fields && proto && !port)
  {
  }

  class Host {
    var state: Option<string>
    var allowFile: seq<Ipt>
    var bridgeFile: seq<Nft>
    var iptables: seq<Ipt>
    var nft: seq<Nft>
    var luck: nat       // how many more writes and commands go well
    const junk: World   // what a failed write leaves behind

    constructor (luck: nat, junk: World)
      ensures View() == START && this.luck == luck && this.junk == junk
    {
      state, allowFile, bridgeFile, iptables, nft := None, [], [], [], [];
      this.luck, this.junk := luck, junk;
    }

    function View(): World
      reads this
    {
      World(state, allowFile, bridgeFile, iptables, nft)
    }

    /** One write or command. */
    method Perform(e: Effect) returns (ok: bool)
      modifies this
      ensures ok == (old(luck) > 0) && luck == (if ok then old(luck) - 1 else 0)
      ensures View() == if ok then Effected(old(View()), e) else Torn(old(View()), e, junk)
    {
      if luck == 0 {
        match e {
        case WriteState(_) => state := junk.state;
        case WriteAllow(_) => allowFile := junk.allowFile;
        case WriteBridge(_) => bridgeFile := junk.bridgeFile;
        case _ =>
        }
        return false;
      }
      luck := luck - 1;
      match e {
      case WriteState(text) => state := Some(text);
      case WriteAllow(entries) => allowFile := entries;
      case WriteBridge(rows) => bridgeFile := rows;
      case IptInsert(entry) => iptables := [entry] + iptables;
      case NftAdd(row) => nft := nft + [row];
      case IptFlush => iptables := [];
      case IptRestore => iptables := iptables + allowFile;
      case NftFlush => nft := [];
      case NftRestore => nft := nft + bridgeFile;
      }
      return true;
    }

    /** One after the other, up to the first that fails. */
    method PerformAll(es: seq<Effect>) returns (ok: bool)
      modifies this
      ensures View() == Tried(old(View()), es, old(luck), junk)
      ensures ok == (old(luck) >= |es|)
      ensures luck == if ok then old(luck) - |es| else 0
    {
      hide Attempt, Torn, Effected;
      ok := true;
      ghost var start, had := View(), luck;
      NoneTried(start, es, had, junk);
      for i := 0 to |es|
        invariant ok && had >= i && luck == had - i
        invariant Tried(start, es, had, junk) == Tried(View(), es[i..], luck, junk)
      {
        TriedStep(View(), es[i..], luck, junk);
        assert es[i..][1..] == es[i + 1..];
        ok := Perform(es[i]);
        if !ok {
          return;
        }
      }
      TriedNothing(View(), es[|es|..], luck, junk);
    }

    method Load() returns (rules: seq<Rule>)
      ensures rules == Loaded(View())
    {
      hide ParseLine, Lines;
      if state.None? {
        return [];
      }
      rules := [];
      var lines := Lines(state.value);
      for i := 0 to |lines|
        invariant rules + ParseLines(lines[i..]) == ParseLines(lines)
      {
        var rule := ParseLine(lines[i]);
        if rule.Some? {
          rules := rules + [rule.value];
        }
      }
    }

    method Save(rules: seq<Rule>) returns (ok: bool)
      modifies this
      ensures View() == Tried(old(View()), SaveEffects(rules), old(luck), junk)
      ensures ok == (old(luck) >= 3) && luck == if ok then old(luck) - 3 else 0
    {
      hide RenderState, Ipts, Nfts, Tried;
      ok := PerformAll([WriteState(RenderState(rules)), WriteAllow(Ipts(rules)), WriteBridge(Nfts(rules))]);
    }

    /** `resolved` is what the source and the destination resolve to, if they do. */
    method FirewallAllow(rule: Rule, resolved: Option<(string, string)>) returns (r: Result)
      modifies this
      ensures Validate(rule).Err? ==> r == Validate(rule)
      ensures Validate(rule).Ok? && resolved.None? ==> r == Err(Unresolved)
      ensures Validate(rule).Err? || resolved.None? ==> View() == old(View())
      ensures Validate(rule).Ok? && resolved.Some? ==>
                var op := Op(Allow(rule.(src := resolved.value.0, dst := resolved.value.1)), old(luck), junk);
                View() == Exec(old(View()), op) && r == if Succeeds(old(View()), op) then Ok else Err(Failed)
    {
      hide RenderState, Ipts, Nfts, Attempt, Tried, IptOf, NftOf, SaveEffects, Loaded;
      var valid := Validate(rule);
      if valid.Err? {
        return valid;
      }
      if resolved.None? {
        return Err(Unresolved);
      }
      var normalized := rule.(src := resolved.value.0, dst := resolved.value.1);
      var rules := Load();
      rules := Without(rules, rule.id) + [normalized];
      ghost var tail := [IptInsert(IptOf(normalized)), NftAdd(NftOf(normalized))];
      TriedConcat(View(), SaveEffects(rules), tail, luck, junk);
      TriedAll(View(), SaveEffects(rules), luck, junk);
      SaveCount(rules);
      var ok := Save(rules);
      if !ok {
        return Err(Failed);
      }
      ok := PerformAll([IptInsert(IptOf(normalized)), NftAdd(NftOf(normalized))]);
      return if ok then Ok else Err(Failed);
    }

    method FirewallReconcile() returns (r: Result)
      modifies this
      ensures View() == Exec(old(View()), Op(Reconcile, old(luck), junk))
      ensures r == if old(luck) >= 7 then Ok else Err(Failed)
      ensures old(luck) >= 7 ==> luck == old(luck) - 7
    {
      hide RenderState, Ipts, Nfts, Attempt, Tried, SaveEffects, Loaded;
      var rules := Load();
      ghost var tail := [IptFlush, IptRestore, NftFlush, NftRestore];
      TriedConcat(View(), SaveEffects(rules), tail, luck, junk);
      TriedAll(View(), SaveEffects(rules), luck, junk);
      SaveCount(rules);
      var ok := Save(rules);
      if !ok {
        return Err(Failed);
      }
      ok := PerformAll([IptFlush, IptRestore, NftFlush, NftRestore]);
      return if ok then Ok else Err(Failed);
    }

    method FirewallRevoke(id: string) returns (r: Result)
      modifies this
      ensures View() == Exec(old(View()), Op(Revoke(id), old(luck), junk))
      ensures r == if Find(old(Loaded(View())), id) == None then Err(NotFound)
                   else if Succeeds(old(View()), Op(Revoke(id), old(luck), junk)) then Ok else Err(Failed)
    {
      hide RenderState, Ipts, Nfts, Attempt, Tried, SaveEffects, ReconcileEffects, ParseState;
      var rules := Load();
      var kept := Without(rules, id);
      WithoutFound(rules, id);
      if |kept| == |rules| {
        TriedNothing(View(), [], luck, junk);
        return Err(NotFound);
      }
      ghost var start, again := View(), ParseState(RenderState(kept));
      TriedConcat(start, SaveEffects(kept), ReconcileEffects(again), luck, junk);
      TriedAll(start, SaveEffects(kept), luck, junk);
      SaveDoes(start, kept);
      SaveCount(kept);
      SaveCount(again);
      var ok := Save(kept);
      if !ok {
        return Err(Failed);
      }
      r := FirewallReconcile();
    }
  }

  lemma NoneTried(w: World, es: seq<Effect>, luck: nat, junk: World)
    ensures Tried(w, es, luck, junk) == Tried(w, es[0..], luck, junk)
  {
    assert es[0..] == es;
  }

  lemma TriedNothing(w: World, es: seq<Effect>, luck: nat, junk: World)
    requires es == []
    ensures Tried(w, es, luck, junk) == w
  {
  }

  lemma TriedStep(w: World, es: seq<Effect>, luck: nat, junk: World)
    requires es != []
    ensures Tried(w, es, luck, junk) ==
            if luck == 0 then Torn(w, es[0], junk) else Tried(Effected(w, es[0]), es[1..], luck - 1, junk)
  {
    hide Torn, Effected;
    assert es == [es[0]] + es[1..];
    if luck > 0 { AttemptStep(w, es[0], es[1..], luck - 1); }
  }

  lemma TriedAll(w: World, es: seq<Effect>, luck: nat, junk: World)
    ensures luck >= |es| ==> Tried(w, es, luck, junk) == Attempt(w, es, |es|)
  {
    if luck >= |es| { AttemptAll(w, es, luck); }
  }
}
