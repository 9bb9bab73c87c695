/**
 How a probe reports a host's namespace networks, one line each, and how the report is read back
 (`coolify-cli/src/wireguard/reconstruct.rs`).
 */
module NamespaceProbe {
  import opened Ipv4
  import opened Text
  import opened Mesh
  import opened WgConfig

  type Networks = map<string, NetworkState>

  const NO_NETWORK := NetworkState(false, None, false, "")

  // ----- the report -----

  function NetworkName(ns: string): string { "coolify-" + ns + "-mesh" }

  function ShowSubnet(n: Option<Net>): string { match n case None => "" case Some(net) => ShowNet(net) }

  function Fields(nets: Networks, ns: string): seq<string> {
    if ns in nets && nets[ns].present then
      [ns, NetworkName(ns), ShowSubnet(nets[ns].subnet), if nets[ns].dnsEnabled then "true" else "false", nets[ns].name]
    else [ns, "missing", "", "", ""]
  }

  function NetworkLine(nets: Networks, ns: string): string { "NS=" + Join(Fields(nets, ns), "|") }

  function NetworkLines(nets: Networks, nss: seq<string>): (r: seq<string>)
    ensures |r| == |nss|
  {
    seq(|nss|, i requires 0 <= i < |nss| => NetworkLine(nets, nss[i]))
  }

  // ----- reading it -----

  /** An address, a slash, and a prefix length of one or two digits. */
  function ParseNet(s: string): Option<Net> {
    match SplitOnce(s, '/')
    case None => None
    case Some((a, p)) =>
      match ParseIp(a)
      case None => None
      case Some(ip) =>
        if p == [] || |p| > 2 || !AllDigits(p) || Value(p) > 32 then None else Some(Net(ip, Value(p)))
  }

  function ReadLine(m: Networks, line: string): Networks {
    if !("NS=" <= line) then m
    else
      var p := Split(line[3..], '|');
      if |p| < 5 then m
      else m[p[0] := NetworkState(p[1] != "missing", ParseNet(p[2]), Trim(p[3]) == "true", Trim(p[4]))]
  }

  function ReadLines(lines: seq<string>): Networks {
    if lines == [] then map[] else ReadLine(ReadLines(lines[..|lines| - 1]), lines[|lines| - 1])
  }

  function Default(m: Networks, ns: string): Networks { if ns in m then m else m[ns := NO_NETWORK] }

  function Defaults(m: Networks, nss: seq<string>): Networks {
    if nss == [] then m else Default(Defaults(m, nss[..|nss| - 1]), nss[|nss| - 1])
  }

  function ParseNamespaces(text: string, nss: seq<string>): Networks { Defaults(ReadLines(Lines(text)), nss) }

  method ReadNamespaces(text: string, nss: seq<string>) returns (m: Networks)
    ensures m == ParseNamespaces(text, nss)
  {
    hide Lines, Split, ParseNet, Trim;
    var lines := Lines(text);
    m := map[];
    for i := 0 to |lines|
      invariant m == ReadLines(lines[..i])
    {
      assert lines[..i + 1][..i] == lines[..i];
      if "NS=" <= lines[i] {
        var p := Split(lines[i][3..], '|');
        if |p| >= 5 {
          m := m[p[0] := NetworkState(p[1] != "missing", ParseNet(p[2]), Trim(p[3]) == "true", Trim(p[4]))];
        }
      }
    }
    assert lines[..|lines|] == lines;
    ghost var seen := m;
    for i := 0 to |nss|
      invariant m == Defaults(seen, nss[..i])
    {
      assert nss[..i + 1][..i] == nss[..i];
      if nss[i] !in m {
        m := m[nss[i] := NO_NETWORK];
      }
    }
    assert nss[..|nss|] == nss;
  }

  // ----- the round trip -----

  predicate CleanField(s: string) { '|' !in s && '\n' !in s }

  predicate CleanNetwork(nets: Networks, ns: string) {
    CleanField(ns) && (ns in nets ==> CleanField(nets[ns].name) && Trimmed(nets[ns].name))
  }

  /** What is known of a network that is there; and that one is not there. */
  function Reported(nets: Networks, ns: string): NetworkState {
    if ns in nets && nets[ns].present then nets[ns] else NO_NETWORK
  }

  lemma NetRoundTrip(net: Net)
    ensures ParseNet(ShowNet(net)) == Some(net)
  {
    hide ParseIp, ShowIp, Show, IndexOf;
    IpIsNumeric(net.addr);
    IpRoundTrip(net.addr);
    ValueShow(net.prefix);
    ShortPrefix(net.prefix);
    SplitOnceAt(ShowIp(net.addr), '/', Show(net.prefix));
    assert ShowNet(net) == ShowIp(net.addr) + ['/'] + Show(net.prefix);
  }

  lemma ShortPrefix(p: PrefixLen)
    ensures |Show(p)| <= 2
  {
    if p >= 10 { assert Show(p) == Show(p / 10) + [DigitChar(p % 10)]; }
  }

  lemma SubnetRoundTrip(n: Option<Net>)
    ensures ParseNet(ShowSubnet(n)) == n && CleanField(ShowSubnet(n))
  {
    hide ParseIp, ShowIp, Show;
    match n
    case None => assert SplitOnce("", '/') == None;
    case Some(net) =>
      NetRoundTrip(net);
      NetIsNumeric(net);
      NumericIsClean(ShowNet(net));
  }

  lemma NoSubnet()
    ensures ParseNet("") == None
  {
    assert SplitOnce("", '/') == None;
  }

  lemma FieldsAreClean(nets: Networks, ns: string)
    requires CleanNetwork(nets, ns)
    ensures |Fields(nets, ns)| == 5
    ensures forall i :: 0 <= i < 5 ==> CleanField(Fields(nets, ns)[i])
  {
    hide ShowSubnet;
    if ns in nets { SubnetRoundTrip(nets[ns].subnet); }
    assert CleanField(NetworkName(ns));
  }

  lemma NotMissing(ns: string)
    ensures NetworkName(ns) != "missing"
  {
    assert NetworkName(ns)[0] == 'c';
  }

  lemma LineRoundTrip(m: Networks, nets: Networks, ns: string)
    requires CleanNetwork(nets, ns)
    ensures ReadLine(m, NetworkLine(nets, ns)) == m[ns := Reported(nets, ns)]
  {
    hide Split, ParseNet, ShowSubnet, NetworkName, Join;
    var f := Fields(nets, ns);
    FieldsAreClean(nets, ns);
    SplitJoin(f, '|');
    assert NetworkLine(nets, ns)[3..] == Join(f, "|");
    NoSubnet();
    TrimmedStays("");
    TrimmedStays("true");
    TrimmedStays("false");
    NotMissing(ns);
    if ns in nets {
      SubnetRoundTrip(nets[ns].subnet);
      TrimmedStays(nets[ns].name);
    }
  }

  lemma {:induction false} OthersAreSkipped(lines: seq<string>)
    requires forall i :: 0 <= i < |lines| ==> !("NS=" <= lines[i])
    ensures ReadLines(lines) == map[]
  {
    if lines != [] { OthersAreSkipped(lines[..|lines| - 1]); }
  }

  lemma {:induction false} LinesRead(others: seq<string>, nets: Networks, nss: seq<string>)
    requires forall i :: 0 <= i < |others| ==> !("NS=" <= others[i])
    requires forall ns :: ns in nss ==> CleanNetwork(nets, ns)
    ensures ReadLines(others + NetworkLines(nets, nss)) == map ns | ns in nss :: Reported(nets, ns)
  {
    hide ReadLine, NetworkLine, CleanNetwork, Reported;
    var all := others + NetworkLines(nets, nss);
    if nss == [] {
      assert all == others;
      OthersAreSkipped(others);
    } else {
      var front, last := nss[..|nss| - 1], nss[|nss| - 1];
      assert nss == front + [last];
      LinesRead(others, nets, front);
      assert all[..|all| - 1] == others + NetworkLines(nets, front);
      LineRoundTrip(ReadLines(others + NetworkLines(nets, front)), nets, last);
    }
  }

  lemma {:induction false} NoDefaultNeeded(m: Networks, nss: seq<string>)
    requires forall ns :: ns in nss ==> ns in m
    ensures Defaults(m, nss) == m
  {
    if nss != [] {
      assert nss[|nss| - 1] in nss;
      NoDefaultNeeded(m, nss[..|nss| - 1]);
    }
  }

  lemma {:induction false} JoinIsLine(parts: seq<string>)
    requires parts != [] && forall i :: 0 <= i < |parts| ==> CleanField(parts[i])
    ensures '\n' !in Join(parts, "|")
  {
    if |parts| > 1 { JoinIsLine(parts[1..]); }
  }

  lemma {:induction false} JoinLast(parts: seq<string>)
    requires parts != [] && (parts[|parts| - 1] == [] || parts[|parts| - 1][|parts[|parts| - 1]| - 1] != '\r')
    requires |parts| > 1 || parts[0] != []
    ensures var j := Join(parts, "|"); j != [] && j[|j| - 1] != '\r'
  {
    if |parts| > 2 || (|parts| == 2 && parts[1] != []) {
      JoinLast(parts[1..]);
    } else if |parts| == 2 {
      assert Join(parts, "|") == parts[0] + "|" + [];
    }
  }

  lemma NetworkLineIsLine(nets: Networks, ns: string)
    requires CleanNetwork(nets, ns)
    ensures IsLine(NetworkLine(nets, ns))
  {
    hide Join, ShowSubnet;
    var f := Fields(nets, ns);
    FieldsAreClean(nets, ns);
    JoinIsLine(f);
    JoinLast(f);
  }

  /** Whatever else the probe prints, reading its report gives, for every namespace asked about, its
      network if it is there and an absent one if it is not, and no other namespace. */
  lemma NamespacesRoundTrip(others: seq<string>, nets: Networks, nss: seq<string>)
    requires forall i :: 0 <= i < |others| ==> IsLine(others[i]) && !("NS=" <= others[i])
    requires forall ns :: ns in nss ==> CleanNetwork(nets, ns)
    ensures ParseNamespaces(Unlines(others + NetworkLines(nets, nss)), nss) == map ns | ns in nss :: Reported(nets, ns)
  {
    hide NetworkLine, CleanNetwork, Reported, ReadLines, Lines, Unlines;
    var all := others + NetworkLines(nets, nss);
    forall i | 0 <= i < |all| ensures IsLine(all[i]) {
      if i >= |others| {
        assert all[i] == NetworkLine(nets, nss[i - |others|]);
        NetworkLineIsLine(nets, nss[i - |others|]);
      }
    }
    LinesUnlines(all);
    LinesRead(others, nets, nss);
    NoDefaultNeeded(map ns | ns in nss :: Reported(nets, ns), nss);
  }
}
