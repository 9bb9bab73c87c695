/**
 The WireGuard configuration file: how it is written (`coolify-cli/src/wireguard/config.rs`) and
 how a probe reads it back (`coolify-cli/src/wireguard/reconstruct.rs`).
 */
module WgConfig {
  import opened Ipv4
  import opened Text

  type U16 = n: int | 0 <= n <= 0xFFFF

  // ----- addresses as text -----

  /** The four octets of an address, the highest first. */
  function Octets(ip: U32): (o: (nat, nat, nat, nat))
    ensures o.0 <= 255 && o.1 <= 255 && o.2 <= 255 && o.3 <= 255
    ensures ((o.0 * 0x100 + o.1) * 0x100 + o.2) * 0x100 + o.3 == ip
  {
    var high := ip / 0x100;
    var higher := high / 0x100;
    (higher / 0x100, higher % 0x100, high % 0x100, ip % 0x100)
  }

  function ShowIp(ip: U32): string {
    var (a, b, c, d) := Octets(ip);
    Join([Show(a), Show(b), Show(c), Show(d)], ".")
  }

  function ShowNet(net: Net): string { ShowIp(net.addr) + "/" + Show(net.prefix) }

  /** One to three digits, no leading zero, at most 255. */
  function ParseOctet(s: string): (r: Option<nat>)
    ensures r.Some? ==> r.value <= 255
  {
    if s == [] || |s| > 3 || !AllDigits(s) || (|s| > 1 && s[0] == '0') || Value(s) > 255 then None
    else Some(Value(s))
  }

  function ParseIp(s: string): Option<U32> {
    var parts := Split(s, '.');
    if |parts| != 4 then None
    else
      match (ParseOctet(parts[0]), ParseOctet(parts[1]), ParseOctet(parts[2]), ParseOctet(parts[3]))
      case (Some(a), Some(b), Some(c), Some(d)) => Some(((a * 0x100 + b) * 0x100 + c) * 0x100 + d)
      case _ => None
  }

  lemma OctetRoundTrip(o: nat)
    requires o <= 255
    ensures ParseOctet(Show(o)) == Some(o)
  {
    ValueShow(o);
    assert |Show(o)| <= 3 by {
      if o >= 10 {
        assert Show(o) == Show(o / 10) + [DigitChar(o % 10)];
        if o / 10 >= 10 {
          assert Show(o / 10) == Show(o / 10 / 10) + [DigitChar(o / 10 % 10)];
        }
      }
    }
  }

  lemma ParseParts(s: string, a: nat, b: nat, c: nat, d: nat)
    requires a <= 255 && b <= 255 && c <= 255 && d <= 255
    requires |Split(s, '.')| == 4
    requires var p := Split(s, '.');
             && ParseOctet(p[0]) == Some(a) && ParseOctet(p[1]) == Some(b)
             && ParseOctet(p[2]) == Some(c) && ParseOctet(p[3]) == Some(d)
    ensures ParseIp(s) == Some(((a * 0x100 + b) * 0x100 + c) * 0x100 + d)
  {
    hide Split, ParseOctet;
  }

  /** Every character of a text is a separator or in one of its pieces. */
  lemma {:induction false} SplitHas(s: string, c: char, x: char)
    requires x in s && x != c
    ensures exists i :: 0 <= i < |Split(s, c)| && x in Split(s, c)[i]
    decreases |s|
  {
    var i := IndexOf(s, c);
    var p := Split(s, c);
    if i == |s| {
      assert x in p[0];
    } else {
      assert s == s[..i] + [c] + s[i + 1..];
      if x in s[..i] {
        assert x in p[0];
      } else {
        SplitHas(s[i + 1..], c, x);
        var rest := Split(s[i + 1..], c);
        var j :| 0 <= j < |rest| && x in rest[j];
        assert p[j + 1] == rest[j];
      }
    }
  }

  /** An address is written with digits and dots only. */
  lemma AddressHasNoSlash(s: string)
    requires '/' in s
    ensures ParseIp(s) == None
  {
    SplitHas(s, '.', '/');
    var parts := Split(s, '.');
    var i :| 0 <= i < |parts| && '/' in parts[i];
    assert ParseOctet(parts[i]) == None by {
      if AllDigits(parts[i]) { DigitsAreClean(parts[i]); }
    }
    hide Split, ParseOctet;
    assert |parts| == 4 ==> i == 0 || i == 1 || i == 2 || i == 3;
  }

  lemma IpRoundTrip(ip: U32)
    ensures ParseIp(ShowIp(ip)) == Some(ip)
  {
    hide ParseIp, Join, Split, Show, ParseOctet, Octets;
    var (a, b, c, d) := Octets(ip);
    var parts := [Show(a), Show(b), Show(c), Show(d)];
    forall i | 0 <= i < |parts| ensures '.' !in parts[i] {
      DigitsAreClean(parts[i]);
    }
    SplitJoin(parts, '.');
    OctetRoundTrip(a);
    OctetRoundTrip(b);
    OctetRoundTrip(c);
    OctetRoundTrip(d);
    ParseParts(ShowIp(ip), a, b, c, d);
  }

  /** Only digits, dots and slashes, with a digit at both ends. */
  predicate Numeric(s: string) {
    && s != [] && IsDigit(s[0]) && IsDigit(s[|s| - 1])
    && forall i :: 0 <= i < |s| ==> IsDigit(s[i]) || s[i] == '.' || s[i] == '/'
  }

  lemma NumericIsClean(s: string)
    requires Numeric(s)
    ensures Trimmed(s) && IsLine(s) && ',' !in s && '=' !in s && '|' !in s
  {
  }

  lemma IpIsNumeric(ip: U32)
    ensures Numeric(ShowIp(ip)) && '/' !in ShowIp(ip)
  {
    hide Join, Show, Octets;
    var o := Octets(ip);
    var a, b, c, d := Show(o.0), Show(o.1), Show(o.2), Show(o.3);
    JoinFour(a, b, c, d);
    var s := a + "." + b + "." + c + "." + d;
    assert s[0] == a[0] && s[|s| - 1] == d[|d| - 1];
    forall i | 0 <= i < |s| ensures IsDigit(s[i]) || s[i] == '.' {
    }
  }

  lemma JoinFour(a: string, b: string, c: string, d: string)
    ensures Join([a, b, c, d], ".") == a + "." + b + "." + c + "." + d
  {
    assert Join([c, d], ".") == c + "." + d;
    assert Join([b, c, d], ".") == b + "." + (c + "." + d);
  }

  lemma NetIsNumeric(net: Net)
    ensures Numeric(ShowNet(net))
  {
    IpIsNumeric(net.addr);
    var ip, p, s := ShowIp(net.addr), Show(net.prefix), ShowNet(net);
    assert s[0] == ip[0] && s[|s| - 1] == p[|p| - 1];
    forall i | 0 <= i < |s| ensures IsDigit(s[i]) || s[i] == '.' || s[i] == '/' {
      if i < |ip| {
        assert s[i] == ip[i];
      } else if i > |ip| {
        assert s[i] == p[i - |ip| - 1];
      }
    }
  }

  // ----- writing -----

  datatype PeerConfig = PeerConfig(endpoint: string, publicKey: string, mgmtIp: U32, containerSubnets: seq<Net>)

  function ShowNets(nets: seq<Net>): (r: seq<string>)
    ensures |r| == |nets|
  {
    seq(|nets|, i requires 0 <= i < |nets| => ShowNet(nets[i]))
  }

  function AllowedIps(p: PeerConfig): seq<string> {
    [ShowIp(p.mgmtIp) + "/32"] + ShowNets(p.containerSubnets)
  }

  /** The part after the last ':', when there is one. */
  function AfterLastColon(s: string): Option<string> {
    if s == [] then None
    else if s[|s| - 1] == ':' then Some("")
    else
      match AfterLastColon(s[..|s| - 1])
      case None => None
      case Some(port) => Some(port + [s[|s| - 1]])
  }

  function EndpointAddr(endpoint: string, listenPort: U16): string {
    var port := AfterLastColon(endpoint);
    if port.Some? && ParseUnsigned(port.value, 0xFFFF).Some? then endpoint
    else endpoint + ":" + Show(listenPort)
  }

  /** The text ends in a colon and the decimal form of a 16-bit number. */
  ghost predicate HasPort(s: string) {
    exists host: string, t: string, n: nat :: s == host + ":" + t && Numeral(t, n) && n <= 0xFFFF
  }

  lemma {:induction false} AfterLastColonIs(s: string)
    ensures AfterLastColon(s).None? ==> ':' !in s
    ensures AfterLastColon(s).Some? ==>
              var t := AfterLastColon(s).value; ':' !in t && |t| < |s| && s == s[..|s| - |t| - 1] + ":" + t
  {
    if s != [] && s[|s| - 1] != ':' {
      var front, last := s[..|s| - 1], s[|s| - 1];
      AfterLastColonIs(front);
      assert s == front + [last];
    }
  }

  lemma ColonOnce(host: string, t: string, host': string, t': string)
    requires host + ":" + t == host' + ":" + t' && ':' !in t && ':' !in t'
    ensures t == t'
  {
    var s, s' := host + ":" + t, host' + ":" + t';
    assert s[|host|] == ':' && s'[|host'|] == ':';
    assert forall j :: |host| < j < |s| ==> s[j] == t[j - |host| - 1];
    assert forall j :: |host'| < j < |s'| ==> s'[j] == t'[j - |host'| - 1];
    assert |host| == |host'|;
    assert t == s[|host| + 1..] && t' == s'[|host'| + 1..];
  }

  lemma HasPortIff(s: string)
    ensures HasPort(s) <==> AfterLastColon(s).Some? && ParseUnsigned(AfterLastColon(s).value, 0xFFFF).Some?
  {
    hide AfterLastColon, ParseUnsigned, Numeral;
    AfterLastColonIs(s);
    var after := AfterLastColon(s);
    if HasPort(s) {
      var host, t, n :| s == host + ":" + t && Numeral(t, n) && n <= 0xFFFF;
      NumeralIsPlain(t, n);
      assert s[|host|] == ':';
      ColonOnce(host, t, s[..|s| - |after.value| - 1], after.value);
      ParseUnsignedIff(t, 0xFFFF, n);
    }
    if after.Some? && ParseUnsigned(after.value, 0xFFFF).Some? {
      ParseUnsignedIff(after.value, 0xFFFF, ParseUnsigned(after.value, 0xFFFF).value);
      assert s == s[..|s| - |after.value| - 1] + ":" + after.value;
    }
  }

  /** The written endpoint has a port; it is the given text if and only if that had one, and else the
      given text with the listen port. */
  lemma EndpointHasPort(endpoint: string, listenPort: U16)
    ensures var e := EndpointAddr(endpoint, listenPort);
            && HasPort(e) && (e == endpoint <==> HasPort(endpoint))
            && (!HasPort(endpoint) ==> e == endpoint + ":" + Show(listenPort))
  {
    hide AfterLastColon, ParseUnsigned, Numeral, Show;
    HasPortIff(endpoint);
    ShowIsNumeral(listenPort);
    assert HasPort(endpoint + ":" + Show(listenPort));
  }

  function PeerLines(p: PeerConfig, listenPort: U16): seq<string> {
    ["", "[Peer]", "# " + p.endpoint, "PublicKey = " + p.publicKey,
     "AllowedIPs = " + Join(AllowedIps(p), ", "),
     "Endpoint = " + EndpointAddr(p.endpoint, listenPort), "PersistentKeepalive = 25"]
  }

  function AllPeerLines(peers: seq<PeerConfig>, listenPort: U16): seq<string> {
    if peers == [] then []
    else AllPeerLines(peers[..|peers| - 1], listenPort) + PeerLines(peers[|peers| - 1], listenPort)
  }

  function InterfaceLines(mgmtIp: U32, listenPort: U16, privateKey: string): seq<string> {
    ["[Interface]", "Address = " + ShowIp(mgmtIp) + "/32", "ListenPort = " + Show(listenPort),
     "PrivateKey = " + privateKey]
  }

  /** The file the remote command leaves behind. */
  function RenderConfig(mgmtIp: U32, listenPort: U16, privateKey: string, peers: seq<PeerConfig>): string {
    Unlines(InterfaceLines(mgmtIp, listenPort, privateKey) + AllPeerLines(peers, listenPort))
  }

  method WriteConfig(mgmtIp: U32, listenPort: U16, privateKey: string, peers: seq<PeerConfig>) returns (s: string)
    ensures s == RenderConfig(mgmtIp, listenPort, privateKey, peers)
  {
    hide Unlines, InterfaceLines, PeerLines, AllPeerLines;
    var head := InterfaceLines(mgmtIp, listenPort, privateKey);
    s := Unlines(head);
    NoPeerLines(head, listenPort);
    assert peers[..0] == [];
    for i := 0 to |peers|
      invariant s == Unlines(head + AllPeerLines(peers[..i], listenPort))
    {
      OnePeerMore(head, peers[..i + 1], listenPort);
      assert peers[..i + 1][..i] == peers[..i];
      s := s + Unlines(PeerLines(peers[i], listenPort));
    }
    assert peers[..|peers|] == peers;
  }

  lemma NoPeerLines(head: seq<string>, listenPort: U16)
    ensures head + AllPeerLines([], listenPort) == head
  {
  }

  lemma OnePeerMore(head: seq<string>, peers: seq<PeerConfig>, listenPort: U16)
    requires peers != []
    ensures Unlines(head + AllPeerLines(peers, listenPort)) ==
            Unlines(head + AllPeerLines(peers[..|peers| - 1], listenPort)) + Unlines(PeerLines(peers[|peers| - 1], listenPort))
  {
    hide Unlines, PeerLines;
    var lines, last := AllPeerLines(peers[..|peers| - 1], listenPort), PeerLines(peers[|peers| - 1], listenPort);
    assert head + AllPeerLines(peers, listenPort) == (head + lines) + last;
    UnlinesAppend(head + lines, last);
  }

  lemma {:induction false} UnlinesAppend(a: seq<string>, b: seq<string>)
    ensures Unlines(a + b) == Unlines(a) + Unlines(b)
  {
    if a == [] {
      assert a + b == b;
    } else {
      assert (a + b)[1..] == a[1..] + b;
      UnlinesAppend(a[1..], b);
    }
  }

  // ----- reading -----

  datatype Peer = Peer(publicKey: string, endpoint: string, allowedIps: seq<string>, keepalive: nat)

  const NO_PEER := Peer("", "", [], 0)

  /** What the parser has seen: the open peer is not yet in the list. */
  datatype Parsed = Parsed(ip: Option<U32>, listenPort: nat, peers: seq<Peer>, cur: Option<Peer>)

  const NOTHING := Parsed(None, 0, [], None)

  function Close(st: Parsed): seq<Peer> {
    match st.cur case None => st.peers case Some(p) => st.peers + [p]
  }

  function NumberOrZero(s: string): nat {
    match ParseUnsigned(s, 0xFFFF) case None => 0 case Some(n) => n
  }

  function Assign(st: Parsed, k: string, v: string): Parsed {
    match st.cur
    case None =>
      if k == "Address" then
        (match ParseIp(Split(v, '/')[0]) case None => st case Some(ip) => st.(ip := Some(ip)))
      else if k == "ListenPort" then st.(listenPort := NumberOrZero(v))
      else st
    case Some(p) =>
      if k == "PublicKey" then st.(cur := Some(p.(publicKey := v)))
      else if k == "Endpoint" then st.(cur := Some(p.(endpoint := v)))
      else if k == "AllowedIPs" then st.(cur := Some(p.(allowedIps := TrimAll(Split(v, ',')))))
      else if k == "PersistentKeepalive" then st.(cur := Some(p.(keepalive := NumberOrZero(v))))
      else st
  }

  function ParseLine(st: Parsed, raw: string): Parsed {
    var line := Trim(raw);
    if line == "[Peer]" then st.(peers := Close(st), cur := Some(NO_PEER))
    else
      match SplitOnce(line, '=')
      case None => st
      case Some((k, v)) => Assign(st, Trim(k), Trim(v))
  }

  function ParseLines(st: Parsed, lines: seq<string>): Parsed {
    if lines == [] then st else ParseLine(ParseLines(st, lines[..|lines| - 1]), lines[|lines| - 1])
  }

  function ParseConfig(cfg: string): Parsed {
    var st := ParseLines(NOTHING, Lines(cfg));
    st.(peers := Close(st), cur := None)
  }

  method ReadConfig(cfg: string) returns (st: Parsed)
    ensures st == ParseConfig(cfg)
  {
    var lines := Lines(cfg);
    st := NOTHING;
    for i := 0 to |lines|
      invariant st == ParseLines(NOTHING, lines[..i])
    {
      assert lines[..i + 1][..i] == lines[..i];
      st := ParseLine(st, lines[i]);
    }
    assert lines[..|lines|] == lines;
    st := st.(peers := Close(st), cur := None);
  }

  // ----- the round trip -----

  lemma KeyValueLine(st: Parsed, k: string, v: string)
    requires k != [] && Trimmed(k) && '=' !in k && k[0] != '[' && Trimmed(v)
    ensures ParseLine(st, k + " = " + v) == Assign(st, k, v)
  {
    hide Assign, SplitOnce, TrimStart, TrimEnd;
    var key, rest := k + [' '], if v == [] then [] else [' '] + v;
    KeyValueTrim(k, v);
    SplitOnceAt(key, '=', rest);
    TrimPadded(k);
    TrimPadded(v);
    TrimmedStays(v);
    assert (key + ['='] + rest)[0] == k[0];
  }

  lemma KeyValueTrim(k: string, v: string)
    requires k != [] && Trimmed(k) && Trimmed(v)
    ensures Trim(k + " = " + v) == (k + [' ']) + ['='] + (if v == [] then [] else [' '] + v)
  {
    var raw, line := k + " = " + v, (k + [' ']) + ['='] + (if v == [] then [] else [' '] + v);
    assert line[0] == k[0];
    TrimmedStays(line);
    if v == [] {
      assert raw == line + [' '];
      TrimEndSpace(line, ' ');
    } else {
      assert raw == line;
      assert line[|line| - 1] == v[|v| - 1];
    }
  }

  /** A comment line is skipped whatever it says, even with an '=' in it. */
  lemma CommentLine(st: Parsed, text: string)
    ensures ParseLine(st, "# " + text) == st
  {
    var raw := "# " + text;
    TrimEndKeepsHead(raw);
    var line := TrimEnd(raw);
    assert Trim(raw) == line && line[0] == '#';
    var i := IndexOf(line, '=');
    if i < |line| {
      var k := line[..i];
      assert k[0] == '#';
      TrimEndKeepsHead(k);
      UnknownKey(st, Trim(k), Trim(line[i + 1..]));
    }
  }

  lemma UnknownKey(st: Parsed, k: string, v: string)
    requires k != [] && k[0] == '#'
    ensures Assign(st, k, v) == st
  {
  }

  lemma PlainLine(st: Parsed)
    ensures ParseLine(st, "") == st
    ensures ParseLine(st, "[Interface]") == st
    ensures ParseLine(st, "[Peer]") == st.(peers := Close(st), cur := Some(NO_PEER))
  {
    TrimmedStays("");
    TrimmedStays("[Interface]");
    TrimmedStays("[Peer]");
    assert '=' !in "[Interface]";
  }

  lemma {:induction false} ParseAppend(st: Parsed, a: seq<string>, b: seq<string>)
    ensures ParseLines(st, a + b) == ParseLines(ParseLines(st, a), b)
  {
    if b == [] {
      assert a + b == a;
    } else {
      assert (a + b)[..|a + b| - 1] == a + b[..|b| - 1];
      ParseAppend(st, a, b[..|b| - 1]);
    }
  }

  predicate CleanPeer(p: PeerConfig) {
    Trimmed(p.endpoint) && '\n' !in p.endpoint && Trimmed(p.publicKey) && '\n' !in p.publicKey
  }

  function PeerOf(p: PeerConfig, listenPort: U16): Peer {
    Peer(p.publicKey, EndpointAddr(p.endpoint, listenPort), AllowedIps(p), 25)
  }

  function PeersOf(peers: seq<PeerConfig>, listenPort: U16): (r: seq<Peer>)
    ensures |r| == |peers|
  {
    seq(|peers|, i requires 0 <= i < |peers| => PeerOf(peers[i], listenPort))
  }

  lemma {:induction false} JoinTrimmed(parts: seq<string>)
    requires parts != [] && forall i :: 0 <= i < |parts| ==> Numeric(parts[i])
    ensures var s := Join(parts, ", ");
            s != [] && IsDigit(s[0]) && IsDigit(s[|s| - 1]) && '\n' !in s
  {
    if |parts| == 1 {
      NumericIsClean(parts[0]);
    } else {
      JoinTrimmed(parts[1..]);
      NumericIsClean(parts[0]);
      var s, rest := Join(parts, ", "), Join(parts[1..], ", ");
      assert s == parts[0] + ", " + rest;
      assert s[0] == parts[0][0] && s[|s| - 1] == rest[|rest| - 1];
    }
  }

  lemma AllowedIpsClean(p: PeerConfig)
    ensures forall i :: 0 <= i < |AllowedIps(p)| ==> Numeric(AllowedIps(p)[i])
  {
    hide ShowIp, ShowNet;
    IpIsNumeric(p.mgmtIp);
    var ips := AllowedIps(p);
    forall i | 0 <= i < |ips| ensures Numeric(ips[i]) {
      if i == 0 {
        var ip := ShowIp(p.mgmtIp);
        assert ips[0] == ip + "/32" && ips[0][0] == ip[0];
      } else {
        NetIsNumeric(p.containerSubnets[i - 1]);
      }
    }
  }

  lemma AllowedIpsRoundTrip(p: PeerConfig)
    ensures TrimAll(Split(Join(AllowedIps(p), ", "), ',')) == AllowedIps(p)
    ensures Trimmed(Join(AllowedIps(p), ", ")) && '\n' !in Join(AllowedIps(p), ", ")
  {
    AllowedIpsClean(p);
    JoinTrimmed(AllowedIps(p));
    forall i | 0 <= i < |AllowedIps(p)| ensures ',' !in AllowedIps(p)[i] && Trimmed(AllowedIps(p)[i]) {
      NumericIsClean(AllowedIps(p)[i]);
    }
    SplitCommaList(AllowedIps(p), "");
    assert "" + Join(AllowedIps(p), ", ") == Join(AllowedIps(p), ", ");
  }

  lemma EndpointClean(endpoint: string, listenPort: U16)
    requires Trimmed(endpoint) && '\n' !in endpoint
    ensures Trimmed(EndpointAddr(endpoint, listenPort)) && '\n' !in EndpointAddr(endpoint, listenPort)
  {
    var s, port := endpoint + ":" + Show(listenPort), Show(listenPort);
    DigitsAreClean(port);
    assert s[|s| - 1] == port[|port| - 1];
    if endpoint != [] {
      assert s[0] == endpoint[0];
    }
  }

  lemma Snoc(st: Parsed, lines: seq<string>, l: string)
    ensures ParseLines(st, lines + [l]) == ParseLine(ParseLines(st, lines), l)
  {
    hide ParseLine;
    assert (lines + [l])[..|lines|] == lines;
  }

  lemma ParseFour(st: Parsed, a: string, b: string, c: string, d: string)
    ensures ParseLines(st, [a, b, c, d]) == ParseLine(ParseLine(ParseLine(ParseLine(st, a), b), c), d)
  {
    hide ParseLine;
    Snoc(st, [], a);
    Snoc(st, [a], b);
    Snoc(st, [a, b], c);
    Snoc(st, [a, b, c], d);
    assert [] + [a] == [a] && [a] + [b] == [a, b] && [a, b] + [c] == [a, b, c] && [a, b, c] + [d] == [a, b, c, d];
  }

  lemma PublicKeyLine(st: Parsed, v: string)
    requires st.cur.Some? && Trimmed(v)
    ensures ParseLine(st, "PublicKey = " + v) == st.(cur := Some(st.cur.value.(publicKey := v)))
  {
    hide ParseLine;
    KeyValueLine(st, "PublicKey", v);
    assert "PublicKey" + " = " == "PublicKey = ";
  }

  lemma EndpointLine(st: Parsed, v: string)
    requires st.cur.Some? && Trimmed(v)
    ensures ParseLine(st, "Endpoint = " + v) == st.(cur := Some(st.cur.value.(endpoint := v)))
  {
    hide ParseLine;
    KeyValueLine(st, "Endpoint", v);
    assert "Endpoint" + " = " == "Endpoint = ";
  }

  lemma AllowedIpsLine(st: Parsed, v: string)
    requires st.cur.Some? && Trimmed(v)
    ensures ParseLine(st, "AllowedIPs = " + v) == st.(cur := Some(st.cur.value.(allowedIps := TrimAll(Split(v, ',')))))
  {
    hide ParseLine, TrimAll, Split;
    KeyValueLine(st, "AllowedIPs", v);
    assert "AllowedIPs" + " = " == "AllowedIPs = ";
  }

  lemma KeepaliveLine(st: Parsed, v: string)
    requires st.cur.Some? && Trimmed(v)
    ensures ParseLine(st, "PersistentKeepalive = " + v) == st.(cur := Some(st.cur.value.(keepalive := NumberOrZero(v))))
  {
    hide ParseLine, NumberOrZero;
    KeyValueLine(st, "PersistentKeepalive", v);
    assert "PersistentKeepalive" + " = " == "PersistentKeepalive = ";
  }

  lemma PeerBlock(st: Parsed, p: PeerConfig, listenPort: U16)
    requires CleanPeer(p)
    ensures ParseLines(st, PeerLines(p, listenPort)) ==
            st.(peers := Close(st), cur := Some(PeerOf(p, listenPort)))
  {
    hide ParseLine, ParseLines, Join, Split, TrimAll, EndpointAddr, AllowedIps, NumberOrZero;
    var l := PeerLines(p, listenPort);
    assert l == [l[0], l[1], l[2], l[3]] + [l[4], l[5], l[6]];
    ParseAppend(st, [l[0], l[1], l[2], l[3]], [l[4], l[5], l[6]]);
    PeerHead(st, p, listenPort);
    PeerTail(ParseLines(st, [l[0], l[1], l[2], l[3]]), p, listenPort);
  }

  lemma PeerHead(st: Parsed, p: PeerConfig, listenPort: U16)
    requires CleanPeer(p)
    ensures var l := PeerLines(p, listenPort);
            ParseLines(st, [l[0], l[1], l[2], l[3]]) ==
            st.(peers := Close(st), cur := Some(NO_PEER.(publicKey := p.publicKey)))
  {
    hide ParseLine, ParseLines, Join, Split, TrimAll, EndpointAddr, AllowedIps, NumberOrZero;
    var l := PeerLines(p, listenPort);
    ParseFour(st, l[0], l[1], l[2], l[3]);
    PlainLine(st);
    var open := st.(peers := Close(st), cur := Some(NO_PEER));
    CommentLine(open, p.endpoint);
    PublicKeyLine(open, p.publicKey);
  }

  lemma PeerTail(st: Parsed, p: PeerConfig, listenPort: U16)
    requires CleanPeer(p) && st.cur.Some?
    ensures var l := PeerLines(p, listenPort);
            ParseLines(st, [l[4], l[5], l[6]]) ==
            st.(cur := Some(st.cur.value.(allowedIps := AllowedIps(p), endpoint := EndpointAddr(p.endpoint, listenPort), keepalive := 25)))
  {
    hide ParseLine, Join, Split, TrimAll, EndpointAddr, AllowedIps, NumberOrZero;
    var l := PeerLines(p, listenPort);
    Snoc(st, [], l[4]);
    Snoc(st, [l[4]], l[5]);
    Snoc(st, [l[4], l[5]], l[6]);
    assert [] + [l[4]] == [l[4]] && [l[4]] + [l[5]] == [l[4], l[5]] && [l[4], l[5]] + [l[6]] == [l[4], l[5], l[6]];
    AllowedIpsRoundTrip(p);
    AllowedIpsLine(st, Join(AllowedIps(p), ", "));
    var s1 := st.(cur := Some(st.cur.value.(allowedIps := AllowedIps(p))));
    EndpointClean(p.endpoint, listenPort);
    EndpointLine(s1, EndpointAddr(p.endpoint, listenPort));
    var s2 := s1.(cur := Some(s1.cur.value.(endpoint := EndpointAddr(p.endpoint, listenPort))));
    Keepalive25(s2);
  }

  lemma Keepalive25(st: Parsed)
    requires st.cur.Some?
    ensures ParseLine(st, "PersistentKeepalive = 25") == st.(cur := Some(st.cur.value.(keepalive := 25)))
  {
    hide ParseLine;
    assert Show(2) == "2" && Show(25) == "25";
    ParseShow(25, 0xFFFF);
    KeepaliveLine(st, "25");
    assert "PersistentKeepalive = 25" == "PersistentKeepalive = " + "25";
  }

  lemma InterfaceBlock(mgmtIp: U32, listenPort: U16, privateKey: string)
    requires Trimmed(privateKey)
    ensures ParseLines(NOTHING, InterfaceLines(mgmtIp, listenPort, privateKey)) ==
            Parsed(Some(mgmtIp), listenPort, [], None)
  {
    hide ParseLine, ParseLines, ShowIp, Show, NumberOrZero;
    var l := InterfaceLines(mgmtIp, listenPort, privateKey);
    ParseFour(NOTHING, l[0], l[1], l[2], l[3]);
    assert l == [l[0], l[1], l[2], l[3]];
    PlainLine(NOTHING);
    AddressLine(NOTHING, mgmtIp);
    var s1 := NOTHING.(ip := Some(mgmtIp));
    DigitsAreClean(Show(listenPort));
    OpenLine(s1, Show(listenPort));
    PortText(listenPort);
    OpenLine(s1.(listenPort := listenPort), privateKey);
  }

  lemma PortText(listenPort: U16)
    ensures NumberOrZero(Show(listenPort)) == listenPort
  {
    ParseShow(listenPort, 0xFFFF);
  }

  lemma OpenLine(st: Parsed, v: string)
    requires st.cur.None? && Trimmed(v)
    ensures ParseLine(st, "ListenPort = " + v) == st.(listenPort := NumberOrZero(v))
    ensures ParseLine(st, "PrivateKey = " + v) == st
  {
    hide ParseLine, NumberOrZero;
    KeyValueLine(st, "ListenPort", v);
    KeyValueLine(st, "PrivateKey", v);
    assert "ListenPort" + " = " == "ListenPort = " && "PrivateKey" + " = " == "PrivateKey = ";
  }

  lemma AddressLine(st: Parsed, ip: U32)
    requires st.cur.None?
    ensures ParseLine(st, "Address = " + ShowIp(ip) + "/32") == st.(ip := Some(ip))
  {
    hide ParseLine, ShowIp, ParseIp, Split;
    var addr := ShowIp(ip) + "/32";
    IpIsNumeric(ip);
    assert addr[0] == ShowIp(ip)[0];
    SplitCons(ShowIp(ip), '/', "32");
    assert addr == ShowIp(ip) + ['/'] + "32";
    IpRoundTrip(ip);
    KeyValueLine(st, "Address", addr);
    assert "Address = " + ShowIp(ip) + "/32" == "Address" + " = " + addr;
  }

  lemma PeersOfSnoc(peers: seq<PeerConfig>, listenPort: U16)
    requires peers != []
    ensures PeersOf(peers, listenPort) ==
            PeersOf(peers[..|peers| - 1], listenPort) + [PeerOf(peers[|peers| - 1], listenPort)]
  {
    hide PeerOf;
  }

  lemma CloseMore(r: Parsed, before: seq<Peer>, read: seq<Peer>, p: Peer)
    requires Close(r) == before + read
    ensures Close(r.(peers := Close(r), cur := Some(p))) == before + (read + [p])
  {
  }

  lemma {:induction false} PeerBlocks(st: Parsed, peers: seq<PeerConfig>, listenPort: U16)
    requires st.cur.None?
    requires forall i :: 0 <= i < |peers| ==> CleanPeer(peers[i])
    ensures Close(ParseLines(st, AllPeerLines(peers, listenPort))) == st.peers + PeersOf(peers, listenPort)
    ensures ParseLines(st, AllPeerLines(peers, listenPort)).ip == st.ip
    ensures ParseLines(st, AllPeerLines(peers, listenPort)).listenPort == st.listenPort
  {
    if peers != [] {
      hide ParseLine, ParseLines, PeerLines, PeerOf, PeersOf, CleanPeer, Close;
      var front, p := peers[..|peers| - 1], peers[|peers| - 1];
      PeerBlocks(st, front, listenPort);
      ParseAppend(st, AllPeerLines(front, listenPort), PeerLines(p, listenPort));
      var r := ParseLines(st, AllPeerLines(front, listenPort));
      PeerBlock(r, p, listenPort);
      PeersOfSnoc(peers, listenPort);
      CloseMore(r, st.peers, PeersOf(front, listenPort), PeerOf(p, listenPort));
    }
  }

  lemma PeerLinesAreLines(p: PeerConfig, listenPort: U16)
    requires CleanPeer(p)
    ensures forall i :: 0 <= i < 7 ==> IsLine(PeerLines(p, listenPort)[i])
  {
    hide Join, EndpointAddr, AllowedIps, TrimAll, Split, IsLine, Trimmed;
    AllowedIpsRoundTrip(p);
    EndpointClean(p.endpoint, listenPort);
    FixedLines();
    FixedKeys();
    LabelledLine("# ", p.endpoint);
    LabelledLine("PublicKey = ", p.publicKey);
    LabelledLine("AllowedIPs = ", Join(AllowedIps(p), ", "));
    LabelledLine("Endpoint = ", EndpointAddr(p.endpoint, listenPort));
  }

  lemma FixedLines()
    ensures IsLine("") && IsLine("[Peer]") && IsLine("[Interface]") && IsLine("# ")
    ensures IsLine("PersistentKeepalive = 25") && IsLine("AllowedIPs = ") && IsLine("Address = ")
  {
  }

  lemma FixedKeys()
    ensures IsLine("Endpoint = ") && IsLine("PublicKey = ") && IsLine("ListenPort = ") && IsLine("PrivateKey = ")
  {
  }

  lemma LabelledLine(name: string, v: string)
    requires IsLine(name) && Trimmed(v) && '\n' !in v
    ensures IsLine(name + v)
  {
    if v != [] {
      assert (name + v)[|name + v| - 1] == v[|v| - 1];
    } else {
      assert name + v == name;
    }
  }

  lemma {:induction false} AllPeerLinesAreLines(peers: seq<PeerConfig>, listenPort: U16)
    requires forall i :: 0 <= i < |peers| ==> CleanPeer(peers[i])
    ensures forall i :: 0 <= i < |AllPeerLines(peers, listenPort)| ==> IsLine(AllPeerLines(peers, listenPort)[i])
  {
    if peers != [] {
      AllPeerLinesAreLines(peers[..|peers| - 1], listenPort);
      PeerLinesAreLines(peers[|peers| - 1], listenPort);
    }
  }

  lemma InterfaceLinesAreLines(mgmtIp: U32, listenPort: U16, privateKey: string)
    requires Trimmed(privateKey) && '\n' !in privateKey
    ensures forall i :: 0 <= i < 4 ==> IsLine(InterfaceLines(mgmtIp, listenPort, privateKey)[i])
  {
    hide ShowIp, Show, IsLine, Trimmed;
    var addr := ShowIp(mgmtIp) + "/32";
    AddressText(mgmtIp);
    FixedLines();
    FixedKeys();
    LabelledLine("Address = ", addr);
    assert "Address = " + addr == "Address = " + ShowIp(mgmtIp) + "/32";
    DigitsAreClean(Show(listenPort));
    LabelledLine("ListenPort = ", Show(listenPort));
    LabelledLine("PrivateKey = ", privateKey);
  }

  lemma AddressText(ip: U32)
    ensures Trimmed(ShowIp(ip) + "/32") && '\n' !in ShowIp(ip) + "/32"
  {
    hide ShowIp;
    IpIsNumeric(ip);
    NumericIsClean(ShowIp(ip));
    assert (ShowIp(ip) + "/32")[0] == ShowIp(ip)[0];
  }

  /** Reading back a written file gives the address, the port and every peer: its key even when it
      ends in '=', its endpoint with port, its allowed addresses and the keepalive. */
  lemma ConfigRoundTrip(mgmtIp: U32, listenPort: U16, privateKey: string, peers: seq<PeerConfig>)
    requires Trimmed(privateKey) && '\n' !in privateKey
    requires forall i :: 0 <= i < |peers| ==> CleanPeer(peers[i])
    ensures ParseConfig(RenderConfig(mgmtIp, listenPort, privateKey, peers)) ==
            Parsed(Some(mgmtIp), listenPort, PeersOf(peers, listenPort), None)
  {
    var head, tail := InterfaceLines(mgmtIp, listenPort, privateKey), AllPeerLines(peers, listenPort);
    InterfaceLinesAreLines(mgmtIp, listenPort, privateKey);
    AllPeerLinesAreLines(peers, listenPort);
    LinesUnlines(head + tail);
    ParseAppend(NOTHING, head, tail);
    InterfaceBlock(mgmtIp, listenPort, privateKey);
    PeerBlocks(Parsed(Some(mgmtIp), listenPort, [], None), peers, listenPort);
  }

  /** What a reader finds in a written file about each peer, in plain terms. */
  lemma WrittenPeer(mgmtIp: U32, listenPort: U16, privateKey: string, peers: seq<PeerConfig>, i: nat)
    requires Trimmed(privateKey) && '\n' !in privateKey && i < |peers|
    requires forall j :: 0 <= j < |peers| ==> CleanPeer(peers[j])
    ensures var file, p := ParseConfig(RenderConfig(mgmtIp, listenPort, privateKey, peers)), peers[i];
            && file.ip == Some(mgmtIp) && file.listenPort == listenPort && |file.peers| == |peers|
            && file.peers[i].publicKey == p.publicKey && file.peers[i].keepalive == 25
            && HasPort(file.peers[i].endpoint) && (file.peers[i].endpoint == p.endpoint <==> HasPort(p.endpoint))
            && (!HasPort(p.endpoint) ==> file.peers[i].endpoint == p.endpoint + ":" + Show(listenPort))
  {
    hide ParseConfig, RenderConfig, HasPort, EndpointAddr, AllowedIps, CleanPeer, Trimmed;
    ConfigRoundTrip(mgmtIp, listenPort, privateKey, peers);
    EndpointHasPort(peers[i].endpoint, listenPort);
  }

  lemma OctetsAre(a: nat, b: nat, c: nat, d: nat)
    requires a <= 255 && b <= 255 && c <= 255 && d <= 255
    ensures Octets(((a * 0x100 + b) * 0x100 + c) * 0x100 + d) == (a, b, c, d)
  {
    var x := a * 0x100 + b;
    var y := x * 0x100 + c;
    LowOctet(y, d);
    LowOctet(x, c);
    LowOctet(a, b);
  }

  lemma LowOctet(high: nat, low: nat)
    requires low <= 255
    ensures (high * 0x100 + low) / 0x100 == high && (high * 0x100 + low) % 0x100 == low
  {
  }

  /** The dotted form is the four octets in decimal, the highest first. */
  lemma DottedForm(a: nat, b: nat, c: nat, d: nat)
    requires a <= 255 && b <= 255 && c <= 255 && d <= 255
    ensures ShowIp(((a * 0x100 + b) * 0x100 + c) * 0x100 + d) == Show(a) + "." + Show(b) + "." + Show(c) + "." + Show(d)
  {
    hide Show, Join, Octets;
    OctetsAre(a, b, c, d);
    JoinFour(Show(a), Show(b), Show(c), Show(d));
  }

  lemma DecimalForm()
    ensures Show(0) == "0" && Show(10) == "10" && Show(51820) == "51820"
  {
    assert Show(1) == "1" && Show(5) == "5";
    assert Show(51) == "51";
    assert Show(518) == "518";
    assert Show(5182) == "5182";
  }
}
