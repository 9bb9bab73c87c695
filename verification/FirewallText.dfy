/** The tab-separated firewall state file and its reader (`coold/src/grpc/handlers.rs`). */
module FirewallText {
  import opened Text
  import opened Ipv4

  datatype Rule = Rule(id: string, namespace: string, src: string, dst: string, proto: string, port: U32)

  const U32_MAX: nat := 0xFFFF_FFFF

  function Fields(r: Rule): seq<string> { [r.id, r.namespace, r.src, r.dst, r.proto, Show(r.port)] }

  function RenderLine(r: Rule): string { Join(Fields(r), "\t") }

  function RenderLines(rules: seq<Rule>): (ls: seq<string>)
    ensures |ls| == |rules|
  {
    seq(|rules|, i requires 0 <= i < |rules| => RenderLine(rules[i]))
  }

  function RenderState(rules: seq<Rule>): string { Join(RenderLines(rules), "\n") + "\n" }

  /** A line has six fields, or five in the older form without an id; anything else is skipped. */
  function ParseLine(line: string): Option<Rule> {
    var p := Split(line, '\t');
    if |p| == 6 then
      var port := ParseUnsigned(p[5], U32_MAX);
      if port.None? then None else Some(Rule(p[0], p[1], p[2], p[3], p[4], port.value))
    else if |p| == 5 then
      var port := ParseUnsigned(p[4], U32_MAX);
      if port.None? then None else Some(Rule("", p[0], p[1], p[2], p[3], port.value))
    else None
  }

  function ParseLines(lines: seq<string>): seq<Rule> {
    if lines == [] then []
    else
      var rule := ParseLine(lines[0]);
      (if rule.Some? then [rule.value] else []) + ParseLines(lines[1..])
  }

  function ParseState(text: string): seq<Rule> { ParseLines(Lines(text)) }

  predicate CleanText(s: string) { '\t' !in s && '\n' !in s }

  /** No text of the rule holds a tab or a newline. */
  predicate Clean(r: Rule) {
    CleanText(r.id) && CleanText(r.namespace) && CleanText(r.src) && CleanText(r.dst) && CleanText(r.proto)
  }

  predicate AllClean(rules: seq<Rule>) { forall i :: 0 <= i < |rules| ==> Clean(rules[i]) }

  // ----- whatever was read is clean -----

  lemma {:induction false} SplitKeeps(s: string, c: char, d: char)
    requires d !in s
    ensures forall i :: 0 <= i < |Split(s, c)| ==> d !in Split(s, c)[i]
    decreases |s|
  {
    var i := IndexOf(s, c);
    if i < |s| { SplitKeeps(s[i + 1..], c, d); }
  }

  lemma ParsedLineClean(line: string)
    requires '\n' !in line && ParseLine(line).Some?
    ensures Clean(ParseLine(line).value)
  {
    SplitKeeps(line, '\t', '\n');
  }

  lemma {:induction false} ParsedClean(lines: seq<string>)
    requires forall i :: 0 <= i < |lines| ==> '\n' !in lines[i]
    ensures AllClean(ParseLines(lines))
  {
    hide ParseLine, Clean;
    if lines != [] {
      ParsedClean(lines[1..]);
      if ParseLine(lines[0]).Some? { ParsedLineClean(lines[0]); }
    }
  }

  lemma LoadedClean(text: string)
    ensures AllClean(ParseState(text))
  {
    NoLineEnds(text);
    ParsedClean(Lines(text));
  }

  // ----- what is clean is read back -----

  lemma LineRoundTrip(r: Rule)
    requires Clean(r)
    ensures ParseLine(RenderLine(r)) == Some(r)
  {
    var parts := Fields(r);
    DigitsAreClean(Show(r.port));
    assert forall i :: 0 <= i < |parts| ==> '\t' !in parts[i];
    SplitJoin(parts, '\t');
    ParseShow(r.port, U32_MAX);
  }

  /** The older form is read as the same rule with no id. */
  lemma LegacyLine(r: Rule)
    requires Clean(r)
    ensures ParseLine(Join([r.namespace, r.src, r.dst, r.proto, Show(r.port)], "\t")) == Some(r.(id := ""))
  {
    var parts := [r.namespace, r.src, r.dst, r.proto, Show(r.port)];
    DigitsAreClean(Show(r.port));
    assert forall i :: 0 <= i < |parts| ==> '\t' !in parts[i];
    SplitJoin(parts, '\t');
    ParseShow(r.port, U32_MAX);
  }

  lemma {:induction false} JoinClean(parts: seq<string>)
    requires parts != [] && forall i :: 0 <= i < |parts| ==> '\n' !in parts[i]
    ensures '\n' !in Join(parts, "\t")
  {
    if |parts| > 1 {
      JoinClean(parts[1..]);
    }
  }

  lemma {:induction false} JoinEnds(parts: seq<string>, sep: string)
    requires parts != [] && parts[|parts| - 1] != []
    ensures var j, last := Join(parts, sep), parts[|parts| - 1];
            j != [] && j[|j| - 1] == last[|last| - 1]
  {
    if |parts| > 1 {
      JoinEnds(parts[1..], sep);
    }
  }

  lemma RenderedIsLine(r: Rule)
    requires Clean(r)
    ensures IsLine(RenderLine(r))
  {
    var parts := Fields(r);
    DigitsAreClean(Show(r.port));
    assert forall i :: 0 <= i < |parts| ==> '\n' !in parts[i];
    JoinClean(parts);
    JoinEnds(parts, "\t");
  }

  lemma {:induction false} JoinIsUnlines(ls: seq<string>)
    requires ls != []
    ensures Join(ls, "\n") + "\n" == Unlines(ls)
  {
    if |ls| > 1 {
      JoinIsUnlines(ls[1..]);
      assert Join(ls, "\n") + "\n" == ls[0] + "\n" + (Join(ls[1..], "\n") + "\n");
    } else {
      assert Unlines(ls[1..]) == [];
    }
  }

  lemma {:induction false} LinesRoundTrip(rules: seq<Rule>)
    requires AllClean(rules)
    ensures ParseLines(RenderLines(rules)) == rules
  {
    hide ParseLine, RenderLine, Clean;
    if rules != [] {
      LineRoundTrip(rules[0]);
      LinesRoundTrip(rules[1..]);
      assert RenderLines(rules)[1..] == RenderLines(rules[1..]);
    }
  }

  lemma EmptyState()
    ensures ParseState(RenderState([])) == []
  {
    assert RenderState([]) == "\n";
    LinesCons("", "");
    assert "" + ['\n'] + "" == "\n";
    SplitNone("", '\t');
    assert Lines("\n") == [""];
    assert ParseLine("") == None;
    assert ParseLines([""]) == ParseLines([""][1..]);
  }

  /** The state file gives back the rules it was written from exactly when they are clean. */
  lemma StateRoundTrip(rules: seq<Rule>)
    ensures ParseState(RenderState(rules)) == rules <==> AllClean(rules)
  {
    hide ParseLine, RenderLine, Clean;
    LoadedClean(RenderState(rules));
    if rules == [] {
      EmptyState();
    } else if AllClean(rules) {
      forall i | 0 <= i < |rules| ensures IsLine(RenderLine(rules[i])) { RenderedIsLine(rules[i]); }
      JoinIsUnlines(RenderLines(rules));
      LinesUnlines(RenderLines(rules));
      LinesRoundTrip(rules);
    }
  }

  /** A tab in an id: the line has seven fields and the rule is gone when the file is read. */
  lemma TabIsLost()
    ensures var r := Rule("a\tb", "n", "10.0.0.1", "10.0.0.2", "tcp", 80);
            ParseState(RenderState([r])) != [r] && '\t' in r.id
  {
    var r := Rule("a\tb", "n", "10.0.0.1", "10.0.0.2", "tcp", 80);
    assert r.id[1] == '\t';
    assert [r][0] == r && !Clean(r);
    StateRoundTrip([r]);
  }
}
