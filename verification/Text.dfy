/** The pieces of Rust's string library the programs rely on: trim, split, lines, numbers. */
module Text {

  datatype Option<T> = None | Some(value: T)

  /** Unicode `White_Space`, which `trim` removes. */
  predicate IsSpace(c: char) {
    || '\t' <= c <= '\r' || c == ' ' || c == '\U{85}' || c == '\U{A0}' || c == '\U{1680}'
    || '\U{2000}' <= c <= '\U{200A}' || c == '\U{2028}' || c == '\U{2029}' || c == '\U{202F}'
    || c == '\U{205F}' || c == '\U{3000}'
  }

  predicate IsDigit(c: char) { '0' <= c <= '9' }

  predicate AllDigits(s: string) { forall i :: 0 <= i < |s| ==> IsDigit(s[i]) }

  // ----- trim -----

  function TrimEnd(s: string): (r: string)
    ensures r <= s
    ensures r == [] || !IsSpace(r[|r| - 1])
  {
    if s != [] && IsSpace(s[|s| - 1]) then TrimEnd(s[..|s| - 1]) else s
  }

  function TrimStart(s: string): string {
    if s != [] && IsSpace(s[0]) then TrimStart(s[1..]) else s
  }

  function Trim(s: string): string { TrimStart(TrimEnd(s)) }

  predicate Trimmed(s: string) {
    s == [] || (!IsSpace(s[0]) && !IsSpace(s[|s| - 1]))
  }

  lemma TrimEndSpace(s: string, c: char)
    requires IsSpace(c)
    ensures TrimEnd(s + [c]) == TrimEnd(s)
  {
    assert (s + [c])[..|s|] == s;
  }

  /** Leading text that is not a space survives `trim`. */
  lemma {:induction false} TrimEndKeepsHead(s: string)
    requires s != [] && !IsSpace(s[0])
    ensures TrimEnd(s) != [] && TrimEnd(s)[0] == s[0]
  {
    if IsSpace(s[|s| - 1]) {
      TrimEndKeepsHead(s[..|s| - 1]);
    }
  }

  lemma TrimPadded(s: string)
    requires Trimmed(s)
    ensures Trim([' '] + s) == s && Trim(s + [' ']) == s
  {
    TrimEndSpace(s, ' ');
    TrimmedStays(s);
    var padded := [' '] + s;
    assert padded[1..] == s;
    if s == [] {
      assert padded[..0] == [];
    } else {
      assert padded[|padded| - 1] == s[|s| - 1];
      assert TrimStart(padded) == TrimStart(s);
    }
  }

  lemma TrimmedStays(s: string)
    requires Trimmed(s)
    ensures Trim(s) == s == TrimEnd(s) == TrimStart(s)
  {
  }

  // ----- split -----

  function IndexOf(s: string, c: char): (i: nat)
    ensures i <= |s|
    ensures i < |s| ==> s[i] == c
    ensures c !in s[..i]
    ensures i == |s| <==> c !in s
  {
    if s == [] || s[0] == c then 0
    else
      var i := 1 + IndexOf(s[1..], c);
      assert s[..i] == [s[0]] + s[1..][..i - 1];
      i
  }

  lemma {:induction false} IndexOfFirst(a: string, c: char, b: string)
    requires c !in a
    ensures IndexOf(a + [c] + b, c) == |a|
  {
    if a != [] {
      IndexOfFirst(a[1..], c, b);
      assert (a + [c] + b)[1..] == a[1..] + [c] + b;
    }
  }

  lemma Cut(a: string, c: char, b: string)
    ensures (a + [c] + b)[..|a|] == a && (a + [c] + b)[|a| + 1..] == b
  {
  }

  /** `split_once`: cut at the first `c`. */
  function SplitOnce(s: string, c: char): Option<(string, string)> {
    var i := IndexOf(s, c);
    if i == |s| then None else Some((s[..i], s[i + 1..]))
  }

  lemma SplitOnceAt(a: string, c: char, b: string)
    requires c !in a
    ensures SplitOnce(a + [c] + b, c) == Some((a, b))
  {
    IndexOfFirst(a, c, b);
    Cut(a, c, b);
  }

  /** `split`: all the pieces between separators, at least one. */
  function Split(s: string, c: char): (r: seq<string>)
    ensures |r| > 0
    ensures forall i :: 0 <= i < |r| ==> c !in r[i]
    decreases |s|
  {
    var i := IndexOf(s, c);
    if i == |s| then [s] else [s[..i]] + Split(s[i + 1..], c)
  }

  function Join(parts: seq<string>, sep: string): string {
    if parts == [] then []
    else if |parts| == 1 then parts[0]
    else parts[0] + sep + Join(parts[1..], sep)
  }

  lemma SplitCons(a: string, c: char, b: string)
    requires c !in a
    ensures Split(a + [c] + b, c) == [a] + Split(b, c)
  {
    IndexOfFirst(a, c, b);
    Cut(a, c, b);
  }

  lemma SplitNone(s: string, c: char)
    requires c !in s
    ensures Split(s, c) == [s]
  {
    var i := IndexOf(s, c);
  }

  lemma {:induction false} SplitJoin(parts: seq<string>, c: char)
    requires parts != []
    requires forall i :: 0 <= i < |parts| ==> c !in parts[i]
    ensures Split(Join(parts, [c]), c) == parts
  {
    if |parts| == 1 {
      SplitNone(parts[0], c);
    } else {
      var rest := Join(parts[1..], [c]);
      assert Split(rest, c) == parts[1..] by { SplitJoin(parts[1..], c); }
      assert Split(parts[0] + [c] + rest, c) == [parts[0]] + parts[1..] by { SplitCons(parts[0], c, rest); }
      assert [parts[0]] + parts[1..] == parts;
    }
  }

  function TrimAll(parts: seq<string>): (r: seq<string>)
    ensures |r| == |parts|
  {
    seq(|parts|, i requires 0 <= i < |parts| => Trim(parts[i]))
  }

  /** A list written with ", " between its items is read back by splitting at ',' and trimming. */
  lemma {:induction false} SplitCommaList(parts: seq<string>, pad: string)
    requires parts != [] && (pad == "" || pad == " ")
    requires forall i :: 0 <= i < |parts| ==> ',' !in parts[i] && Trimmed(parts[i])
    ensures TrimAll(Split(pad + Join(parts, ", "), ',')) == parts
  {
    hide Split, Trim, Trimmed, TrimAll;
    PadTrim(pad, parts[0]);
    if |parts| == 1 {
      SplitNone(pad + parts[0], ',');
      TrimOne(pad + parts[0]);
    } else {
      var rest := " " + Join(parts[1..], ", ");
      SplitCommaList(parts[1..], " ");
      CommaCons(pad + parts[0], rest);
      PadJoin(pad, parts);
      assert [parts[0]] + parts[1..] == parts;
    }
  }

  lemma TrimOne(s: string)
    ensures TrimAll([s]) == [Trim(s)]
  {
  }

  lemma PadTrim(pad: string, s: string)
    requires Trimmed(s) && (pad == "" || pad == " ")
    ensures Trim(pad + s) == s
  {
    TrimPadded(s);
    TrimmedStays(s);
    if pad == "" {
      assert pad + s == s;
    }
  }

  lemma PadJoin(pad: string, parts: seq<string>)
    requires |parts| > 1
    ensures pad + Join(parts, ", ") == (pad + parts[0]) + [','] + (" " + Join(parts[1..], ", "))
  {
  }

  lemma CommaCons(p: string, rest: string)
    requires ',' !in p
    ensures TrimAll(Split(p + [','] + rest, ',')) == [Trim(p)] + TrimAll(Split(rest, ','))
  {
    SplitCons(p, ',', rest);
    TrimAllCons(p, Split(rest, ','));
  }

  lemma TrimAllCons(a: string, rest: seq<string>)
    ensures TrimAll([a] + rest) == [Trim(a)] + TrimAll(rest)
  {
  }

  // ----- lines -----

  function StripCr(s: string): string {
    if s != [] && s[|s| - 1] == '\r' then s[..|s| - 1] else s
  }

  /** `lines()`: the text without its line ends; nothing after the last line end is no line. */
  function Lines(s: string): seq<string>
    decreases |s|
  {
    if s == [] then []
    else
      var i := IndexOf(s, '\n');
      if i == |s| then [s] else [StripCr(s[..i])] + Lines(s[i + 1..])
  }

  predicate IsLine(s: string) {
    '\n' !in s && (s == [] || s[|s| - 1] != '\r')
  }

  function Unlines(ls: seq<string>): string {
    if ls == [] then [] else ls[0] + ['\n'] + Unlines(ls[1..])
  }

  lemma LinesCons(l: string, rest: string)
    requires IsLine(l)
    ensures Lines(l + ['\n'] + rest) == [l] + Lines(rest)
  {
    IndexOfFirst(l, '\n', rest);
    Cut(l, '\n', rest);
  }

  /** A carriage return before the line end belongs to it; elsewhere it stays. */
  lemma LinesCrLf(l: string, rest: string)
    requires '\n' !in l
    ensures Lines(l + ['\r'] + ['\n'] + rest) == [l] + Lines(rest)
  {
    var line := l + ['\r'];
    IndexOfFirst(line, '\n', rest);
    Cut(line, '\n', rest);
    assert line[..|line| - 1] == l;
  }

  lemma {:induction false} LinesUnlines(ls: seq<string>)
    requires forall i :: 0 <= i < |ls| ==> IsLine(ls[i])
    ensures Lines(Unlines(ls)) == ls
  {
    if ls != [] {
      LinesUnlines(ls[1..]);
      LinesCons(ls[0], Unlines(ls[1..]));
    }
  }

  lemma {:induction false} NoLineEnds(s: string)
    ensures forall i :: 0 <= i < |Lines(s)| ==> '\n' !in Lines(s)[i]
    decreases |s|
  {
    if s != [] {
      var i := IndexOf(s, '\n');
      if i < |s| {
        NoLineEnds(s[i + 1..]);
      }
    }
  }

  // ----- numbers -----

  function DigitChar(d: nat): (c: char)
    requires d < 10
    ensures IsDigit(c) && (c - '0') as int == d
  {
    '0' + d as char
  }

  function Show(n: nat): (s: string)
    ensures s != [] && AllDigits(s)
    ensures n > 0 ==> s[0] != '0'
    ensures n == 0 ==> s == "0"
  {
    if n < 10 then [DigitChar(n)] else Show(n / 10) + [DigitChar(n % 10)]
  }

  function Value(s: string): nat
    requires AllDigits(s)
  {
    if s == [] then 0 else Value(s[..|s| - 1]) * 10 + (s[|s| - 1] - '0') as int
  }

  lemma {:induction false} ValueShow(n: nat)
    ensures Value(Show(n)) == n
  {
    if n >= 10 {
      ValueShow(n / 10);
      var s := Show(n);
      assert s[..|s| - 1] == Show(n / 10);
    } else {
      assert Show(n)[..0] == [];
    }
  }

  /** `parse` for an unsigned type: an optional plus sign, digits, and no overflow. */
  function ParseUnsigned(s: string, max: nat): Option<nat> {
    var digits := if s != [] && s[0] == '+' then s[1..] else s;
    if digits == [] || !AllDigits(digits) || Value(digits) > max then None else Some(Value(digits))
  }

  /** Decimal digits for `n`, perhaps after a plus sign. */
  ghost predicate Numeral(t: string, n: nat) {
    exists ds: string :: (t == ds || t == "+" + ds) && ds != [] && AllDigits(ds) && Value(ds) == n
  }

  lemma ParseUnsignedIff(t: string, max: nat, n: nat)
    ensures ParseUnsigned(t, max) == Some(n) <==> Numeral(t, n) && n <= max
  {
    var digits := if t != [] && t[0] == '+' then t[1..] else t;
    if t != [] && t[0] == '+' {
      assert t == "+" + digits;
    }
    if Numeral(t, n) {
      var ds :| (t == ds || t == "+" + ds) && ds != [] && AllDigits(ds) && Value(ds) == n;
      if t == "+" + ds {
        assert t[0] == '+' && t[1..] == ds;
      }
      assert digits == ds;
    }
  }

  lemma ShowIsNumeral(n: nat)
    ensures Numeral(Show(n), n) && ':' !in Show(n)
  {
    ValueShow(n);
    DigitsAreClean(Show(n));
  }

  lemma NumeralIsPlain(t: string, n: nat)
    requires Numeral(t, n)
    ensures ':' !in t
  {
    var ds :| (t == ds || t == "+" + ds) && ds != [] && AllDigits(ds) && Value(ds) == n;
    DigitsAreClean(ds);
  }

  lemma ParseShow(n: nat, max: nat)
    requires n <= max
    ensures ParseUnsigned(Show(n), max) == Some(n)
  {
    ValueShow(n);
  }

  lemma DigitsAreClean(s: string)
    requires s != [] && AllDigits(s)
    ensures Trimmed(s) && IsLine(s)
    ensures ',' !in s && '.' !in s && '/' !in s && '=' !in s && '\t' !in s && ':' !in s && '|' !in s
  {
  }
}
