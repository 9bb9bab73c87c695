/**
 How a stream of Podman events is cut into lines (`coold/src/podman/events.rs`). Bytes are
 characters here; a line is dispatched as soon as its end has come in.
 */
module EventFraming {
  import opened Text

  datatype Frame = Data(bytes: string) | Trailers | Broken

  /** The data that comes in before the stream ends or breaks. */
  function Payload(frames: seq<Frame>): string {
    if frames == [] || frames[0].Broken? then []
    else (if frames[0].Data? then frames[0].bytes else []) + Payload(frames[1..])
  }

  predicate Breaks(frames: seq<Frame>) { exists i :: 0 <= i < |frames| && frames[i].Broken? }

  function NonEmpty(lines: seq<string>): seq<string> {
    if lines == [] then []
    else NonEmpty(lines[..|lines| - 1]) + if lines[|lines| - 1] == [] then [] else [lines[|lines| - 1]]
  }

  /** The pieces of a text that are ended by a newline, and the one that is not. */
  function Ended(s: string): seq<string> {
    var p := Split(s, '\n');
    p[..|p| - 1]
  }

  function Rest(s: string): (r: string)
    ensures '\n' !in r
  {
    var p := Split(s, '\n');
    p[|p| - 1]
  }

  lemma {:induction false} NonEmptyConcat(a: seq<string>, b: seq<string>)
    ensures NonEmpty(a + b) == NonEmpty(a) + NonEmpty(b)
  {
    if b == [] {
      assert a + b == a;
    } else {
      var n := |b| - 1;
      NonEmptyConcat(a, b[..n]);
      assert (a + b)[..|a| + n] == a + b[..n];
    }
  }

  lemma NoEnd(s: string)
    requires '\n' !in s
    ensures Ended(s) == [] && Rest(s) == s
  {
    SplitNone(s, '\n');
  }

  lemma FirstEnd(a: string, b: string)
    requires '\n' !in a
    ensures Ended(a + ['\n'] + b) == [a] + Ended(b) && Rest(a + ['\n'] + b) == Rest(b)
  {
    SplitCons(a, '\n', b);
    var p := Split(b, '\n');
    assert ([a] + p)[..|p|] == [a] + p[..|p| - 1];
  }

  /** What is read first decides its own ended lines; what follows continues the open one. */
  lemma {:induction false} Continue(p: string, d: string)
    ensures Ended(p + d) == Ended(p) + Ended(Rest(p) + d) && Rest(p + d) == Rest(Rest(p) + d)
    decreases |p|
  {
    hide Ended, Rest;
    if '\n' in p {
      var i := IndexOf(p, '\n');
      var a, b := p[..i], p[i + 1..];
      assert p == a + ['\n'] + b && p + d == a + ['\n'] + (b + d);
      Continue(b, d);
      FirstEnd(a, b);
      FirstEnd(a, b + d);
      assert [a] + (Ended(b) + Ended(Rest(b) + d)) == ([a] + Ended(b)) + Ended(Rest(b) + d);
    } else {
      NoEnd(p);
      assert [] + Ended(p + d) == Ended(p + d);
    }
  }

  lemma {:induction false} PayloadSnoc(frames: seq<Frame>, n: nat)
    requires n < |frames| && forall i :: 0 <= i < n ==> !frames[i].Broken?
    ensures Payload(frames[..n + 1]) ==
            if frames[n].Data? then Payload(frames[..n]) + frames[n].bytes else Payload(frames[..n])
  {
    var s, t := frames[..n + 1], frames[..n];
    if n == 0 {
      assert s == [frames[0]] && s[1..] == [] && t == [];
      assert Payload(s[1..]) == [];
    } else {
      PayloadSnoc(frames[1..], n - 1);
      assert s[1..] == frames[1..][..n] && t[1..] == frames[1..][..n - 1];
    }
  }

  lemma {:induction false} BrokenEnds(frames: seq<Frame>, n: nat)
    requires n < |frames| && frames[n].Broken? && forall i :: 0 <= i < n ==> !frames[i].Broken?
    ensures Payload(frames) == Payload(frames[..n])
  {
    if n > 0 {
      BrokenEnds(frames[1..], n - 1);
      assert frames[..n][1..] == frames[1..][..n - 1];
    }
  }

  /** Takes every ended line off the front of the buffer. */
  method DrainLines(start: string) returns (lines: seq<string>, buf: string)
    ensures lines == NonEmpty(Ended(start)) && buf == Rest(start)
  {
    hide Ended, Rest, NonEmpty;
    lines, buf := [], start;
    assert [] + NonEmpty(Ended(start)) == NonEmpty(Ended(start));
    while '\n' in buf
      invariant lines + NonEmpty(Ended(buf)) == NonEmpty(Ended(start))
      invariant Rest(buf) == Rest(start)
      decreases |buf|
    {
      var pos := IndexOf(buf, '\n');
      var line, after := buf[..pos], buf[pos + 1..];
      assert buf == line + ['\n'] + after;
      FirstEnd(line, after);
      NonEmptyConcat([line], Ended(after));
      OneLine(line);
      if line != [] {
        lines := lines + [line];
      }
      buf := after;
    }
    NoEnd(buf);
    NothingEmpty();
  }

  lemma OneLine(line: string)
    ensures NonEmpty([line]) == if line == [] then [] else [line]
  {
    assert [line][..0] == [] && NonEmpty([]) == [];
  }

  lemma NothingEmpty()
    ensures NonEmpty([]) == []
  {
  }

  /** However the bytes are split into frames, the lines dispatched are the non-empty pieces of the
      whole, in order: all of them when the stream ends, the ended ones when it breaks. */
  method StreamOnce(frames: seq<Frame>) returns (lines: seq<string>, ok: bool)
    ensures ok == !Breaks(frames)
    ensures lines == NonEmpty(if ok then Split(Payload(frames), '\n') else Ended(Payload(frames)))
  {
    hide Ended, Rest, NonEmpty, Split, Payload;
    var buf := [];
    lines := [];
    StartOfStream(frames);
    for n := 0 to |frames|
      invariant forall i :: 0 <= i < n ==> !frames[i].Broken?
      invariant lines == NonEmpty(Ended(Payload(frames[..n]))) && buf == Rest(Payload(frames[..n]))
    {
      match frames[n] {
        case Broken =>
          BrokenEnds(frames, n);
          return lines, false;
        case Trailers => PayloadSnoc(frames, n);
        case Data(bytes) =>
          PayloadSnoc(frames, n);
          Continue(Payload(frames[..n]), bytes);
          NonEmptyConcat(Ended(Payload(frames[..n])), Ended(buf + bytes));
          var more;
          more, buf := DrainLines(buf + bytes);
          lines := lines + more;
      }
    }
    assert frames[..|frames|] == frames;
    LastPiece(Payload(frames));
    if buf != [] {
      lines := lines + [buf];
    }
    return lines, true;
  }

  lemma StartOfStream(frames: seq<Frame>)
    ensures NonEmpty(Ended(Payload(frames[..0]))) == [] && Rest(Payload(frames[..0])) == []
  {
    NoEnd([]);
  }

  lemma LastPiece(s: string)
    ensures NonEmpty(Split(s, '\n')) == NonEmpty(Ended(s)) + if Rest(s) == [] then [] else [Rest(s)]
  {
  }
}
