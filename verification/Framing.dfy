/** Line framing of the Codex app server (src/agents/codex/app-server-client.mjs, `start`,
    `handleStdout`, `handleExit`).

    Chunks of a child's output are kept as a list until a newline completes a line. Parsing a
    line is outside this model: a client is given it as a function. A line that throws ends the
    handling of its chunk; that the process survives it and goes on feeding the client is assumed. */
module Framing {
  import opened Prelude

  // ---------- Lines ----------

  /** What a line turns out to be. `Null` is the JSON value null, on which the property test of
      the dispatcher throws; `Other` is any value that is neither call nor answer. */
  datatype Parsed = Invalid | Null | Other | Response(line: string) | Request(line: string) | Notification(line: string)

  predicate IsSpace(c: char) {
    c in {' ', '\t', '\n', '\r', '\U{000B}', '\U{000C}', '\U{00A0}', '\U{FEFF}', '\U{1680}', '\U{2028}',
          '\U{2029}', '\U{202F}', '\U{205F}', '\U{3000}'} || '\U{2000}' <= c <= '\U{200A}'
  }

  function TrimStart(s: string): string { if s != "" && IsSpace(s[0]) then TrimStart(s[1..]) else s }

  function TrimEnd(s: string): string { if s != "" && IsSpace(s[|s| - 1]) then TrimEnd(s[..|s| - 1]) else s }

  function Trim(s: string): string { TrimEnd(TrimStart(s)) }

  /** The first newline at or after `from`, or the length. */
  function FindNewline(s: string, from: nat): (k: nat)
    requires from <= |s|
    ensures from <= k <= |s|
    ensures k < |s| ==> s[k] == '\n'
    ensures forall i :: from <= i < k ==> s[i] != '\n'
    decreases |s| - from
  {
    if from == |s| || s[from] == '\n' then from else FindNewline(s, from + 1)
  }

  function Lines(s: string): seq<string>
    decreases |s|
  {
    var k := FindNewline(s, 0);
    if k == |s| then [] else [s[..k]] + Lines(s[k + 1..])
  }

  function Rest(s: string): string
    decreases |s|
  {
    var k := FindNewline(s, 0);
    if k == |s| then s else Rest(s[k + 1..])
  }

  function Concat(chunks: seq<string>): string { if chunks == [] then "" else chunks[0] + Concat(chunks[1..]) }

  type Parser = string -> Parsed

  predicate IsNull(parse: Parser, line: string) { Trim(line) != "" && parse(Trim(line)).Null? }

  /** What one complete line dispatches. */
  function Deliver(parse: Parser, line: string): seq<Parsed> {
    var t := Trim(line);
    if t == "" then []
    else
      match parse(t)
      case Invalid => []
      case Null => []
      case Other => []
      case m => [m]
  }

  function Frames(parse: Parser, lines: seq<string>): seq<Parsed> {
    if lines == [] then [] else Deliver(parse, lines[0]) + Frames(parse, lines[1..])
  }

  predicate NoNull(parse: Parser, lines: seq<string>) { forall i :: 0 <= i < |lines| ==> !IsNull(parse, lines[i]) }

  // ---------- The specification of one chunk ----------

  /** Frames dispatched, characters left over, and whether a line threw. */
  datatype Outcome = Outcome(frames: seq<Parsed>, rest: string, threw: bool)

  /** Dispatch the lines of `s` in order; a null line ends it and loses what follows. */
  function Walk(parse: Parser, s: string): Outcome
    decreases |s|
  {
    var k := FindNewline(s, 0);
    if k == |s| then Outcome([], s, false)
    else if IsNull(parse, s[..k]) then Outcome([], "", true)
    else
      var tail := Walk(parse, s[k + 1..]);
      tail.(frames := Deliver(parse, s[..k]) + tail.frames)
  }

  /** Where no line is null, a chunk is handled by splitting the whole text at newlines. */
  lemma {:induction false} WalkIsSplitting(parse: Parser, s: string)
    requires NoNull(parse, Lines(s))
    ensures Walk(parse, s) == Outcome(Frames(parse, Lines(s)), Rest(s), false)
    decreases |s|
  {
    var k := FindNewline(s, 0);
    if k < |s| {
      assert Lines(s)[0] == s[..k] && Lines(s)[1..] == Lines(s[k + 1..]);
      var tail := Lines(s[k + 1..]);
      forall i | 0 <= i < |tail| ensures !IsNull(parse, tail[i]) {
        assert tail[i] == Lines(s)[i + 1];
      }
      WalkIsSplitting(parse, s[k + 1..]);
    }
  }

  // ---------- Any fragmentation ----------

  /** One child's stream so far. */
  datatype Stream = Stream(frames: seq<Parsed>, rest: string)

  function Feed(parse: Parser, x: Stream, chunk: string): Stream {
    var o := Walk(parse, x.rest + chunk);
    Stream(x.frames + o.frames, o.rest)
  }

  function FeedAll(parse: Parser, x: Stream, chunks: seq<string>): Stream
    decreases |chunks|
  {
    if chunks == [] then x else FeedAll(parse, Feed(parse, x, chunks[0]), chunks[1..])
  }

  lemma FindInConcat(a: string, b: string)
    ensures FindNewline(a, 0) < |a| ==> FindNewline(a + b, 0) == FindNewline(a, 0)
    ensures FindNewline(a, 0) == |a| ==> FindNewline(a + b, 0) == |a| + FindNewline(b, 0)
  {
    var k := FindNewline(a, 0);
    if k < |a| {
      assert (a + b)[k] == '\n';
      assert forall i :: 0 <= i < k ==> (a + b)[i] == a[i];
    } else {
      var m := FindNewline(b, 0);
      assert forall i :: 0 <= i < m ==> (a + b)[|a| + i] == b[i];
      assert m < |b| ==> (a + b)[|a| + m] == '\n';
    }
  }

  lemma FirstLine(s: string)
    ensures var k := FindNewline(s, 0);
      && (k < |s| ==> Lines(s) == [s[..k]] + Lines(s[k + 1..]) && Rest(s) == Rest(s[k + 1..]))
      && (k == |s| ==> Lines(s) == [] && Rest(s) == s)
  {}

  lemma LinesAssociate(a: seq<string>, b: seq<string>, c: seq<string>)
    ensures (a + b) + c == a + (b + c)
  {}

  lemma FirstLineOfConcat(a: string, b: string)
    ensures var k := FindNewline(a, 0);
      k < |a| ==> Lines(a + b) == [a[..k]] + Lines(a[k + 1..] + b) && Rest(a + b) == Rest(a[k + 1..] + b)
  {
    var k := FindNewline(a, 0);
    FindInConcat(a, b);
    FirstLine(a + b);
    if k < |a| {
      assert (a + b)[..k] == a[..k];
      assert (a + b)[k + 1..] == a[k + 1..] + b;
    }
  }

  /** The lines of a text are the lines of a prefix followed by the lines of its leftover and
      the remainder. */
  lemma {:induction false} LinesOfConcat(a: string, b: string)
    ensures Lines(a + b) == Lines(a) + Lines(Rest(a) + b)
    ensures Rest(a + b) == Rest(Rest(a) + b)
    decreases |a|
  {
    var k := FindNewline(a, 0);
    FirstLine(a);
    FirstLineOfConcat(a, b);
    if k < |a| {
      LinesOfConcat(a[k + 1..], b);
      LinesAssociate([a[..k]], Lines(a[k + 1..]), Lines(Rest(a) + b));
    } else {
      assert [] + Lines(a + b) == Lines(a + b);
    }
  }

  lemma {:induction false} FramesOfConcat(parse: Parser, a: seq<string>, b: seq<string>)
    ensures Frames(parse, a + b) == Frames(parse, a) + Frames(parse, b)
    decreases |a|
  {
    if a == [] {
      assert a + b == b;
    } else {
      assert (a + b)[1..] == a[1..] + b;
      FramesOfConcat(parse, a[1..], b);
    }
  }

  lemma {:induction false} RestHasNoLines(s: string)
    ensures Lines(Rest(s)) == [] && Rest(Rest(s)) == Rest(s)
    decreases |s|
  {
    var k := FindNewline(s, 0);
    if k < |s| { RestHasNoLines(s[k + 1..]); }
  }

  /** Fragmentation does not matter: however a stream without a null line is cut into chunks,
      what has been dispatched and what is left over are those of the whole stream split at
      its newlines, blank and invalid lines dropped, order kept. */
  lemma {:induction false} FragmentationIsInvisible(parse: Parser, done: string, chunks: seq<string>)
    requires NoNull(parse, Lines(done + Concat(chunks)))
    ensures FeedAll(parse, Stream(Frames(parse, Lines(done)), Rest(done)), chunks)
      == Stream(Frames(parse, Lines(done + Concat(chunks))), Rest(done + Concat(chunks)))
    decreases |chunks|
  {
    if chunks == [] {
      assert done + Concat(chunks) == done;
    } else {
      var next := done + chunks[0];
      assert done + Concat(chunks) == next + Concat(chunks[1..]);
      LinesOfConcat(next, Concat(chunks[1..]));
      LinesOfConcat(done, chunks[0]);
      var all := Lines(next + Concat(chunks[1..]));
      assert Lines(next) == all[..|Lines(next)|];
      assert NoNull(parse, Lines(next));
      assert Lines(Rest(done) + chunks[0]) == Lines(next)[|Lines(done)|..];
      WalkIsSplitting(parse, Rest(done) + chunks[0]);
      FramesOfConcat(parse, Lines(done), Lines(Rest(done) + chunks[0]));
      FragmentationIsInvisible(parse, next, chunks[1..]);
    }
  }

  lemma AnyTwoCutsAgree(parse: Parser, one: seq<string>, two: seq<string>)
    requires Concat(one) == Concat(two) && NoNull(parse, Lines(Concat(one)))
    ensures FeedAll(parse, Stream([], ""), one) == FeedAll(parse, Stream([], ""), two)
    ensures FeedAll(parse, Stream([], ""), one) == Stream(Frames(parse, Lines(Concat(one))), Rest(Concat(one)))
  {
    assert "" + Concat(one) == Concat(one);
    FragmentationIsInvisible(parse, "", one);
    FragmentationIsInvisible(parse, "", two);
  }

  /** A null line is where it matters. Cut after that line, nothing after it is lost; sent in
      one chunk, all of it is. The two agree exactly when what follows in the chunk dispatches
      nothing and leaves nothing. */
  lemma NullLineLosesItsChunk(parse: Parser, a: string, b: string)
    requires NoNull(parse, Lines(a)) && Rest(a) != "" && IsNull(parse, Rest(a)) && NoNull(parse, Lines(b))
    ensures FeedAll(parse, Stream([], ""), [a + "\n" + b]) == Stream(Frames(parse, Lines(a)), "")
    ensures FeedAll(parse, Stream([], ""), [a + "\n", b])
      == Stream(Frames(parse, Lines(a)) + Frames(parse, Lines(b)), Rest(b))
    ensures FeedAll(parse, Stream([], ""), [a + "\n" + b]) == FeedAll(parse, Stream([], ""), [a + "\n", b])
      <==> Frames(parse, Lines(b)) == [] && Rest(b) == ""
  {
    ThrownWhole(parse, a, b);
    ThrownFront(parse, a, b);
    SameOrMore(Frames(parse, Lines(a)), Frames(parse, Lines(b)));
  }

  lemma ThrownWhole(parse: Parser, a: string, b: string)
    requires NoNull(parse, Lines(a)) && IsNull(parse, Rest(a))
    ensures FeedAll(parse, Stream([], ""), [a + "\n" + b]) == Stream(Frames(parse, Lines(a)), "")
  {
    var whole := a + "\n" + b;
    NewlineBetween(a, b);
    WalkToNull(parse, a, "\n" + b);
    FeedThrown(parse, whole, Frames(parse, Lines(a)));
    FeedOne(parse, Stream([], ""), whole);
  }

  lemma NewlineBetween(a: string, b: string)
    ensures a + "\n" + b == a + ("\n" + b)
  {}

  lemma ThrownFront(parse: Parser, a: string, b: string)
    requires NoNull(parse, Lines(a)) && IsNull(parse, Rest(a)) && NoNull(parse, Lines(b))
    ensures FeedAll(parse, Stream([], ""), [a + "\n", b])
      == Stream(Frames(parse, Lines(a)) + Frames(parse, Lines(b)), Rest(b))
  {
    var front := a + "\n";
    WalkToNull(parse, a, "\n");
    FeedThrown(parse, front, Frames(parse, Lines(a)));
    FeedTwo(parse, Stream([], ""), front, b);
    FeedSplit(parse, Frames(parse, Lines(a)), b);
  }

  lemma FeedThrown(parse: Parser, s: string, frames: seq<Parsed>)
    requires Walk(parse, s) == Outcome(frames, "", true)
    ensures Feed(parse, Stream([], ""), s) == Stream(frames, "")
  {
    NothingInFront(s);
    NoFramesInFront(frames);
  }

  lemma NothingInFront(s: string)
    ensures "" + s == s
  {}

  lemma FeedSplit(parse: Parser, frames: seq<Parsed>, b: string)
    requires NoNull(parse, Lines(b))
    ensures Feed(parse, Stream(frames, ""), b) == Stream(frames + Frames(parse, Lines(b)), Rest(b))
  {
    NothingInFront(b);
    WalkIsSplitting(parse, b);
  }

  lemma SameOrMore(a: seq<Parsed>, b: seq<Parsed>)
    ensures a == a + b <==> b == []
  {
    assert |a + b| == |a| + |b|;
  }

  /** The lines of a text after its first one. */
  lemma LinesAfterFirst(parse: Parser, a: string, k: nat)
    requires k == FindNewline(a, 0) < |a|
    ensures Lines(a) == [a[..k]] + Lines(a[k + 1..])
    ensures NoNull(parse, Lines(a)) ==> !IsNull(parse, a[..k]) && NoNull(parse, Lines(a[k + 1..]))
    ensures Frames(parse, Lines(a)) == Deliver(parse, a[..k]) + Frames(parse, Lines(a[k + 1..]))
    ensures Rest(a) == Rest(a[k + 1..])
  {
    var tail := Lines(a[k + 1..]);
    assert Lines(a)[0] == a[..k] && Lines(a)[1..] == tail;
    if NoNull(parse, Lines(a)) {
      forall i | 0 <= i < |tail| ensures !IsNull(parse, tail[i]) {
        assert tail[i] == Lines(a)[i + 1];
      }
    }
  }

  predicate StartsLine(b: string) { b != "" && b[0] == '\n' }

  lemma FindBefore(a: string, b: string)
    requires StartsLine(b)
    ensures FindNewline(a + b, 0) == FindNewline(a, 0)
  {
    FindInConcat(a, b);
    assert FindNewline(b, 0) == 0;
  }

  lemma CutInside(a: string, b: string, k: nat)
    requires k < |a|
    ensures (a + b)[..k] == a[..k] && (a + b)[k + 1..] == a[k + 1..] + b
  {}

  lemma CutAtEnd(a: string, b: string)
    requires b != ""
    ensures (a + b)[..|a|] == a
  {}

  /** A null line ends the chunk it is completed in, whatever follows. */
  lemma {:induction false} WalkToNull(parse: Parser, a: string, b: string)
    requires NoNull(parse, Lines(a)) && IsNull(parse, Rest(a)) && StartsLine(b)
    ensures Walk(parse, a + b) == Outcome(Frames(parse, Lines(a)), "", true)
    decreases |a|
  {
    var k := FindNewline(a, 0);
    FindBefore(a, b);
    if k < |a| {
      CutInside(a, b, k);
      LinesAfterFirst(parse, a, k);
      WalkToNull(parse, a[k + 1..], b);
    } else {
      CutAtEnd(a, b);
    }
  }

  // ---------- When the cut matters ----------

  /** What follows the first null line of a text, if it has one. */
  function AfterFirstNull(parse: Parser, s: string): Option<string>
    decreases |s|
  {
    var k := FindNewline(s, 0);
    if k == |s| then None else if IsNull(parse, s[..k]) then Some(s[k + 1..]) else AfterFirstNull(parse, s[k + 1..])
  }

  /** The stretch that starts here ends with a newline and dispatches something. */
  predicate Loud(parse: Parser, s: string, i: nat)
    requires i <= |s|
  {
    FindNewline(s, i) < |s| && Deliver(parse, s[i..FindNewline(s, i)]) != []
  }

  /** No stretch of the text up to its next newline dispatches anything, wherever it starts, and
      the text leaves nothing. */
  predicate Silent(parse: Parser, s: string) {
    && (s == "" || s[|s| - 1] == '\n')
    && forall i :: 0 <= i < |s| ==> !Loud(parse, s, i)
  }

  lemma FindInSuffix(s: string, n: nat, i: nat)
    requires n + i <= |s|
    ensures FindNewline(s[n..], i) == FindNewline(s, n + i) - n
  {
    var k := FindNewline(s[n..], i);
    assert forall j :: n + i <= j < n + k ==> s[j] == s[n..][j - n];
    assert n + k < |s| ==> s[n + k] == s[n..][k];
  }

  lemma SilentSuffix(parse: Parser, s: string, n: nat)
    requires Silent(parse, s) && n <= |s|
    ensures Silent(parse, s[n..])
  {
    var t := s[n..];
    forall i | 0 <= i < |t|
      ensures !Loud(parse, t, i)
    {
      FindInSuffix(s, n, i);
      assert FindNewline(t, i) < |t| ==> t[i..FindNewline(t, i)] == s[n + i..FindNewline(s, n + i)];
      assert !Loud(parse, s, n + i);
    }
  }

  lemma NoneIsNoNull(parse: Parser, s: string)
    ensures AfterFirstNull(parse, s).None? <==> NoNull(parse, Lines(s))
    ensures AfterFirstNull(parse, s).Some? <==> Walk(parse, s).threw
    decreases |s|
  {
    var k := FindNewline(s, 0);
    FirstLine(s);
    if k < |s| {
      NoneIsNoNull(parse, s[k + 1..]);
      assert Lines(s)[0] == s[..k] && Lines(s)[1..] == Lines(s[k + 1..]);
      var tail := Lines(s[k + 1..]);
      assert forall i :: 0 <= i < |tail| ==> tail[i] == Lines(s)[i + 1];
      assert forall i :: 0 < i < |Lines(s)| ==> Lines(s)[i] == tail[i - 1];
    }
  }

  /** A text that did not throw is continued by what follows it. */
  lemma {:induction false} WalkContinues(parse: Parser, text: string, more: string)
    requires !Walk(parse, text).threw
    ensures var o := Walk(parse, text);
      && Walk(parse, text + more).frames == o.frames + Walk(parse, o.rest + more).frames
      && AfterFirstNull(parse, text + more) == AfterFirstNull(parse, o.rest + more)
      && FindNewline(o.rest, 0) == |o.rest|
    decreases |text|
  {
    var k := FindNewline(text, 0);
    FindInConcat(text, more);
    if k < |text| {
      CutInside(text, more, k);
      WalkContinues(parse, text[k + 1..], more);
      var o := Walk(parse, text[k + 1..]);
      FramesAssociate(Deliver(parse, text[..k]), o.frames, Walk(parse, o.rest + more).frames);
    } else {
      NoFramesInFront(Walk(parse, text + more).frames);
    }
  }

  lemma NoFramesInFront(frames: seq<Parsed>)
    ensures [] + frames == frames
  {}

  lemma FramesAssociate(a: seq<Parsed>, b: seq<Parsed>, c: seq<Parsed>)
    ensures (a + b) + c == a + (b + c)
  {}

  /** A text that threw has lost a stretch that ends with it, and what follows it changes only that. */
  lemma {:induction false} WalkThrew(parse: Parser, text: string, more: string)
    requires Walk(parse, text).threw
    ensures Walk(parse, text + more).frames == Walk(parse, text).frames && Walk(parse, text).rest == ""
    ensures AfterFirstNull(parse, text).Some?
    ensures AfterFirstNull(parse, text + more) == Some(AfterFirstNull(parse, text).value + more)
    decreases |text|
  {
    var k := FindNewline(text, 0);
    FindInConcat(text, more);
    CutInside(text, more, k);
    if !IsNull(parse, text[..k]) { WalkThrew(parse, text[k + 1..], more); }
  }

  lemma SilentTail(parse: Parser, text: string, more: string, n: nat)
    requires Silent(parse, text + more) && n <= |text|
    ensures Silent(parse, text[n..] + more)
  {
    SilentSuffix(parse, text + more, n);
    assert (text + more)[n..] == text[n..] + more;
  }

  lemma SilentLine(parse: Parser, text: string, more: string)
    requires Silent(parse, text + more) && FindNewline(text, 0) < |text|
    ensures Deliver(parse, text[..FindNewline(text, 0)]) == []
  {
    FindInConcat(text, more);
    assert (text + more)[0..FindNewline(text, 0)] == text[..FindNewline(text, 0)];
    assert !Loud(parse, text + more, 0);
  }

  /** Walking the front of a silent text dispatches nothing and leaves a stretch that ends with it. */
  lemma {:induction false} WalkOfSilent(parse: Parser, text: string, more: string) returns (n: nat)
    requires Silent(parse, text + more)
    ensures n <= |text| && Walk(parse, text).frames == [] && Walk(parse, text).rest == text[n..]
    decreases |text|
  {
    var k := FindNewline(text, 0);
    if k == |text| {
      n := 0;
    } else if IsNull(parse, text[..k]) {
      n := |text|;
    } else {
      SilentLine(parse, text, more);
      SilentTail(parse, text, more, k + 1);
      var m := WalkOfSilent(parse, text[k + 1..], more);
      n := k + 1 + m;
      SuffixOfSuffix(text, k + 1, m);
    }
  }

  /** One chunk of a silent stream dispatches nothing and leaves the rest of it silent. */
  lemma SilentChunk(parse: Parser, x: Stream, chunk: string, more: string)
    requires Silent(parse, (x.rest + chunk) + more)
    ensures var y := Feed(parse, x, chunk);
      y.frames == x.frames && FindNewline(y.rest, 0) == |y.rest| && Silent(parse, y.rest + more)
  {
    var n := WalkOfSilent(parse, x.rest + chunk, more);
    SilentTail(parse, x.rest + chunk, more, n);
    RestHasNoNewline(parse, x.rest + chunk);
  }

  /** Once a null line has thrown, a silent stream stays silent however it is cut. */
  lemma {:induction false} SilentStaysSilent(parse: Parser, x: Stream, chunks: seq<string>)
    requires Silent(parse, x.rest + Concat(chunks)) && FindNewline(x.rest, 0) == |x.rest|
    ensures FeedAll(parse, x, chunks) == Stream(x.frames, "")
    decreases |chunks|
  {
    if chunks == [] {
      assert x.rest + "" == x.rest;
    } else {
      assert x.rest + Concat(chunks) == x.rest + chunks[0] + Concat(chunks[1..]);
      SilentChunk(parse, x, chunks[0], Concat(chunks[1..]));
      SilentStaysSilent(parse, Feed(parse, x, chunks[0]), chunks[1..]);
    }
  }

  /** However a stream is cut whose first null line is followed by silence, it dispatches what the
      whole in one chunk dispatches, and leaves nothing. */
  lemma {:induction false} SilenceHidesTheCut(parse: Parser, x: Stream, chunks: seq<string>)
    requires FindNewline(x.rest, 0) == |x.rest|
    requires var after := AfterFirstNull(parse, x.rest + Concat(chunks)); after.Some? && Silent(parse, after.value)
    ensures FeedAll(parse, x, chunks) == Stream(x.frames + Walk(parse, x.rest + Concat(chunks)).frames, "")
    decreases |chunks|
  {
    assert chunks == [] ==> x.rest + Concat(chunks) == x.rest;
    if chunks != [] {
      var text, more := x.rest + chunks[0], Concat(chunks[1..]);
      assert x.rest + Concat(chunks) == text + more;
      var o, y := Walk(parse, text), Feed(parse, x, chunks[0]);
      if o.threw {
        WalkThrew(parse, text, more);
        var lost := AfterFirstNull(parse, text).value;
        SilentSuffix(parse, lost + more, |lost|);
        assert (lost + more)[|lost|..] == more && "" + more == more;
        SilentStaysSilent(parse, y, chunks[1..]);
      } else {
        WalkContinues(parse, text, more);
        SilenceHidesTheCut(parse, y, chunks[1..]);
        FramesAssociate(x.frames, o.frames, Walk(parse, o.rest + more).frames);
      }
    }
  }

  lemma {:induction false} FeedKeepsFrames(parse: Parser, x: Stream, chunks: seq<string>)
    ensures x.frames <= FeedAll(parse, x, chunks).frames
    decreases |chunks|
  {
    if chunks != [] { FeedKeepsFrames(parse, Feed(parse, x, chunks[0]), chunks[1..]); }
  }

  lemma FeedOne(parse: Parser, x: Stream, chunk: string)
    ensures FeedAll(parse, x, [chunk]) == Feed(parse, x, chunk)
  {
    assert [chunk][1..] == [];
  }

  lemma FeedTwo(parse: Parser, x: Stream, a: string, b: string)
    ensures FeedAll(parse, x, [a, b]) == Feed(parse, Feed(parse, x, a), b) && Concat([a, b]) == a + b
  {
    assert [a, b][1..] == [b] && [b][1..] == [];
    assert Concat([b]) == b + "" == b;
    FeedOne(parse, Feed(parse, x, a), b);
  }

  /** A last character that comes alone is left, unless it is a newline. */
  lemma LastCharacterRemains(parse: Parser, x: Stream, init: string, last: string)
    requires |last| == 1 && last[0] != '\n'
    ensures |FeedAll(parse, x, [init, last]).rest| > 0
  {
    var y := Feed(parse, x, init);
    RestHasNoNewline(parse, x.rest + init);
    FindInConcat(y.rest, last);
    FeedTwo(parse, x, init, last);
    assert Feed(parse, y, last).rest == y.rest + last;
  }

  lemma {:induction false} RestHasNoNewline(parse: Parser, s: string)
    ensures FindNewline(Walk(parse, s).rest, 0) == |Walk(parse, s).rest|
    decreases |s|
  {
    var k := FindNewline(s, 0);
    if k < |s| && !IsNull(parse, s[..k]) { RestHasNoNewline(parse, s[k + 1..]); }
  }

  lemma {:induction false} AfterIsASuffix(parse: Parser, s: string)
    requires AfterFirstNull(parse, s).Some?
    ensures |AfterFirstNull(parse, s).value| + FindNewline(s, 0) < |s|
    ensures AfterFirstNull(parse, s).value == s[|s| - |AfterFirstNull(parse, s).value|..]
    decreases |s|
  {
    var k := FindNewline(s, 0);
    if !IsNull(parse, s[..k]) {
      AfterIsASuffix(parse, s[k + 1..]);
      var n := |AfterFirstNull(parse, s).value|;
      SuffixOfSuffix(s, k + 1, |s| - (k + 1) - n);
      assert s[k + 1..][|s[k + 1..]| - n..] == s[|s| - n..];
    }
  }

  lemma SuffixOfSuffix(s: string, j: nat, m: nat)
    requires j + m <= |s|
    ensures s[j..][m..] == s[j + m..]
  {}

  /** What comes at least as far as the first null line throws there. */
  lemma ThrowsBefore(parse: Parser, s: string, n: nat)
    requires AfterFirstNull(parse, s).Some? && |s| - |AfterFirstNull(parse, s).value| <= n <= |s|
    ensures Walk(parse, s[..n]) == Outcome(Walk(parse, s).frames, "", true)
  {
    assert s[..n] + s[n..] == s;
    if Walk(parse, s[..n]).threw {
      WalkThrew(parse, s[..n], s[n..]);
    } else {
      NotYetNull(parse, s[..n], s[n..]);
    }
  }

  /** While nothing threw, the first null line is still to be completed. */
  lemma NotYetNull(parse: Parser, text: string, more: string)
    requires !Walk(parse, text).threw && AfterFirstNull(parse, text + more).Some?
    ensures |AfterFirstNull(parse, text + more).value| < |more|
  {
    var rest := Walk(parse, text).rest;
    WalkContinues(parse, text, more);
    AfterIsASuffix(parse, rest + more);
    FindInConcat(rest, more);
  }

  /** A complete line that dispatches something, alone. */
  lemma LineAlone(parse: Parser, line: string)
    requires FindNewline(line, 0) == |line| && Deliver(parse, line) != []
    ensures Walk(parse, line + "\n") == Outcome(Deliver(parse, line), "", false)
  {
    FindInConcat(line, "\n");
    var s := line + "\n";
    assert s[..|line|] == line && s[|line| + 1..] == "";
    assert Deliver(parse, line) + [] == Deliver(parse, line);
  }

  lemma FeedThree(parse: Parser, x: Stream, a: string, b: string, c: string)
    ensures FeedAll(parse, x, [a, b, c]) == Feed(parse, Feed(parse, Feed(parse, x, a), b), c)
    ensures Concat([a, b, c]) == a + (b + c)
  {
    assert [a, b, c][1..] == [b, c];
    FeedTwo(parse, Feed(parse, x, a), b, c);
  }

  /** A stretch that dispatches something is dispatched if the chunk with the null line ends where
      it starts. */
  lemma StretchIsDispatched(parse: Parser, before: string, line: string, end: string)
    requires Walk(parse, before).threw && Walk(parse, before).rest == ""
    requires FindNewline(line, 0) == |line| && Deliver(parse, line) != []
    ensures |FeedAll(parse, Stream([], ""), [before, line + "\n", end]).frames| > |Walk(parse, before).frames|
  {
    var x := Stream([], "");
    assert "" + before == before && "" + (line + "\n") == line + "\n";
    LineAlone(parse, line);
    FeedThree(parse, x, before, line + "\n", end);
  }

  lemma LoudStretch(parse: Parser, s: string, i: nat) returns (chunks: seq<string>)
    requires var after := AfterFirstNull(parse, s); after.Some? && i <= |after.value| && Loud(parse, after.value, i)
    ensures Concat(chunks) == s && FeedAll(parse, Stream([], ""), chunks).frames != Walk(parse, s).frames
  {
    var b := AfterFirstNull(parse, s).value;
    AfterIsASuffix(parse, s);
    chunks := StretchOf(parse, s, |s| - |b|, b, i, FindNewline(b, i));
  }

  lemma StretchOf(parse: Parser, s: string, m: nat, b: string, i: nat, k: nat) returns (chunks: seq<string>)
    requires AfterFirstNull(parse, s) == Some(b) && m <= |s| && b == s[m..]
    requires i <= |b| && k == FindNewline(b, i) < |b| && Deliver(parse, b[i..k]) != []
    ensures Concat(chunks) == s && FeedAll(parse, Stream([], ""), chunks).frames != Walk(parse, s).frames
  {
    var before, line, end := s[..m + i], b[i..k], s[m + k + 1..];
    ThrowsBefore(parse, s, m + i);
    NoNewlineInside(b, i, k);
    PiecesOf(s, m, i, k);
    chunks := Interrupted(parse, before, line, end);
  }

  /** The chunks that end where the loud stretch starts and where it ends. */
  lemma Interrupted(parse: Parser, before: string, line: string, end: string) returns (chunks: seq<string>)
    requires Walk(parse, before).threw && Walk(parse, before).rest == ""
    requires FindNewline(line, 0) == |line| && Deliver(parse, line) != []
    ensures Concat(chunks) == before + ((line + "\n") + end)
    ensures |FeedAll(parse, Stream([], ""), chunks).frames| > |Walk(parse, before).frames|
  {
    StretchIsDispatched(parse, before, line, end);
    FeedThree(parse, Stream([], ""), before, line + "\n", end);
    chunks := [before, line + "\n", end];
  }

  lemma NoNewlineInside(s: string, i: nat, k: nat)
    requires i <= |s| && k == FindNewline(s, i)
    ensures FindNewline(s[i..k], 0) == |s[i..k]|
  {
    assert forall j :: 0 <= j < k - i ==> s[i..k][j] == s[i + j];
  }

  lemma PiecesOf(s: string, m: nat, i: nat, k: nat)
    requires m <= |s| && i <= k < |s| - m && s[m..][k] == '\n'
    ensures s == s[..m + i] + ((s[m..][i..k] + "\n") + s[m + k + 1..])
  {}

  ghost predicate CutsAgree(parse: Parser, s: string) {
    forall chunks :: Concat(chunks) == s ==> FeedAll(parse, Stream([], ""), chunks) == FeedAll(parse, Stream([], ""), [s])
  }

  /** Fragmentation is invisible, for any stream, exactly when it has no null line, or silence
      follows its first one. Silence takes more than lines that dispatch nothing: a chunk that
      ends inside a line has its front lost with the null line, and what is left of the line
      arrives as a line of its own. */
  lemma CutsAgreeExactly(parse: Parser, s: string)
    ensures CutsAgree(parse, s) <==>
      NoNull(parse, Lines(s)) || (AfterFirstNull(parse, s).Some? && Silent(parse, AfterFirstNull(parse, s).value))
  {
    NoneIsNoNull(parse, s);
    FeedWhole(parse, s);
    var x, after := Stream([], ""), AfterFirstNull(parse, s);
    if after.None? {
      forall chunks | Concat(chunks) == s ensures FeedAll(parse, x, chunks) == FeedAll(parse, x, [s]) {
        AnyTwoCutsAgree(parse, chunks, [s]);
      }
    } else if Silent(parse, after.value) {
      forall chunks | Concat(chunks) == s ensures FeedAll(parse, x, chunks) == FeedAll(parse, x, [s]) {
        assert "" + Concat(chunks) == s && "" + Concat([s]) == s;
        SilenceHidesTheCut(parse, x, chunks);
        SilenceHidesTheCut(parse, x, [s]);
      }
    } else {
      LoudCutsDisagree(parse, s);
    }
  }

  lemma FeedWhole(parse: Parser, s: string)
    ensures Concat([s]) == s
    ensures FeedAll(parse, Stream([], ""), [s]) == Stream(Walk(parse, s).frames, Walk(parse, s).rest)
  {
    FeedOne(parse, Stream([], ""), s);
    assert "" + s == s && Concat([s]) == s + "" == s;
  }

  lemma LoudCutsDisagree(parse: Parser, s: string)
    requires AfterFirstNull(parse, s).Some? && !Silent(parse, AfterFirstNull(parse, s).value)
    ensures !CutsAgree(parse, s)
  {
    var b := AfterFirstNull(parse, s).value;
    if b != "" && b[|b| - 1] != '\n' {
      LastCutDisagrees(parse, s);
    } else {
      var i :| 0 <= i < |b| && Loud(parse, b, i);
      var chunks := LoudStretch(parse, s, i);
      FeedWhole(parse, s);
      assert Concat(chunks) == s;
    }
  }

  /** What a text with a null line leaves behind it, its last character leaves when it comes alone. */
  lemma LastCutDisagrees(parse: Parser, s: string)
    requires AfterFirstNull(parse, s).Some?
    requires var b := AfterFirstNull(parse, s).value; b != "" && b[|b| - 1] != '\n'
    ensures !CutsAgree(parse, s)
  {
    var init, last := s[..|s| - 1], s[|s| - 1..];
    AfterIsASuffix(parse, s);
    FeedWhole(parse, s);
    ThrowsBefore(parse, s, |s|);
    assert s[..|s|] == s;
    LastCharacterRemains(parse, Stream([], ""), init, last);
    FeedTwo(parse, Stream([], ""), init, last);
    assert init + last == s;
    assert Concat([init, last]) == s;
  }

  lemma OneLine(line: string)
    requires FindNewline(line, 0) == |line|
    ensures Lines(line + "\n") == [line] && Rest(line + "\n") == ""
  {
    FindInConcat(line, "\n");
    var s := line + "\n";
    assert s[..|line|] == line && s[|line| + 1..] == "";
    FirstLine(s);
    assert [line] + [] == [line];
  }

  lemma NullFirst(parse: Parser, b: string)
    requires IsNull(parse, "null")
    ensures AfterFirstNull(parse, "null\n" + b) == Some(b)
  {
    var s := "null\n" + b;
    assert FindNewline("null", 0) == 4 && FindNewline("\n" + b, 0) == 0;
    assert s == "null" + ("\n" + b);
    FindInConcat("null", "\n" + b);
    assert s[..4] == "null" && s[5..] == b;
  }

  /** So a line nobody would act on can still do harm: its back part is dispatched when the chunk
      with the null line ends inside it. Here what follows the null line dispatches nothing and
      leaves nothing, and yet two cuts disagree. */
  lemma PartOfALineIsDispatched(parse: Parser, front: string, back: string)
    requires IsNull(parse, "null") && FindNewline(front + back, 0) == |front + back|
    requires Deliver(parse, front + back) == [] && back != "" && Deliver(parse, back) != []
    ensures var b := front + back + "\n";
      !CutsAgree(parse, "null\n" + b) && AfterFirstNull(parse, "null\n" + b) == Some(b)
        && Frames(parse, Lines(b)) == [] && Rest(b) == ""
  {
    var b := front + back + "\n";
    NullFirst(parse, b);
    OneLine(front + back);
    assert [front + back][1..] == [] && Frames(parse, []) == [];
    FindInConcat(front + back, "\n");
    FindInSuffix(b, 0, |front|);
    assert FindNewline(b, |front|) == |front + back| && b[|front|..|front + back|] == back;
    assert Loud(parse, b, |front|);
    LoudCutsDisagree(parse, "null\n" + b);
  }

  // ---------- The client ----------

  lemma {:induction false} ConcatAppends(chunks: seq<string>, piece: string)
    ensures Concat(chunks + [piece]) == Concat(chunks) + piece
  {
    if chunks == [] {
      assert (chunks + [piece])[1..] == [];
    } else {
      assert (chunks + [piece])[1..] == chunks[1..] + [piece];
      ConcatAppends(chunks[1..], piece);
    }
  }

  /** The framing fields of the client; `dispatched` is what its handlers were given. The two
      counters are the characters searched for newlines and the characters joined into lines. */
  class Client {
    const parse: Parser
    var child: Option<nat>
    var stdoutChunks: seq<string>
    var dispatched: seq<Parsed>
    var scanned: nat
    var joined: nat

    constructor (parse: Parser)
      ensures this.parse == parse && child == None && stdoutChunks == [] && dispatched == []
      ensures scanned == 0 && joined == 0 && Valid()
    {
      this.parse := parse;
      child, stdoutChunks, dispatched, scanned, joined := None, [], [], 0, 0;
    }

    function Partial(): string
      reads `stdoutChunks
    {
      Concat(stdoutChunks)
    }

    /** The partial frame holds no newline. */
    predicate Valid()
      reads `stdoutChunks
    {
      FindNewline(Partial(), 0) == |Partial()|
    }

    method Start(newChild: nat)
      modifies this
      ensures Valid()
      ensures child == Some(newChild) && Partial() == ""
      ensures dispatched == old(dispatched) && scanned == old(scanned) && joined == old(joined)
    {
      child := Some(newChild);
      stdoutChunks := [];
    }

    method HandleExit(exited: nat)
      requires Valid()
      modifies this
      ensures Valid()
      ensures child == (if old(child) == Some(exited) then None else old(child))
      ensures Partial() == (if old(child) == Some(exited) then "" else old(Partial()))
      ensures dispatched == old(dispatched) && scanned == old(scanned) && joined == old(joined)
    {
      if child != Some(exited) { return; }
      stdoutChunks := [];
      child := None;
    }

    /** `indexOf`: the search reads up to and including the newline it finds. */
    method IndexOfNewline(text: string, offset: nat) returns (k: nat)
      requires offset <= |text|
      modifies this`scanned
      ensures k == FindNewline(text, offset)
      ensures scanned == old(scanned) + (k - offset) + (if k < |text| then 1 else 0)
    {
      k := offset;
      while k < |text| && text[k] != '\n'
        invariant offset <= k <= |text|
        invariant FindNewline(text, offset) == FindNewline(text, k)
        invariant scanned == old(scanned) + (k - offset)
      {
        k := k + 1;
        scanned := scanned + 1;
      }
      if k < |text| { scanned := scanned + 1; }
    }

    /** The newline arrived: join the pieces, and dispatch the line unless it is blank or invalid. */
    method CompleteLine(piece: string) returns (threw: bool)
      modifies this`stdoutChunks, this`dispatched, this`joined
      ensures Partial() == ""
      ensures threw == IsNull(parse, old(Partial()) + piece)
      ensures dispatched == old(dispatched) + Deliver(parse, old(Partial()) + piece)
      ensures joined == old(joined) + |old(Partial())| + |piece|
    {
      ConcatAppends(stdoutChunks, piece);
      stdoutChunks := stdoutChunks + [piece];
      var joint := Concat(stdoutChunks);
      joined := joined + |joint|;
      stdoutChunks := [];
      var line := Trim(joint);
      if line == "" { return false; }
      var message := parse(line);
      if message.Null? { return true; }
      if message.Response? || message.Request? || message.Notification? {
        dispatched := dispatched + [message];
      }
      return false;
    }

    /** The stretch of a chunk up to its next newline, in a chunk of which some lines are done. */
    method TakeLine(text: string, offset: nat, newline: nat, ghost whole: string, ghost lines: seq<string>,
                    ghost before: seq<Parsed>)
      returns (threw: bool, ghost line: string)
      requires Valid() && offset <= newline < |text| && newline == FindNewline(text, offset)
      requires Complete(parse, lines) && dispatched == before + Frames(parse, lines)
      requires whole == Join(lines) + (Partial() + text[offset..])
      modifies this`stdoutChunks, this`dispatched, this`joined
      ensures Partial() == "" && line == old(Partial()) + text[offset..newline]
      ensures threw ==> dispatched == before + Frames(parse, lines) && Throws(parse, whole, lines, line, text[newline + 1..])
      ensures !threw ==>
        && Complete(parse, lines + [line]) && dispatched == before + Frames(parse, lines + [line])
        && whole == Join(lines + [line]) + (Partial() + text[newline + 1..])
      ensures joined == old(joined) + |old(Partial())| + (newline - offset)
    {
      line := Partial() + text[offset..newline];
      PieceHasNoNewline(Partial(), text, offset, newline);
      Regroup(Partial(), text, offset, newline);
      threw := CompleteLine(text[offset..newline]);
      if !threw { LineCompleted(parse, lines, line, text[newline + 1..]); }
    }

    /** The loop over the lines a chunk of the current child completes: `lines` are done, and a
        line that throws is followed by what the chunk loses. */
    method SplitChunk(text: string) returns (threw: bool, ghost lines: seq<string>, ghost line: string, ghost lost: string)
      requires Valid()
      modifies this`stdoutChunks, this`dispatched, this`scanned, this`joined
      ensures Valid() && Complete(parse, lines) && dispatched == old(dispatched) + Frames(parse, lines)
      ensures threw ==> Partial() == "" && Throws(parse, old(Partial()) + text, lines, line, lost)
      ensures !threw ==> old(Partial()) + text == Join(lines) + Partial()
      ensures scanned <= old(scanned) + |text|
      ensures joined + |Partial()| <= old(joined) + |old(Partial())| + |text|
    {
      threw, lines, line, lost := false, [], "", "";
      ghost var whole := Partial() + text;
      var offset := 0;
      var newline := IndexOfNewline(text, 0);
      StartOfChunk(Partial(), text);
      while newline < |text|
        invariant Valid() && !threw
        invariant offset <= newline <= |text| && newline == FindNewline(text, offset)
        invariant Complete(parse, lines) && dispatched == old(dispatched) + Frames(parse, lines)
        invariant whole == Join(lines) + (Partial() + text[offset..])
        invariant scanned == old(scanned) + newline + (if newline < |text| then 1 else 0)
        invariant joined + |Partial()| <= old(joined) + |old(Partial())| + offset
        decreases |text| - offset
      {
        threw, line := TakeLine(text, offset, newline, whole, lines, old(dispatched));
        offset := newline + 1;
        if threw {
          lost := text[offset..];
          return;
        }
        lines := lines + [line];
        newline := IndexOfNewline(text, offset);
      }
      KeepRest(text, offset);
    }

    /** One chunk from some child. From the current one it does what `Walk` says to the partial
        frame and the chunk; from any other it does nothing. Each character of the chunk is
        searched at most once, and each is joined into a line at most once, ever. */
    method HandleStdout(text: string, from: nat) returns (threw: bool)
      requires Valid()
      modifies this
      ensures Valid() && child == old(child)
      ensures old(child) != Some(from) ==>
        !threw && Partial() == old(Partial()) && dispatched == old(dispatched)
          && scanned == old(scanned) && joined == old(joined)
      ensures old(child) == Some(from) ==>
        var o := Walk(parse, old(Partial()) + text);
        threw == o.threw && Partial() == o.rest && dispatched == old(dispatched) + o.frames
      ensures scanned <= old(scanned) + |text|
      ensures joined + |Partial()| <= old(joined) + |old(Partial())| + |text|
    {
      if child != Some(from) { return false; }
      ghost var whole := Partial() + text;
      ghost var lines, line, lost;
      threw, lines, line, lost := SplitChunk(text);
      if threw { WalkToThrow(parse, whole, lines, line, lost); } else { WalkToRest(parse, whole, lines, Partial()); }
    }

    method KeepRest(text: string, offset: nat)
      requires Valid() && offset <= |text| && FindNewline(text, offset) == |text|
      modifies this`stdoutChunks
      ensures Valid() && Partial() == old(Partial()) + text[offset..]
    {
      PieceHasNoNewline(Partial(), text, offset, |text|);
      assert text[offset..|text|] == text[offset..];
      if offset < |text| {
        ConcatAppends(stdoutChunks, text[offset..]);
        stdoutChunks := stdoutChunks + [text[offset..]];
      } else {
        assert Partial() + text[offset..] == Partial();
      }
    }
  }

  function WalkLine(parse: Parser, line: string, tail: Outcome): Outcome {
    if IsNull(parse, line) then Outcome([], "", true) else tail.(frames := Deliver(parse, line) + tail.frames)
  }

  lemma WalkFirst(parse: Parser, line: string, tail: string)
    requires FindNewline(line, 0) == |line|
    ensures Walk(parse, line + "\n" + tail) == WalkLine(parse, line, Walk(parse, tail))
  {
    var s := line + "\n" + tail;
    assert s == line + ("\n" + tail);
    FindInConcat(line, "\n" + tail);
    assert s[..|line|] == line;
    assert s[|line| + 1..] == tail;
  }

  lemma PieceHasNoNewline(partial: string, text: string, offset: nat, newline: nat)
    requires FindNewline(partial, 0) == |partial|
    requires offset <= newline <= |text| && newline == FindNewline(text, offset)
    ensures FindNewline(partial + text[offset..newline], 0) == |partial| + (newline - offset)
  {
    var line := partial + text[offset..newline];
    forall i | 0 <= i < |line|
      ensures line[i] != '\n'
    {
      if i >= |partial| { assert line[i] == text[offset + (i - |partial|)]; }
    }
  }

  lemma Regroup(partial: string, text: string, offset: nat, newline: nat)
    requires offset <= newline < |text| && text[newline] == '\n'
    ensures partial + text[offset..] == partial + text[offset..newline] + "\n" + text[newline + 1..]
  {
    assert text[offset..] == text[offset..newline] + "\n" + text[newline + 1..];
  }

  function Join(lines: seq<string>): string { if lines == [] then "" else lines[0] + "\n" + Join(lines[1..]) }

  /** Lines a chunk completed without throwing. */
  predicate Complete(parse: Parser, lines: seq<string>) {
    forall i :: 0 <= i < |lines| ==> FindNewline(lines[i], 0) == |lines[i]| && !IsNull(parse, lines[i])
  }

  lemma {:induction false} JoinAppends(lines: seq<string>, line: string)
    ensures Join(lines + [line]) == Join(lines) + line + "\n"
  {
    if lines == [] {
      assert (lines + [line])[1..] == [];
    } else {
      assert (lines + [line])[1..] == lines[1..] + [line];
      JoinAppends(lines[1..], line);
    }
  }

  lemma StartOfChunk(partial: string, text: string)
    ensures partial + text == Join([]) + (partial + text[0..])
  {
    assert text[0..] == text;
  }

  lemma LineCompleted(parse: Parser, lines: seq<string>, line: string, tail: string)
    ensures Join(lines) + (line + "\n" + tail) == Join(lines + [line]) + ("" + tail)
    ensures Frames(parse, lines + [line]) == Frames(parse, lines) + Deliver(parse, line)
  {
    JoinAppends(lines, line);
    Rejoin(Join(lines), line, tail);
    FramesOfLast(parse, lines, line);
  }

  lemma Rejoin(joined: string, line: string, tail: string)
    ensures joined + (line + "\n" + tail) == (joined + line + "\n") + ("" + tail)
  {}

  lemma FramesOfLast(parse: Parser, lines: seq<string>, line: string)
    ensures Frames(parse, lines + [line]) == Frames(parse, lines) + Deliver(parse, line)
  {
    FramesOfConcat(parse, lines, [line]);
    assert [line][1..] == [];
  }

  lemma {:induction false} WalkToRest(parse: Parser, whole: string, lines: seq<string>, rest: string)
    requires Complete(parse, lines) && FindNewline(rest, 0) == |rest| && whole == Join(lines) + rest
    ensures Walk(parse, whole) == Outcome(Frames(parse, lines), rest, false)
    decreases |lines|
  {
    if lines == [] {
      assert whole == rest;
    } else {
      var tail := Join(lines[1..]) + rest;
      assert whole == lines[0] + "\n" + tail;
      WalkFirst(parse, lines[0], tail);
      WalkToRest(parse, tail, lines[1..], rest);
    }
  }

  /** The text starts with lines that are done and then one that throws. */
  predicate Throws(parse: Parser, whole: string, lines: seq<string>, line: string, rest: string) {
    && Complete(parse, lines) && FindNewline(line, 0) == |line| && IsNull(parse, line)
    && whole == Join(lines) + (line + "\n" + rest)
  }

  lemma {:induction false} WalkToThrow(parse: Parser, whole: string, lines: seq<string>, line: string, rest: string)
    requires Throws(parse, whole, lines, line, rest)
    ensures Walk(parse, whole) == Outcome(Frames(parse, lines), "", true)
    decreases |lines|
  {
    if lines == [] {
      assert whole == line + "\n" + rest;
      WalkFirst(parse, line, rest);
    } else {
      var tail := Join(lines[1..]) + (line + "\n" + rest);
      assert whole == lines[0] + "\n" + tail;
      WalkFirst(parse, lines[0], tail);
      WalkToThrow(parse, tail, lines[1..], line, rest);
    }
  }

  // ---------- Child replacement ----------

  datatype Event = Data(from: nat, text: string) | Started(child: nat) | Exited(child: nat)

  /** The fields of the client as a value. */
  datatype State = State(child: Option<nat>, stream: Stream)

  function OnEvent(parse: Parser, s: State, e: Event): State {
    match e
    case Data(from, text) => if s.child == Some(from) then s.(stream := Feed(parse, s.stream, text)) else s
    case Started(c) => State(Some(c), s.stream.(rest := ""))
    case Exited(c) => if s.child == Some(c) then State(None, s.stream.(rest := "")) else s
  }

  function OnEvents(parse: Parser, s: State, events: seq<Event>): State
    decreases |events|
  {
    if events == [] then s else OnEvents(parse, OnEvent(parse, s, events[0]), events[1..])
  }

  /** The chunks one child sent. */
  function ChunksOf(events: seq<Event>, c: nat): seq<string> {
    if events == [] then []
    else if events[0].Data? && events[0].from == c then [events[0].text] + ChunksOf(events[1..], c)
    else ChunksOf(events[1..], c)
  }

  /** A new child starts clean: whatever partial frame its predecessor left, and whatever late
      data and exits of other children arrive while it runs, what is dispatched from its start
      on is what its own chunks dispatch alone. */
  lemma {:induction false} LateDataIsIgnored(parse: Parser, s: State, events: seq<Event>, c: nat, frames: seq<Parsed>, x: Stream)
    requires s.child == Some(c) && s.stream == Stream(frames + x.frames, x.rest)
    requires forall e :: e in events ==> !e.Started? && e != Exited(c)
    ensures var y := FeedAll(parse, x, ChunksOf(events, c));
      OnEvents(parse, s, events) == State(Some(c), Stream(frames + y.frames, y.rest))
    decreases |events|
  {
    if events != [] {
      var t := OnEvent(parse, s, events[0]);
      assert events[0] in events;
      if events[0].Data? && events[0].from == c {
        var text := events[0].text;
        assert ([text] + ChunksOf(events[1..], c))[1..] == ChunksOf(events[1..], c);
        assert t.stream == Stream(frames + Feed(parse, x, text).frames, Feed(parse, x, text).rest);
        LateDataIsIgnored(parse, t, events[1..], c, frames, Feed(parse, x, text));
      } else {
        LateDataIsIgnored(parse, t, events[1..], c, frames, x);
      }
    }
  }

  lemma NextChildStartsClean(parse: Parser, s: State, c: nat, events: seq<Event>)
    requires forall e :: e in events ==> !e.Started? && e != Exited(c)
    requires NoNull(parse, Lines(Concat(ChunksOf(events, c))))
    ensures var all := Concat(ChunksOf(events, c));
      OnEvents(parse, OnEvent(parse, s, Started(c)), events)
        == State(Some(c), Stream(s.stream.frames + Frames(parse, Lines(all)), Rest(all)))
  {
    var t := OnEvent(parse, s, Started(c));
    assert s.stream.frames + [] == s.stream.frames;
    LateDataIsIgnored(parse, t, events, c, s.stream.frames, Stream([], ""));
    AnyTwoCutsAgree(parse, ChunksOf(events, c), ChunksOf(events, c));
  }
}
