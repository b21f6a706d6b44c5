/** Split invariance: how the bytes of a stream are cut into `feed` calls does not
    matter, provided every line the parser takes ends at the first LF it sees. */
module HttpSplit {
  import opened Text
  import opened HttpParser

  // ----- lines -----

  /** The line found in s ends at the first LF of s. It does not when a bare LF
      stands before the first CRLF. */
  predicate EndsAtFirstLf(s: string) {
    var l := FindLine(s);
    l.Line? ==> l.end + l.width - 1 == Find(s, '\n')
  }

  lemma FindPrefix(s: string, k: nat, c: char)
    requires k <= |s|
    ensures Find(s[..k], c) == if Find(s, c) < k then Find(s, c) else k
  {
    assert forall i :: 0 <= i < k ==> s[..k][i] == s[i];
  }

  lemma LineOfPrefix(s: string, k: nat)
    requires k <= |s|
    requires EndsAtFirstLf(s)
    requires FindLine(s[..k]).Line?
    ensures FindLine(s[..k]) == FindLine(s)
  {
    var t := s[..k];
    FindPrefix(s, k, '\n');
    var lf := Find(s, '\n');
    var p, q := FindCrlf(s), FindCrlf(t);
    assert forall i: nat :: i + 1 < k ==> CrlfAt(t, i) == CrlfAt(s, i);
    assert p < |s| ==> CrlfAt(t, p);
    assert q < |t| ==> CrlfAt(s, q);
  }

  /** The exact condition at the level of one line: however early the buffer is
      looked at, the same line is found or none, if and only if the line ends at
      the first LF. */
  lemma LineIsCutInvariant(s: string)
    ensures (forall k: nat :: k <= |s| && FindLine(s[..k]).Line? ==> FindLine(s[..k]) == FindLine(s))
            <==> EndsAtFirstLf(s)
  {
    if EndsAtFirstLf(s) {
      forall k: nat | k <= |s| && FindLine(s[..k]).Line? ensures FindLine(s[..k]) == FindLine(s) {
        LineOfPrefix(s, k);
      }
    } else {
      var k := Find(s, '\n') + 1;
      FindPrefix(s, k, '\n');
      assert s[..k][k - 1] == '\n';
      assert FindLine(s[..k]).Line?;
      assert FindLine(s[..k]).end + FindLine(s[..k]).width <= k;
    }
  }

  // ----- one step -----

  /** The step takes a chunk whose size line strtol reads as negative; what it
      appends then depends on how many bytes have arrived. */
  predicate Overruns(p: Parser) {
    && p.m.phase == Body && p.m.chunked && !p.m.inTrailer && FindLine(p.buffer).Line?
    && var l := FindLine(p.buffer);
       var size := ChunkSize(p.buffer[..l.end]);
       && size < 0 && FrameLength(l, size) <= |p.buffer|
       && SizeSum(|p.m.body|, size) <= p.m.maxBody
  }

  predicate Aligned(p: Parser) {
    (ReadsLine(p.m) ==> EndsAtFirstLf(p.buffer)) && !Overruns(p)
  }

  /** Every step of the run from p is aligned. */
  predicate AlignedRun(p: Parser)
    decreases |p.buffer|, Rank(p), Room(p)
  {
    Aligned(p) && (Step(p) == p || AlignedRun(Step(p)))
  }

  lemma AlignedOn(p: Parser)
    requires Aligned(p) && (Step(p) == p || AlignedRun(Step(p)))
    ensures AlignedRun(p)
  {
    hide Aligned, Step;
  }

  lemma SliceAppend(s: string, x: string, k: nat)
    requires k <= |s|
    ensures (s + x)[..k] == s[..k] && (s + x)[k..] == s[k..] + x
  {
  }

  lemma AlignedPrefix(p: Parser, x: string)
    requires Aligned(Append(p, x))
    ensures Aligned(p)
    ensures ReadsLine(p.m) && FindLine(p.buffer).Line? ==> FindLine(p.buffer + x) == FindLine(p.buffer)
  {
    var s, k := p.buffer + x, |p.buffer|;
    SliceAppend(p.buffer, x, k);
    if ReadsLine(p.m) && FindLine(p.buffer).Line? {
      assert s[..k] == p.buffer;
      LineOfPrefix(s, k);
      FindPrefix(s, k, '\n');
      SliceAppend(p.buffer, x, FindLine(p.buffer).end);
    }
  }

  lemma TakeChunkAppend(p: Parser, l: Line, size: int, x: string)
    requires p.m.phase == Body
    requires l.Line? && 1 <= l.width && l.end + l.width <= |p.buffer|
    requires -LONG_MAX - 1 <= size <= LONG_MAX
    requires size >= 0 || FrameLength(l, size) > |p.buffer| || SizeSum(|p.m.body|, size) > p.m.maxBody
    requires TakeChunk(p, l, size) != p
    ensures TakeChunk(Append(p, x), l, size) == Append(TakeChunk(p, l, size), x)
  {
    var data := l.end + l.width;
    SliceAppend(p.buffer, x, data);
    if 0 < size && FrameLength(l, size) <= |p.buffer| {
      SliceAppend(p.buffer, x, FrameLength(l, size));
      assert (p.buffer + x)[data..data + size] == p.buffer[data..data + size];
    }
  }

  lemma StepLineAppend(p: Parser, x: string)
    requires FindLine(p.buffer).Line? && FindLine(p.buffer + x) == FindLine(p.buffer)
    ensures StepLine(Append(p, x)) == Append(StepLine(p), x)
    ensures StepTrailer(Append(p, x)) == Append(StepTrailer(p), x)
  {
    var l := FindLine(p.buffer);
    SliceAppend(p.buffer, x, l.end);
    SliceAppend(p.buffer, x, l.end + l.width);
  }

  /** A step taken before x arrives is the step taken after. */
  lemma StepAppend(p: Parser, x: string)
    requires Aligned(Append(p, x))
    requires Step(p) != p
    ensures Step(Append(p, x)) == Append(Step(p), x)
  {
    AlignedPrefix(p, x);
    if !ReadsLine(p.m) {
      SliceAppend(p.buffer, x, p.m.contentLength);
    } else if p.m.phase != Body || p.m.inTrailer {
      StepLineAppend(p, x);
    } else {
      var l := FindLine(p.buffer);
      SliceAppend(p.buffer, x, l.end);
      TakeChunkAppend(p, l, ChunkSize(p.buffer[..l.end]), x);
    }
  }

  // ----- the exact condition on a step -----

  /** The parser with only the first k bytes of its buffer. */
  function Cut(p: Parser, k: nat): Parser
    requires k <= |p.buffer|
  {
    p.(buffer := p.buffer[..k])
  }

  /** However early the buffer is looked at, the step is the same or not taken. */
  predicate CutInvariant(p: Parser) {
    forall k: nat :: k <= |p.buffer| && Step(Cut(p, k)) != Cut(p, k) ==>
                       Append(Step(Cut(p, k)), p.buffer[k..]) == Step(p)
  }

  predicate AtLine(p: Parser) {
    p.m.phase == RequestLine || p.m.phase == Headers || (p.m.phase == Body && p.m.chunked && p.m.inTrailer)
  }

  predicate AtSizeLine(p: Parser) { p.m.phase == Body && p.m.chunked && !p.m.inTrailer }

  lemma AlignedCut(p: Parser, k: nat)
    requires Aligned(p) && k <= |p.buffer| && Step(Cut(p, k)) != Cut(p, k)
    ensures Append(Step(Cut(p, k)), p.buffer[k..]) == Step(p)
  {
    assert Append(Cut(p, k), p.buffer[k..]) == p by { assert p.buffer[..k] + p.buffer[k..] == p.buffer; }
    hide Step, Aligned;
    StepAppend(Cut(p, k), p.buffer[k..]);
  }

  /** A step at a line uses up the line and its end, and no more. */
  lemma LineUsedUp(p: Parser)
    requires AtLine(p) && FindLine(p.buffer).Line?
    ensures var l := FindLine(p.buffer);
            Step(p) != p && |Step(p).buffer| == |p.buffer| - l.end - l.width
  {
    hide ParseRequestLine, ParseHeader, EndHeaders, StepChunk, StepLength;
  }

  /** At the request line, at a header line and in the trailer the step does not depend
      on when it is taken, if and only if the line ends at the first LF. */
  lemma LineStepInvariantIff(p: Parser)
    requires AtLine(p)
    ensures CutInvariant(p) <==> EndsAtFirstLf(p.buffer)
  {
    if EndsAtFirstLf(p.buffer) {
      forall k: nat | k <= |p.buffer| && Step(Cut(p, k)) != Cut(p, k)
        ensures Append(Step(Cut(p, k)), p.buffer[k..]) == Step(p)
      {
        AlignedCut(p, k);
      }
    } else {
      var k := Find(p.buffer, '\n') + 1;
      var l := FindLine(p.buffer);
      CutAtFirstLf(p.buffer);
      LineUsedUp(p);
      LineUsedUp(Cut(p, k));
      hide Step, EndsAtFirstLf, FindLine;
      assert |Append(Step(Cut(p, k)), p.buffer[k..]).buffer| == |p.buffer| - k;
      assert |Step(p).buffer| == |p.buffer| - l.end - l.width != |p.buffer| - k;
    }
  }

  /** Cut at its first LF, a buffer shows a line that ends there. */
  lemma CutAtFirstLf(s: string)
    requires !EndsAtFirstLf(s)
    ensures var k := Find(s, '\n') + 1;
            && k <= |s| && FindLine(s).Line? && FindLine(s).end + FindLine(s).width != k
            && FindLine(s[..k]).Line? && FindLine(s[..k]).end + FindLine(s[..k]).width == k
  {
    var k := Find(s, '\n') + 1;
    var t := s[..k];
    FindPrefix(s, k, '\n');
    assert t[k - 1] == '\n';
    assert FindLine(t).Line?;
    hide FindLine;
    LineHoldsLf(t);
  }

  /** A line of s ends at or behind the first LF. */
  lemma LineHoldsLf(s: string)
    requires FindLine(s).Line?
    ensures Find(s, '\n') < FindLine(s).end + FindLine(s).width <= |s|
  {
    hide FindLine;
    assert s[FindLine(s).end + FindLine(s).width - 1] == '\n';
  }

  /** A chunk with a negative size takes along whatever stands behind its line: less,
      if the last byte is still to come and the step is not idle without it. */
  predicate TakesMoreLater(p: Parser) {
    && Overruns(p)
    && var l := FindLine(p.buffer);
       var data, frame := l.end + l.width, FrameLength(l, ChunkSize(p.buffer[..l.end]));
       && data < |p.buffer| && frame < |p.buffer|
       && !(data == |p.buffer| - 1 && frame == 0)
  }

  /** At a size line that ends at the first LF the step does not depend on when it is
      taken, if and only if it takes no chunk of negative size that it could have
      taken with one byte less. */
  lemma ChunkStepInvariantIff(p: Parser)
    requires AtSizeLine(p) && EndsAtFirstLf(p.buffer)
    ensures CutInvariant(p) <==> !TakesMoreLater(p)
  {
    if TakesMoreLater(p) {
      OneByteLess(p);
      assert Step(Cut(p, |p.buffer| - 1)) != Cut(p, |p.buffer| - 1);
    } else {
      forall k: nat | k <= |p.buffer| && Step(Cut(p, k)) != Cut(p, k)
        ensures Append(Step(Cut(p, k)), p.buffer[k..]) == Step(p)
      {
        if !Overruns(p) { AlignedCut(p, k); } else { OnlyWhole(p, k); }
      }
    }
  }

  lemma SizeLineOfCut(p: Parser, k: nat)
    requires AtSizeLine(p) && EndsAtFirstLf(p.buffer) && k <= |p.buffer| && FindLine(p.buffer).Line?
    ensures var l := FindLine(p.buffer);
            if k < l.end + l.width then FindLine(Cut(p, k).buffer).NoLine?
            else FindLine(Cut(p, k).buffer) == l && Cut(p, k).buffer[..l.end] == p.buffer[..l.end]
  {
    var l := FindLine(p.buffer);
    if FindLine(p.buffer[..k]).Line? { LineOfPrefix(p.buffer, k); }
    FindPrefix(p.buffer, k, '\n');
    if k >= l.end + l.width { assert p.buffer[..k][l.end + l.width - 1] == '\n'; }
  }

  lemma OneByteLess(p: Parser)
    requires AtSizeLine(p) && EndsAtFirstLf(p.buffer) && TakesMoreLater(p)
    ensures var k := |p.buffer| - 1;
            Step(Cut(p, k)) != Cut(p, k) && Append(Step(Cut(p, k)), p.buffer[k..]) != Step(p)
  {
    var k := |p.buffer| - 1;
    var l := FindLine(p.buffer);
    var size := ChunkSize(p.buffer[..l.end]);
    SizeLineOfCut(p, k);
    TakeChunkSteps(p);
    TakeChunkSteps(Cut(p, k));
    hide Step, FindLine, ChunkSize, EndsAtFirstLf, Run;
    assert |TakeChunk(p, l, size).m.body| == |p.m.body| + |p.buffer| - (l.end + l.width);
    assert |TakeChunk(Cut(p, k), l, size).m.body| == |p.m.body| + k - (l.end + l.width);
    assert Step(Cut(p, k)) == TakeChunk(Cut(p, k), l, size);
    OneByteLessSteps(p, l, size);
  }

  lemma OneByteLessSteps(p: Parser, l: Line, size: int)
    requires p.m.phase == Body && l.Line? && 1 <= l.width && l.end + l.width < |p.buffer|
    requires -LONG_MAX - 1 <= size < 0 && FrameLength(l, size) < |p.buffer| && SizeSum(|p.m.body|, size) <= p.m.maxBody
    requires !(l.end + l.width == |p.buffer| - 1 && FrameLength(l, size) == 0)
    ensures var q := Cut(p, |p.buffer| - 1); TakeChunk(q, l, size) != q
  {
    var q := Cut(p, |p.buffer| - 1);
    assert FrameLength(l, size) == 0 ==> |TakeChunk(q, l, size).m.body| > |q.m.body|;
  }

  lemma NotBefore(p: Parser, k: nat)
    requires AtSizeLine(p) && EndsAtFirstLf(p.buffer) && Overruns(p) && !TakesMoreLater(p) && k < |p.buffer|
    ensures Step(Cut(p, k)) == Cut(p, k)
  {
    var l := FindLine(p.buffer);
    var size := ChunkSize(p.buffer[..l.end]);
    SizeLineOfCut(p, k);
    if k >= l.end + l.width {
      TakeChunkSteps(Cut(p, k));
      hide Step, FindLine, ChunkSize, EndsAtFirstLf, Run;
      assert p.m.body + [] == p.m.body;
      assert TakeChunk(Cut(p, k), l, size) == Cut(p, k);
    } else {
      hide FindLine, ChunkSize, EndsAtFirstLf, Run;
    }
  }

  lemma OnlyWhole(p: Parser, k: nat)
    requires AtSizeLine(p) && EndsAtFirstLf(p.buffer) && Overruns(p) && !TakesMoreLater(p)
    requires k <= |p.buffer| && Step(Cut(p, k)) != Cut(p, k)
    ensures Append(Step(Cut(p, k)), p.buffer[k..]) == Step(p)
  {
    hide Step, Overruns, TakesMoreLater, EndsAtFirstLf;
    assert k == |p.buffer| by {
      forall j: nat | j < |p.buffer| ensures Step(Cut(p, j)) == Cut(p, j) { NotBefore(p, j); }
    }
    assert p.buffer[..k] == p.buffer && p.buffer[k..] == "";
    assert Cut(p, k) == p && Step(p).buffer + "" == Step(p).buffer;
  }

  // ----- runs -----

  lemma AppendInjective(p: Parser, q: Parser, x: string)
    requires Append(p, x) == Append(q, x)
    ensures p == q
  {
    assert p.buffer == (p.buffer + x)[..|p.buffer|];
    assert q.buffer == (q.buffer + x)[..|q.buffer|];
  }

  /** Running on a first part and then on the rest is running on the whole. */
  lemma {:induction false} RunAppend(p: Parser, x: string)
    requires AlignedRun(Append(p, x))
    ensures AlignedRun(p)
    ensures AlignedRun(Append(Run(p), x))
    ensures Run(Append(Run(p), x)) == Run(Append(p, x))
    decreases |p.buffer|, Rank(p), Room(p)
  {
    AlignedPrefix(p, x);
    if Step(p) != p {
      StepAppend(p, x);
      if Append(Step(p), x) == Append(p, x) { AppendInjective(Step(p), p, x); }
      RunAppend(Step(p), x);
    }
  }

  /** An aligned run never meets the looping case, so `feed` returns. */
  lemma {:induction false} AlignedNeverSpins(p: Parser)
    requires AlignedRun(p)
    ensures !Spins(Run(p))
    decreases |p.buffer|, Rank(p), Room(p)
  {
    hide ChunkSize;
    if Step(p) != p { AlignedNeverSpins(Step(p)); }
  }

  function FeedAll(p: Parser, pieces: seq<string>, maxBody: nat): Parser
    decreases |pieces|
  {
    if pieces == [] then p else FeedAll(Feed(p, pieces[0], maxBody), pieces[1..], maxBody)
  }

  function Concat(pieces: seq<string>): string {
    if pieces == [] then "" else pieces[0] + Concat(pieces[1..])
  }

  /** Any way of cutting a stream into feed calls ends in the state, fields and
      buffer of one feed of the whole. */
  lemma {:induction false} SplitInvariance(p: Parser, pieces: seq<string>, maxBody: nat)
    requires pieces != []
    requires AlignedRun(Append(WithLimit(p, maxBody), Concat(pieces)))
    ensures FeedAll(p, pieces, maxBody) == Feed(p, Concat(pieces), maxBody)
    decreases |pieces|
  {
    var first, rest := pieces[0], Concat(pieces[1..]);
    var q := Append(WithLimit(p, maxBody), first);
    assert p.buffer + Concat(pieces) == (p.buffer + first) + rest;
    assert Append(WithLimit(p, maxBody), Concat(pieces)) == Append(q, rest);
    RunAppend(q, rest);
    if |pieces| == 1 {
      assert Append(Run(q), "") == Run(q) by { assert Run(q).buffer + "" == Run(q).buffer; }
      assert pieces[1..] == [];
    } else {
      assert WithLimit(Run(q), maxBody) == Run(q);
      SplitInvariance(Run(q), pieces[1..], maxBody);
    }
  }

  /** A size line without digits counts as the last chunk. */
  lemma NoDigits(line: string)
    requires line in ["", "\n"]
    ensures ChunkSize(line) == 0
  {
    assert Trim(line) == "";
  }

  lemma EmptySizeLine(p: Parser, line: string, end: string)
    requires AtSizeLine(p)
    requires line in ["", "\n"] && end in ["\n", "\r\n"]
    requires p.buffer == line + end && FindLine(p.buffer) == Line(|line|, |end|)
    ensures Run(p) == Parser(p.m.(inTrailer := true), "")
  {
    NoDigits(line);
    assert p.buffer[..|line|] == line && p.buffer[|line| + |end|..] == "";
    assert TakeChunk(p, Line(|line|, |end|), 0) == Parser(p.m.(inTrailer := true), "");
    hide Step, Run, ChunkSize, FindLine, TakeChunk, Spins, SpinsOn;
    TakeChunkSteps(p);
    NothingToRead(Parser(p.m.(inTrailer := true), ""));
  }

  lemma NothingToRead(p: Parser)
    requires ReadsLine(p.m) && p.buffer == ""
    ensures Run(p) == p
  {
    assert FindLine(p.buffer).NoLine?;
    assert Step(p) == p;
  }

  lemma LinesFound()
    ensures FindLine("\n\r\n") == Line(1, 2) && FindLine("\n") == Line(0, 1)
    ensures "\n\r\n" == "\n" + "\r\n" && "\n" == "" + "\n"
  {
    assert CrlfAt("\n\r\n", 1) && !CrlfAt("\n\r\n", 0);
  }

  /** The condition cannot be dropped, even for a stream in which the whole buffer
      shows CRLF lines only: cut behind its first byte, this stream ends the
      chunked body; fed whole, the body still waits for its trailer. */
  lemma SplitVariance(p: Parser, maxBody: nat)
    requires p.m.phase == Body && p.m.chunked && !p.m.inTrailer && p.buffer == ""
    ensures Feed(p, "\n\r\n", maxBody).m.phase == Body
    ensures FeedAll(p, ["\n", "\r\n"], maxBody).m.phase == Complete
  {
    var q := WithLimit(p, maxBody);
    var w, c := Append(q, "\n\r\n"), Append(q, "\n");
    var r := q.(m := q.m.(inTrailer := true));
    assert w.buffer == "\n\r\n" && c.buffer == "\n";
    LinesFound();
    hide FindLine, Run, Step;
    EmptySizeLine(w, "\n", "\r\n");
    EmptySizeLine(c, "", "\n");
    BlankTrailerLine(r);
    TwoPieces(p, "\n", "\r\n", maxBody);
  }

  lemma TwoPieces(p: Parser, a: string, b: string, maxBody: nat)
    ensures FeedAll(p, [a, b], maxBody) == Feed(Feed(p, a, maxBody), b, maxBody)
  {
    assert [a, b][1..] == [b] && [b][1..] == [];
    hide Feed;
    assert FeedAll(Feed(p, a, maxBody), [b], maxBody) == FeedAll(Feed(Feed(p, a, maxBody), b, maxBody), [], maxBody);
  }

  lemma BlankTrailerLine(p: Parser)
    requires p.m.phase == Body && p.m.chunked && p.m.inTrailer && p.buffer == ""
    ensures Feed(p, "\r\n", p.m.maxBody).m.phase == Complete
  {
    var t := Append(p, "\r\n");
    assert t.buffer == "\r\n" && CrlfAt(t.buffer, 0);
    assert Step(t).m.phase == Complete;
    assert Run(t) == Run(Step(t)) == Step(t);
  }
}
