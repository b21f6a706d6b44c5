/** A condition on the bytes of a stream alone under which it may be cut at will:
    the lines the parser reads end in CRLF. */
module HttpCrlf {
  import opened Text
  import opened HttpParser
  import opened HttpSplit

  // ----- the condition -----

  /** Every line ends in CRLF, up to and with the first blank one. */
  predicate CrlfHead(s: string)
    decreases |s|
  {
    var lf := Find(s, '\n');
    lf < |s| ==> lf > 0 && s[lf - 1] == '\r' && (lf == 1 || CrlfHead(s[lf + 1..]))
  }

  /** The bytes behind the first blank line. */
  function BehindHead(s: string): string
    decreases |s|
  {
    var lf := Find(s, '\n');
    if lf == |s| then "" else if lf <= 1 then s[lf + 1..] else BehindHead(s[lf + 1..])
  }

  /** A chunked body, as far as it is there: size lines and trailer lines end in CRLF,
      and no size is negative. */
  predicate CrlfChunks(s: string)
    decreases |s|
  {
    var lf := Find(s, '\n');
    lf < |s| ==>
      && lf > 0 && s[lf - 1] == '\r'
      && var size := ChunkSize(s[..lf - 1]);
         && size >= 0
         && (size == 0 ==> CrlfHead(s[lf + 1..]))
         && (0 < size && lf + 1 + size + 2 <= |s| ==> CrlfChunks(s[lf + 1 + size + 2..]))
  }

  /** What the request line and the header lines alone make of a message. */
  function HeadMessage(m: Message, s: string): Message
    decreases |s|
  {
    var lf := Find(s, '\n');
    if !(m.phase == RequestLine || m.phase == Headers) || lf == 0 || lf == |s| then m
    else
      var line := s[..lf - 1];
      HeadMessage(if m.phase == RequestLine then ParseRequestLine(m, line)
                  else if line == "" then EndHeaders(m)
                  else ParseHeader(m, line), s[lf + 1..])
  }

  /** The method and the header fields announce a chunked body. */
  predicate AnnouncesChunks(m: Message, s: string) {
    HeadMessage(m, s).phase == Body && HeadMessage(m, s).chunked
  }

  // ----- it suffices -----

  lemma LineAligned(s: string)
    requires Find(s, '\n') < |s| ==> Find(s, '\n') > 0 && s[Find(s, '\n') - 1] == '\r'
    ensures EndsAtFirstLf(s)
    ensures FindLine(s) == if Find(s, '\n') < |s| then Line(Find(s, '\n') - 1, 2) else NoLine
  {
    var lf := Find(s, '\n');
    if lf < |s| {
      assert CrlfAt(s, lf - 1);
      assert FindCrlf(s) == lf - 1;
    }
  }

  lemma HeadUnfold(s: string)
    requires CrlfHead(s) && Find(s, '\n') < |s|
    ensures var lf := Find(s, '\n'); lf > 0 && s[lf - 1] == '\r' && (lf > 1 ==> CrlfHead(s[lf + 1..]))
  {
    hide Find;
  }

  lemma TrailerLineStep(p: Parser, end: nat)
    requires p.m.phase == Body && p.m.chunked && p.m.inTrailer && FindLine(p.buffer) == Line(end, 2)
    ensures var q := Step(p);
            |q.buffer| < |p.buffer| && q.buffer == p.buffer[end + 2..] && if end == 0 then Done(q.m) else q.m == p.m
  {
    hide FindLine;
  }

  lemma TrailerStep(p: Parser)
    requires p.m.phase == Body && p.m.chunked && p.m.inTrailer && CrlfHead(p.buffer)
    ensures Aligned(p)
    ensures var q := Step(p);
            q == p || Done(q.m) || (q.m == p.m && CrlfHead(q.buffer) && |q.buffer| < |p.buffer|)
  {
    var lf := Find(p.buffer, '\n');
    if lf < |p.buffer| {
      HeadUnfold(p.buffer);
      LineAligned(p.buffer);
      hide FindLine, Find, CrlfHead, EndsAtFirstLf, Step;
      TrailerLineStep(p, lf - 1);
    } else {
      LineAligned(p.buffer);
      hide FindLine, Find, CrlfHead, EndsAtFirstLf;
    }
  }

  lemma {:induction false} TrailerAligned(p: Parser)
    requires p.m.phase == Body && p.m.chunked && p.m.inTrailer && CrlfHead(p.buffer)
    ensures AlignedRun(p)
    decreases |p.buffer|
  {
    hide *;
    var q := Step(p);
    TrailerStep(p);
    if q != p {
      if Done(q.m) { ErrorAligned(q); } else { TrailerAligned(q); }
    }
    AlignedOn(p);
  }

  /** A chunk whose size is not negative is taken whole, with the two bytes behind it. */
  lemma TakenChunk(p: Parser, end: nat, size: int)
    requires p.m.phase == Body && p.m.chunked && !p.m.inTrailer && end + 2 <= |p.buffer| && 0 <= size <= LONG_MAX
    ensures var q := TakeChunk(p, Line(end, 2), size);
            || q == p || q.m.phase == Error
            || (q.m.phase == Body && q.m.chunked && q.m.inTrailer == (size == 0) && |q.buffer| < |p.buffer|
                && (size > 0 ==> end + 2 + size + 2 <= |p.buffer| && q.buffer == p.buffer[end + 2 + size + 2..])
                && (size == 0 ==> q.buffer == p.buffer[end + 2..]))
  {
  }

  lemma ChunksUnfold(s: string, end: nat)
    requires CrlfChunks(s) && end + 1 == Find(s, '\n') < |s|
    ensures s[end] == '\r'
    ensures var size := ChunkSize(s[..end]);
            && size >= 0
            && (size == 0 ==> CrlfHead(s[end + 2..]))
            && (0 < size && end + 2 + size + 2 <= |s| ==> CrlfChunks(s[end + 2 + size + 2..]))
  {
    hide ChunkSize, CrlfHead, Find;
  }

  lemma CrlfBeforeLf(s: string)
    requires CrlfChunks(s) && Find(s, '\n') < |s|
    ensures Find(s, '\n') > 0
  {
    hide ChunkSize, CrlfHead, Find;
  }

  lemma SizeLineAligned(p: Parser, end: nat)
    requires p.m.phase == Body && p.m.chunked && !p.m.inTrailer
    requires FindLine(p.buffer) == Line(end, 2) && EndsAtFirstLf(p.buffer) && ChunkSize(p.buffer[..end]) >= 0
    ensures Aligned(p)
  {
    hide ChunkSize, FindLine, EndsAtFirstLf;
  }

  /** What is left once the chunk is taken. */
  lemma ChunkLeaves(p: Parser, end: nat, size: int)
    requires p.m.phase == Body && p.m.chunked && !p.m.inTrailer && end + 2 <= |p.buffer| && 0 <= size <= LONG_MAX
    requires size == 0 ==> CrlfHead(p.buffer[end + 2..])
    requires 0 < size && end + 2 + size + 2 <= |p.buffer| ==> CrlfChunks(p.buffer[end + 2 + size + 2..])
    ensures StaysCrlf(p, TakeChunk(p, Line(end, 2), size))
  {
    hide CrlfHead, CrlfChunks, TakeChunk;
    TakenChunk(p, end, size);
  }

  /** A step within a chunked body that keeps to CRLF lines. */
  predicate StaysCrlf(p: Parser, q: Parser) {
    || q == p || q.m.phase == Error
    || (q.m.phase == Body && q.m.chunked && |q.buffer| < |p.buffer|
        && if q.m.inTrailer then CrlfHead(q.buffer) else CrlfChunks(q.buffer))
  }

  /** At a size line that is there. */
  lemma ChunkLineStep(p: Parser, end: nat)
    requires p.m.phase == Body && p.m.chunked && !p.m.inTrailer && CrlfChunks(p.buffer)
    requires end + 1 == Find(p.buffer, '\n') < |p.buffer|
    ensures Aligned(p) && StaysCrlf(p, Step(p))
  {
    hide *;
    SizeLineAt(p.buffer, end);
    SizeLineAligned(p, end);
    assert StaysCrlf(p, Step(p)) by {
      ChunksUnfold(p.buffer, end);
      TakeChunkSteps(p);
      ChunkLeaves(p, end, ChunkSize(p.buffer[..end]));
    }
  }

  lemma SizeLineAt(s: string, end: nat)
    requires CrlfChunks(s) && end + 1 == Find(s, '\n') < |s|
    ensures FindLine(s) == Line(end, 2) && EndsAtFirstLf(s) && ChunkSize(s[..end]) >= 0
  {
    ChunksUnfold(s, end);
    LineAligned(s);
    hide *;
  }

  lemma ChunkStep(p: Parser)
    requires p.m.phase == Body && p.m.chunked && !p.m.inTrailer && CrlfChunks(p.buffer)
    ensures Aligned(p) && StaysCrlf(p, Step(p))
  {
    if Find(p.buffer, '\n') < |p.buffer| {
      CrlfBeforeLf(p.buffer);
      hide *;
      ChunkLineStep(p, Find(p.buffer, '\n') - 1);
    } else {
      LineAligned(p.buffer);
      hide FindLine, ChunkSize, Find, EndsAtFirstLf, CrlfHead, CrlfChunks;
    }
  }

  lemma {:induction false} ChunksAligned(p: Parser)
    requires p.m.phase == Body && p.m.chunked && !p.m.inTrailer && CrlfChunks(p.buffer)
    ensures AlignedRun(p)
    decreases |p.buffer|
  {
    ChunkStep(p);
    var q := Step(p);
    hide Step, Aligned, CrlfHead, CrlfChunks, AlignedRun;
    if q != p {
      if q.m.phase == Error { ErrorAligned(q); }
      else if q.m.inTrailer { TrailerAligned(q); }
      else { ChunksAligned(q); }
    }
    AlignedOn(p);
  }

  lemma ErrorAligned(q: Parser)
    requires Done(q.m)
    ensures AlignedRun(q)
  {
  }

  /** The step at the request line or at a header line. */
  lemma HeadStep(p: Parser)
    requires (p.m.phase == RequestLine || p.m.phase == Headers) && !p.m.inTrailer && CrlfHead(p.buffer)
    ensures Aligned(p)
    ensures var q := Step(p);
            || q == p
            || (!q.m.inTrailer && |q.buffer| < |p.buffer| && HeadMessage(p.m, p.buffer) == HeadMessage(q.m, q.buffer)
                && if Done(q.m) then true else if q.m.phase == Body then q.buffer == BehindHead(p.buffer)
                   else CrlfHead(q.buffer) && BehindHead(q.buffer) == BehindHead(p.buffer))
  {
    LineAligned(p.buffer);
    var lf := Find(p.buffer, '\n');
    hide FindLine, Run, Find, EndsAtFirstLf, UriPath, UriQuery, KeepsAlive, Strtol, Lower;
    if lf < |p.buffer| {
      RequestLineOutcome(p.m, p.buffer[..lf - 1]);
      if p.m.phase == Headers { HeaderLineOutcome(p.m, p.buffer[..lf - 1]); }
    }
    hide ParseRequestLine, ParseHeader, EndHeaders;
  }

  lemma RequestLineOutcome(m: Message, line: string)
    ensures var r := ParseRequestLine(m, line);
            r.inTrailer == m.inTrailer && (r.phase == Error || (r.phase == Headers && line != ""))
  {
    hide UriPath, UriQuery, IsVerb, IsVersion;
  }

  lemma HeaderLineOutcome(m: Message, line: string)
    requires m.phase == Headers
    ensures var r := ParseHeader(m, line); r.inTrailer == m.inTrailer && (r.phase == Error || r.phase == m.phase)
    ensures var r := EndHeaders(m); r.inTrailer == m.inTrailer && (Done(r) || r.phase == Body)
  {
    hide KeepsAlive, Strtol, Lower, Header, NeverHasBody;
  }

  lemma {:induction false} HeadAligned(p: Parser)
    requires (p.m.phase == RequestLine || p.m.phase == Headers) && !p.m.inTrailer && CrlfHead(p.buffer)
    requires AnnouncesChunks(p.m, p.buffer) ==> CrlfChunks(BehindHead(p.buffer))
    ensures AlignedRun(p)
    decreases |p.buffer|
  {
    HeadStep(p);
    var q := Step(p);
    if q.m.phase == Body { assert HeadMessage(q.m, q.buffer) == q.m; }
    hide Step, Aligned, CrlfChunks, CrlfHead, BehindHead, HeadMessage;
    if q == p {
    } else if Done(q.m) {
      ErrorAligned(q);
    } else if q.m.phase != Body {
      HeadAligned(q);
    } else if q.m.chunked {
      ChunksAligned(q);
    } else {
      LengthAligned(q);
    }
  }

  lemma LengthAligned(q: Parser)
    requires q.m.phase == Body && !q.m.chunked
    ensures AlignedRun(q)
  {
    assert Step(q) == q || Done(Step(q).m);
    if Step(q) != q { ErrorAligned(Step(q)); }
  }

  /** A request, well formed or not, whose header lines end in CRLF, and its chunk
      lines too if its head announces a chunked body, may be cut into feed calls at
      will. The condition is one on the bytes. */
  lemma CrlfSplitInvariance(p: Parser, pieces: seq<string>, maxBody: nat)
    requires pieces != [] && p.m.phase == RequestLine && !p.m.inTrailer
    requires var s := p.buffer + Concat(pieces);
             CrlfHead(s) && (AnnouncesChunks(WithLimit(p, maxBody).m, s) ==> CrlfChunks(BehindHead(s)))
    ensures FeedAll(p, pieces, maxBody) == Feed(p, Concat(pieces), maxBody)
  {
    hide CrlfHead, CrlfChunks, AnnouncesChunks, BehindHead;
    HeadAligned(Append(WithLimit(p, maxBody), Concat(pieces)));
    SplitInvariance(p, pieces, maxBody);
  }
}
