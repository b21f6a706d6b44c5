/** What every state of an HttpRequest object keeps, however it is fed. */
module HttpInvariants {
  import opened Text
  import opened HttpParser
  import opened HttpSplit
  import opened HttpPipeline

  // ----- the trailer flag -----

  /** The trailer flag is up only within a chunked body, and a status code is set
      exactly when the parser has failed. */
  predicate FlagsOk(m: Message) {
    && (m.inTrailer ==> m.phase == Body && m.chunked)
    && (m.phase == Error <==> m.errorCode != 0)
    && (m.errorCode == 0 || m.errorCode == 400 || m.errorCode == 413 || m.errorCode == 501)
  }

  lemma RequestLineKeepsFlags(m: Message, line: string)
    requires FlagsOk(m) && !Done(m) && m.phase != Body
    ensures FlagsOk(ParseRequestLine(m, line))
  {
    hide UriPath, UriQuery, IsVerb, IsVersion, Words;
  }

  lemma HeaderLineKeepsFlags(m: Message, line: string)
    requires FlagsOk(m) && !Done(m) && m.phase != Body
    ensures FlagsOk(ParseHeader(m, line)) && FlagsOk(EndHeaders(m))
  {
    hide KeepsAlive, Strtol, Lower, Header, NeverHasBody;
  }

  lemma StepKeepsFlags(p: Parser)
    requires FlagsOk(p.m)
    ensures FlagsOk(Step(p).m)
  {
    hide ParseRequestLine, ParseHeader, EndHeaders, ChunkSize;
    if p.m.phase != Body && !Done(p.m) && FindLine(p.buffer).Line? {
      RequestLineKeepsFlags(p.m, p.buffer[..FindLine(p.buffer).end]);
      HeaderLineKeepsFlags(p.m, p.buffer[..FindLine(p.buffer).end]);
    }
  }

  lemma {:induction false} RunKeepsFlags(p: Parser)
    requires FlagsOk(p.m)
    ensures FlagsOk(Run(p).m)
    decreases |p.buffer|, Rank(p), Room(p)
  {
    StepKeepsFlags(p);
    hide Step, FlagsOk;
    if Step(p) != p { RunKeepsFlags(Step(p)); }
  }

  /** After any calls of feed and reset. */
  lemma {:induction false} FlagsInEveryState(maxBody: nat, cs: seq<Call>)
    ensures FlagsOk(ApplyAll(Parser(Blank(maxBody), ""), cs).m)
    decreases |cs|
  {
    if cs != [] {
      FlagsInEveryState(maxBody, cs[..|cs| - 1]);
      var p := ApplyAll(Parser(Blank(maxBody), ""), cs[..|cs| - 1]);
      match cs[|cs| - 1]
      case FeedCall(data, limit) => RunKeepsFlags(Append(WithLimit(p, limit), data));
      case ResetCall =>
    }
  }

  // ----- the body limit -----

  /** The body, and the length announced for it, are within the limit. */
  predicate WithinLimit(m: Message) {
    |m.body| <= m.maxBody && (m.phase != Error ==> m.contentLength <= m.maxBody)
  }

  /** What a chunk read as negative takes along, more than the limit leaves room for. */
  predicate Floods(p: Parser) {
    && Overruns(p)
    && var l := FindLine(p.buffer);
       |p.m.body| + |p.buffer| - (l.end + l.width) > p.m.maxBody
  }

  /** The limit check of a chunk looks at its size, but what is appended is bounded by
      that only when the size is not negative. The exact condition: a step keeps
      the body within the limit if and only if it takes no chunk read as negative
      with more bytes behind its size line than the limit leaves room for. */
  lemma StepKeepsLimitIff(p: Parser)
    requires WithinLimit(p.m)
    ensures WithinLimit(Step(p).m) <==> !Floods(p)
  {
    hide ChunkSize, ParseRequestLine, ParseHeader, EndHeaders;
    if p.m.phase != Body && !Done(p.m) && FindLine(p.buffer).Line? {
      LineKeepsLimit(p.m, p.buffer[..FindLine(p.buffer).end]);
    }
  }

  lemma LineKeepsLimit(m: Message, line: string)
    requires WithinLimit(m) && m.phase != Body && !Done(m)
    ensures WithinLimit(ParseRequestLine(m, line)) && WithinLimit(ParseHeader(m, line)) && WithinLimit(EndHeaders(m))
  {
    RequestLineKeepsLimit(m, line);
    HeaderLineKeepsLimit(m, line);
    hide *;
  }

  lemma RequestLineKeepsLimit(m: Message, line: string)
    requires WithinLimit(m) && m.phase != Body && !Done(m)
    ensures WithinLimit(ParseRequestLine(m, line))
  {
    hide UriPath, UriQuery, IsVerb, IsVersion, Words;
  }

  lemma HeaderLineKeepsLimit(m: Message, line: string)
    requires WithinLimit(m) && m.phase != Body && !Done(m)
    ensures WithinLimit(ParseHeader(m, line)) && WithinLimit(EndHeaders(m))
  {
    hide KeepsAlive, TakeLength, ChooseFraming, Trim, Lower;
    var n := m.(keepAlive := KeepsAlive(m.headers, m.version));
    LengthKeepsLimit(n);
    if TakeLength(n).phase != Error { FramingKeepsLimit(TakeLength(n)); }
  }

  lemma LengthKeepsLimit(m: Message)
    requires WithinLimit(m) && m.phase != Error
    ensures WithinLimit(TakeLength(m))
  {
    hide Strtol, Lower, Header;
  }

  lemma FramingKeepsLimit(m: Message)
    requires WithinLimit(m) && m.phase != Error
    ensures WithinLimit(ChooseFraming(m))
  {
    hide Lower, Header, NeverHasBody;
  }

  /** No step of the run floods the body. */
  predicate FloodFree(p: Parser)
    decreases |p.buffer|, Rank(p), Room(p)
  {
    !Floods(p) && (Step(p) == p || FloodFree(Step(p)))
  }

  /** A chunked body over the limit only grows. */
  lemma {:induction false} OverflowStays(p: Parser)
    requires p.m.phase == Body && p.m.chunked && |p.m.body| > p.m.maxBody
    ensures !WithinLimit(Run(p).m)
    decreases |p.buffer|, Rank(p), Room(p)
  {
    var q := Step(p);
    if q != p {
      OverflowStep(p);
      hide Step, WithinLimit;
      if q.m.phase == Body { OverflowStays(q); } else { DoneStaysDone(q); }
      assert Run(p) == Run(q) by { RunUnfolds(p); }
    }
  }

  lemma OverflowStep(p: Parser)
    requires p.m.phase == Body && p.m.chunked && |p.m.body| > p.m.maxBody
    ensures var q := Step(p);
            && q.m.maxBody == p.m.maxBody && |q.m.body| > q.m.maxBody
            && ((q.m.phase == Body && q.m.chunked) || Done(q.m))
  {
    hide ChunkSize, FindLine, Find, FrameLength, SizeSum;
  }

  lemma FloodOverflows(p: Parser)
    requires WithinLimit(p.m) && Floods(p)
    ensures var q := Step(p); q.m.phase == Body && q.m.chunked && |q.m.body| > q.m.maxBody
  {
    hide ChunkSize;
  }

  /** A run ends with a body within the limit if and only if none of its steps floods it. */
  lemma {:induction false} RunKeepsLimit(p: Parser)
    requires WithinLimit(p.m)
    ensures WithinLimit(Run(p).m) <==> FloodFree(p)
    decreases |p.buffer|, Rank(p), Room(p)
  {
    var q := Step(p);
    StepKeepsLimitIff(p);
    RunUnfolds(p);
    if Floods(p) {
      FloodOverflows(p);
      OverflowStays(q);
    } else {
      hide Step, WithinLimit, Floods;
      if q != p { RunKeepsLimit(q); }
    }
  }

  /** In particular if it takes no negative chunk size at all. */
  lemma {:induction false} AlignedIsFloodFree(p: Parser)
    requires AlignedRun(p)
    ensures FloodFree(p)
    decreases |p.buffer|, Rank(p), Room(p)
  {
    hide Step;
    if Step(p) != p { AlignedIsFloodFree(Step(p)); }
  }
}
