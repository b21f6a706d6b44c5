/** Pipelining (section 6.3.2 of RFC 7230): alternating `feed` and `reset` reads a
    stream of requests one after the other, and no delivery schedule changes which
    requests it reads. */
module HttpPipeline {
  import opened Text
  import opened HttpParser
  import opened HttpSplit
  import opened HttpEncode

  // ----- the requests a parser completes -----

  /** A request that starts from nothing uses up bytes to complete. */
  lemma CompleteConsumes(p: Parser)
    requires p.m.phase == RequestLine && Run(p).m.phase == Complete
    ensures |Run(p).buffer| < |p.buffer|
  {
    hide StepLine;
  }

  function Fresh(p: Parser): nat { if p.m.phase == RequestLine then 0 else 1 }

  /** The messages completed by running, and after each resetting and feeding
      nothing, as writeClient does with what is left in the buffer. */
  function Served(p: Parser): seq<Message>
    decreases |p.buffer|, Fresh(p)
  {
    var q := Run(p);
    if q.m.phase != Complete then []
    else
      if p.m.phase == RequestLine then CompleteConsumes(p); [q.m] + Served(Reset(q))
      else [q.m] + Served(Reset(q))
  }

  /** The parser at the end of that: it waits for input or has failed. */
  function Rest(p: Parser): (r: Parser)
    ensures r.m.phase != Complete && Step(r) == r
    decreases |p.buffer|, Fresh(p)
  {
    var q := Run(p);
    if q.m.phase != Complete then q
    else
      if p.m.phase == RequestLine then CompleteConsumes(p); Rest(Reset(q))
      else Rest(Reset(q))
  }

  /** Every run in between is aligned. */
  predicate AlignedStream(p: Parser)
    decreases |p.buffer|, Fresh(p)
  {
    var q := Run(p);
    && AlignedRun(p)
    && (q.m.phase == Complete ==>
          if p.m.phase == RequestLine then CompleteConsumes(p); AlignedStream(Reset(q))
          else AlignedStream(Reset(q)))
  }

  // ----- more bytes later -----

  lemma Unfold(p: Parser)
    ensures var q := Run(p);
            if q.m.phase == Complete
            then && Served(p) == [q.m] + Served(Reset(q)) && Rest(p) == Rest(Reset(q))
                 && AlignedStream(p) == (AlignedRun(p) && AlignedStream(Reset(q)))
                 && (|q.buffer| < |p.buffer| || (|q.buffer| == |p.buffer| && Fresh(p) == 1))
            else Served(p) == [] && Rest(p) == q && AlignedStream(p) == AlignedRun(p)
  {
    if Run(p).m.phase == Complete && p.m.phase == RequestLine { CompleteConsumes(p); }
  }

  /** What has been completed stays, and what is left goes on with the new bytes. */
  lemma {:induction false} ServedAppend(p: Parser, x: string)
    requires AlignedStream(Append(p, x))
    ensures AlignedStream(p) && AlignedStream(Append(Rest(p), x))
    ensures Served(Append(p, x)) == Served(p) + Served(Append(Rest(p), x))
    ensures Rest(Append(p, x)) == Rest(Append(Rest(p), x))
    decreases |p.buffer|, Fresh(p)
  {
    var q := Run(p);
    Unfold(p);
    Unfold(Append(p, x));
    Unfold(Append(q, x));
    hide *;
    RunAppend(p, x);
    if q.m.phase == Complete {
      CompleteAppended(q, x);
      ServedAppend(Reset(q), x);
    } else {
      assert [] + Served(Append(q, x)) == Served(Append(q, x));
    }
  }

  lemma CompleteAppended(q: Parser, x: string)
    requires q.m.phase == Complete
    ensures Run(Append(q, x)) == Append(q, x) && Append(q, x).m == q.m && AlignedRun(q)
    ensures Reset(Append(q, x)) == Append(Reset(q), x) && Fresh(Reset(q)) == 0 && Reset(q).buffer == q.buffer
  {
  }

  // ----- delivery schedules -----

  /** Feed the pieces one by one; after each, serve what is complete. */
  function ServedAll(p: Parser, pieces: seq<string>): seq<Message>
    decreases |pieces|
  {
    if pieces == [] then []
    else Served(Append(p, pieces[0])) + ServedAll(Rest(Append(p, pieces[0])), pieces[1..])
  }

  function RestAll(p: Parser, pieces: seq<string>): Parser
    decreases |pieces|
  {
    if pieces == [] then p else RestAll(Rest(Append(p, pieces[0])), pieces[1..])
  }

  /** The requests read from a stream do not depend on how it is delivered. */
  lemma {:induction false} ScheduleInvariance(p: Parser, pieces: seq<string>)
    requires pieces != []
    requires AlignedStream(Append(p, Concat(pieces)))
    ensures ServedAll(p, pieces) == Served(Append(p, Concat(pieces)))
    ensures RestAll(p, pieces) == Rest(Append(p, Concat(pieces)))
    decreases |pieces|
  {
    var first, x := Append(p, pieces[0]), Concat(pieces[1..]);
    assert p.buffer + Concat(pieces) == first.buffer + x;
    assert Append(p, Concat(pieces)) == Append(first, x);
    ServedAppend(first, x);
    if |pieces| == 1 {
      assert pieces[1..] == [] && x == "";
      assert Append(first, "") == first by { assert first.buffer + "" == first.buffer; }
    } else {
      ScheduleInvariance(Rest(first), pieces[1..]);
    }
  }

  // ----- pipelined requests -----

  function EncodeAll(rs: seq<Request>, eol: string := CRLF): string {
    if rs == [] then "" else Encode(rs[0], eol) + EncodeAll(rs[1..], eol)
  }

  function Meanings(rs: seq<Request>, maxBody: nat): seq<Message> {
    if rs == [] then [] else [Meaning(rs[0], maxBody)] + Meanings(rs[1..], maxBody)
  }

  predicate Fits(r: Request, maxBody: nat) { Good(r) && |BodyOf(r.framing)| <= maxBody }

  lemma {:induction false} Pipelined(rs: seq<Request>, maxBody: nat, eol: string)
    requires (forall i :: 0 <= i < |rs| ==> Fits(rs[i], maxBody)) && Ends(eol, EncodeAll(rs, eol))
    ensures var p := Parser(Blank(maxBody), EncodeAll(rs, eol));
            && AlignedStream(p)
            && Served(p) == Meanings(rs, maxBody)
            && Rest(p) == Parser(Blank(maxBody), "")
    decreases |rs|
  {
    if rs == [] {
      EmptyBuffer(maxBody);
    } else {
      hide Encode, Meaning, Run, AlignedRun, Ends;
      EndsRest(eol, Encode(rs[0], eol), EncodeAll(rs[1..], eol));
      ReadsBack(rs[0], maxBody, eol, EncodeAll(rs[1..], eol));
      Pipelined(rs[1..], maxBody, eol);
      MeaningIsComplete(rs[0], maxBody);
    }
  }

  lemma EmptyBuffer(maxBody: nat)
    ensures var p := Parser(Blank(maxBody), ""); Run(p) == p && AlignedRun(p)
  {
    var p := Parser(Blank(maxBody), "");
    assert FindLine(p.buffer).NoLine?;
    assert Step(p) == p;
  }

  lemma MeaningIsComplete(r: Request, maxBody: nat)
    ensures Meaning(r, maxBody).phase == Complete && Meaning(r, maxBody).maxBody == maxBody
  {
  }

  /** The pipelining round trip: well-formed requests, sent one after the other and
      delivered in any pieces, are read back exactly and in order, and the buffer
      ends empty; with CRLF line ends, and with bare LF ones if no CRLF occurs. */
  lemma PipelineRoundTrip(rs: seq<Request>, eol: string, pieces: seq<string>, maxBody: nat)
    requires (forall i :: 0 <= i < |rs| ==> Fits(rs[i], maxBody)) && Ends(eol, EncodeAll(rs, eol))
    requires pieces != [] && Concat(pieces) == EncodeAll(rs, eol)
    ensures ServedAll(Parser(Blank(maxBody), ""), pieces) == Meanings(rs, maxBody)
    ensures RestAll(Parser(Blank(maxBody), ""), pieces) == Parser(Blank(maxBody), "")
  {
    Pipelined(rs, maxBody, eol);
    var p := Parser(Blank(maxBody), "");
    assert "" + EncodeAll(rs, eol) == EncodeAll(rs, eol);
    ScheduleInvariance(p, pieces);
  }

  // ----- conservation -----

  datatype Call = FeedCall(data: string, maxBody: nat) | ResetCall

  function Apply(p: Parser, c: Call): Parser {
    match c
    case FeedCall(data, maxBody) => Feed(p, data, maxBody)
    case ResetCall => Reset(p)
  }

  function ApplyAll(p: Parser, cs: seq<Call>): Parser {
    if cs == [] then p else Apply(ApplyAll(p, cs[..|cs| - 1]), cs[|cs| - 1])
  }

  function Fed(cs: seq<Call>): string {
    if cs == [] then ""
    else
      var c := cs[|cs| - 1];
      Fed(cs[..|cs| - 1]) + (if c.FeedCall? then c.data else "")
  }

  predicate IsSuffix(t: string, s: string) { |t| <= |s| && t == s[|s| - |t|..] }

  lemma SuffixOfSuffix(a: string, b: string, c: string)
    requires IsSuffix(a, b) && IsSuffix(b, c)
    ensures IsSuffix(a, c)
  {
    assert a == c[|c| - |b|..][|b| - |a|..];
  }

  lemma StepDropsPrefix(p: Parser)
    ensures IsSuffix(Step(p).buffer, p.buffer)
  {
    hide ChunkSize, ParseRequestLine, ParseHeader, EndHeaders, FindLine;
  }

  lemma {:induction false} RunDropsPrefix(p: Parser)
    ensures IsSuffix(Run(p).buffer, p.buffer)
    decreases |p.buffer|, Rank(p), Room(p)
  {
    if Step(p) != p {
      RunDropsPrefix(Step(p));
      StepDropsPrefix(p);
      hide Run, Step;
      SuffixOfSuffix(Run(Step(p)).buffer, Step(p).buffer, p.buffer);
      assert Run(Step(p)) == Run(p) by { RunUnfolds(p); }
    }
  }

  lemma RunUnfolds(p: Parser)
    ensures Run(Step(p)) == Run(p)
  {
  }

  lemma FeedDropsPrefix(p: Parser, data: string, maxBody: nat, fed: string)
    requires IsSuffix(p.buffer, fed)
    ensures IsSuffix(Feed(p, data, maxBody).buffer, fed + data)
  {
    var q := Append(WithLimit(p, maxBody), data);
    RunDropsPrefix(q);
    hide Run;
    assert IsSuffix(q.buffer, fed + data);
    SuffixOfSuffix(Run(q).buffer, q.buffer, fed + data);
  }

  /** Bytes are used up from the front only: after any calls of feed and reset, the
      buffer is the tail of all bytes ever fed. */
  lemma {:induction false} Conservation(maxBody: nat, cs: seq<Call>)
    ensures IsSuffix(ApplyAll(Parser(Blank(maxBody), ""), cs).buffer, Fed(cs))
    decreases |cs|
  {
    if cs != [] {
      var before, c := cs[..|cs| - 1], cs[|cs| - 1];
      Conservation(maxBody, before);
      hide Feed, IsSuffix;
      var p := ApplyAll(Parser(Blank(maxBody), ""), before);
      match c
      case FeedCall(data, limit) => FeedDropsPrefix(p, data, limit, Fed(before));
      case ResetCall => assert Fed(cs) == Fed(before);
    }
  }
}
