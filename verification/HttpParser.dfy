/** What HttpRequest (webserv/src/HttpRequest.cpp) computes, as functions on its
    state: one step of the parser, the run to the point where it needs more
    input, and feeding. */
module HttpParser {
  import opened Text

  datatype Phase = RequestLine | Headers | Body | Complete | Error

  /** The fields of an HttpRequest object, except for its buffer. */
  datatype Message = Message(
    phase: Phase, errorCode: int,
    verb: string, uri: string, path: string, query: string, version: string,
    headers: map<string, string>, body: string,
    contentLength: nat, chunked: bool, keepAlive: bool, maxBody: nat, inTrailer: bool)

  /** An HttpRequest object: the request so far and the bytes not yet used. */
  datatype Parser = Parser(m: Message, buffer: string)

  const DEFAULT_BODY_LIMIT: nat := 1024 * 1024

  /** The message of a parser that has not seen a byte of its request. */
  function Blank(maxBody: nat): Message {
    Message(RequestLine, 0, "", "", "", "", "", map[], "", 0, false, false, maxBody, false)
  }

  /** reset() forgets the request but keeps the unread bytes and the limit. */
  function Reset(p: Parser): Parser { Parser(Blank(p.m.maxBody), p.buffer) }

  function Fail(m: Message, code: int): Message { m.(phase := Error, errorCode := code) }

  predicate Done(m: Message) { m.phase == Complete || m.phase == Error }

  // ----- one line at a time -----

  predicate IsVerb(s: string) {
    s == "GET" || s == "POST" || s == "DELETE" || s == "HEAD" || s == "PUT" || s == "OPTIONS" || s == "PATCH"
  }

  predicate IsVersion(s: string) { s == "HTTP/1.0" || s == "HTTP/1.1" }

  function UriPath(uri: string): string { UrlDecoded(uri[..Find(uri, '?')]) }

  function UriQuery(uri: string): string {
    if Find(uri, '?') < |uri| then uri[Find(uri, '?') + 1..] else ""
  }

  function ParseRequestLine(m: Message, line: string): (r: Message)
    ensures r.maxBody == m.maxBody
  {
    var parts := Words(line);
    if |parts| != 3 then Fail(m, 400)
    else
      var n := m.(verb := parts[0], uri := parts[1], version := parts[2]);
      if !IsVersion(n.version) then Fail(n, 400)
      else if !IsVerb(n.verb) then Fail(n, 501)
      else if Find(n.uri, '?') < |n.uri| then
        n.(path := UriPath(n.uri), query := UriQuery(n.uri), phase := Headers)
      else n.(path := UriPath(n.uri), phase := Headers)
  }

  function ParseHeader(m: Message, line: string): (r: Message)
    ensures r.maxBody == m.maxBody
  {
    var colon := Find(line, ':');
    if colon == |line| then Fail(m, 400)
    else m.(headers := m.headers[Lower(Trim(line[..colon])) := Trim(line[colon + 1..])])
  }

  /** getHeader: the value stored under the lower-case name, or "". */
  function Header(headers: map<string, string>, name: string): string {
    if Lower(name) in headers then headers[Lower(name)] else ""
  }

  function KeepsAlive(headers: map<string, string>, version: string): bool {
    var connection := Header(headers, "connection");
    if version == "HTTP/1.1" then connection == "" || Lower(connection) != "close"
    else connection != "" && Lower(connection) == "keep-alive"
  }

  predicate NeverHasBody(verb: string) { verb == "GET" || verb == "HEAD" || verb == "DELETE" }

  /** The Content-Length field, checked against the limit. */
  function TakeLength(m: Message): (r: Message)
    ensures r.maxBody == m.maxBody
  {
    var length := Header(m.headers, "content-length");
    if length == "" then m
    else
      var n := m.(contentLength := ToSize(Strtol(length, 10)));
      if n.contentLength > n.maxBody then Fail(n, 413) else n
  }

  /** The Transfer-Encoding field and the method decide how the body is framed. */
  function ChooseFraming(m: Message): (r: Message)
    ensures r.maxBody == m.maxBody
  {
    var r := if Lower(Header(m.headers, "transfer-encoding")) == "chunked" then m.(chunked := true) else m;
    if NeverHasBody(r.verb) then r.(phase := Complete)
    else if r.chunked || r.contentLength > 0 then r.(phase := Body)
    else r.(phase := Complete)
  }

  /** The blank line after the headers. */
  function EndHeaders(m: Message): (r: Message)
    ensures r.maxBody == m.maxBody
  {
    var n := TakeLength(m.(keepAlive := KeepsAlive(m.headers, m.version)));
    if n.phase == Error then n else ChooseFraming(n)
  }

  // ----- steps -----

  function Rank(p: Parser): nat { if Done(p.m) then 0 else 1 }

  /** How much the body can still grow; only a wrapped chunk needs it. */
  function Room(p: Parser): nat {
    var bound := p.m.maxBody + SIZE_RANGE;
    if |p.m.body| < bound then bound - |p.m.body| else 0
  }

  /** A step comes closer to stopping: it uses up bytes, ends the request, or
      fills the body. */
  predicate Progress(p: Parser, r: Parser) {
    && r.m.maxBody == p.m.maxBody
    && |r.buffer| <= |p.buffer|
    && (|r.buffer| == |p.buffer| ==> Rank(r) < Rank(p) || (Rank(r) == Rank(p) && Room(r) < Room(p)))
  }

  function StepLine(p: Parser): (r: Parser)
    requires FindLine(p.buffer).Line?
    ensures Progress(p, r) && |r.buffer| < |p.buffer|
  {
    var l := FindLine(p.buffer);
    var line := p.buffer[..l.end];
    var m := if p.m.phase == RequestLine then ParseRequestLine(p.m, line)
             else if line == "" then EndHeaders(p.m)
             else ParseHeader(p.m, line);
    Parser(m, p.buffer[l.end + l.width..])
  }

  /** The Content-Length body is taken once all of it is there. */
  function StepLength(p: Parser): (r: Parser)
    requires p.m.phase == Body
    ensures r == p || Progress(p, r)
  {
    if |p.buffer| < p.m.contentLength then p
    else Parser(p.m.(body := p.buffer[..p.m.contentLength], phase := Complete), p.buffer[p.m.contentLength..])
  }

  /** The signed number on a chunk-size line, extensions stripped. */
  function ChunkSize(line: string): (n: int)
    ensures -LONG_MAX - 1 <= n <= LONG_MAX
  {
    var t := Trim(line);
    Strtol(t[..Find(t, ';')], 16)
  }

  /** a + size in size_t, for a string length a and a long cast to size_t. */
  function SizeSum(a: nat, size: int): nat
    requires -LONG_MAX - 1 <= size <= LONG_MAX
  {
    if a + size < 0 then a + size + SIZE_RANGE else a + size
  }

  /** pos + lineEnd + chunkSize + lineEnd in size_t. */
  function FrameLength(l: Line, size: int): nat
    requires l.Line?
    requires -LONG_MAX - 1 <= size <= LONG_MAX
  {
    SizeSum(l.end + 2 * l.width, size)
  }

  /** A size line read as `size`: the last chunk, one whose data is not all there,
      one that exceeds the limit, or one to take. */
  function TakeChunk(p: Parser, l: Line, size: int): (r: Parser)
    requires p.m.phase == Body
    requires l.Line? && 1 <= l.width && l.end + l.width <= |p.buffer|
    requires -LONG_MAX - 1 <= size <= LONG_MAX
    ensures r == p || Progress(p, r)
  {
    var data := l.end + l.width;
    if size == 0 then Parser(p.m.(inTrailer := true), p.buffer[data..])
    else if |p.buffer| < FrameLength(l, size) then p
    else if SizeSum(|p.m.body|, size) > p.m.maxBody then p.(m := Fail(p.m, 413))
    else
      // string::append copies at most what is there
      var end := if size < 0 then |p.buffer| else data + size;
      Parser(p.m.(body := p.m.body + p.buffer[data..end]), p.buffer[FrameLength(l, size)..])
  }

  function StepChunk(p: Parser): (r: Parser)
    requires p.m.phase == Body
    requires FindLine(p.buffer).Line?
    ensures r == p || Progress(p, r)
  {
    var l := FindLine(p.buffer);
    TakeChunk(p, l, ChunkSize(p.buffer[..l.end]))
  }

  function StepTrailer(p: Parser): (r: Parser)
    requires FindLine(p.buffer).Line?
    ensures Progress(p, r)
  {
    var l := FindLine(p.buffer);
    var m := if l.end == 0 then p.m.(inTrailer := false, phase := Complete) else p.m;
    Parser(m, p.buffer[l.end + l.width..])
  }

  predicate ReadsLine(m: Message) {
    m.phase == RequestLine || m.phase == Headers || (m.phase == Body && m.chunked)
  }

  /** One step. A parser that waits for input, or is done, steps to itself. */
  function Step(p: Parser): (r: Parser)
    ensures r == p || Progress(p, r)
  {
    if Done(p.m) || (ReadsLine(p.m) && FindLine(p.buffer).NoLine?) then p
    else if p.m.phase != Body then StepLine(p)
    else if !p.m.chunked then StepLength(p)
    else if p.m.inTrailer then StepTrailer(p)
    else StepChunk(p)
  }

  /** The one place where the code loops for ever: a negative chunk size that
      wraps the frame to nothing, with no byte behind the size line. */
  predicate Spins(p: Parser) {
    && p.m.phase == Body && p.m.chunked && !p.m.inTrailer
    && FindLine(p.buffer).Line?
    && var l := FindLine(p.buffer);
       SpinsOn(p, l, ChunkSize(p.buffer[..l.end]))
  }

  predicate SpinsOn(p: Parser, l: Line, size: int)
    requires l.Line?
    requires -LONG_MAX - 1 <= size <= LONG_MAX
  {
    && size < 0 && FrameLength(l, size) == 0
    && SizeSum(|p.m.body|, size) <= p.m.maxBody
    && l.end + l.width == |p.buffer|
  }

  /** Step until nothing more can be done with the bytes at hand. */
  function Run(p: Parser): (r: Parser)
    ensures Step(r) == r
    ensures r.m.maxBody == p.m.maxBody && |r.buffer| <= |p.buffer|
    decreases |p.buffer|, Rank(p), Room(p)
  {
    if Step(p) == p then p else Run(Step(p))
  }

  lemma DoneStaysDone(p: Parser)
    requires Done(p.m)
    ensures Step(p) == p && Run(p) == p
  {
  }

  /** What the loops of `feed` and `parseChunked` do to the run, branch by branch. */
  lemma RunFromLine(p: Parser)
    requires p.m.phase == RequestLine || p.m.phase == Headers
    ensures FindLine(p.buffer).NoLine? ==> Step(p) == p
    ensures FindLine(p.buffer).Line? ==> Run(p) == Run(StepLine(p))
  {
  }

  lemma RunFromLength(p: Parser)
    requires p.m.phase == Body && !p.m.chunked
    ensures Step(p) == StepLength(p) && Run(p) == Run(StepLength(p))
  {
  }

  lemma RunFromTrailer(p: Parser)
    requires p.m.phase == Body && p.m.chunked && p.m.inTrailer
    ensures FindLine(p.buffer).NoLine? ==> Step(p) == p
    ensures FindLine(p.buffer).Line? ==> Run(p) == Run(StepTrailer(p))
  {
  }

  lemma RunFromChunk(p: Parser)
    requires p.m.phase == Body && p.m.chunked && !p.m.inTrailer
    ensures FindLine(p.buffer).NoLine? ==> Step(p) == p
    ensures FindLine(p.buffer).Line? ==> Step(p) == StepChunk(p) && Run(p) == Run(StepChunk(p))
  {
  }

  /** The step at a size line is to take its chunk, and the looping case is its too. */
  lemma TakeChunkSteps(p: Parser)
    requires p.m.phase == Body && p.m.chunked && !p.m.inTrailer && FindLine(p.buffer).Line?
    ensures var l := FindLine(p.buffer);
            var size := ChunkSize(p.buffer[..l.end]);
            var q := TakeChunk(p, l, size);
            && Step(p) == q && Run(p) == Run(q)
            && (q.m.phase == Error ==> Step(q) == q)
            && (Spins(p) <==> SpinsOn(p, l, size))
  {
    hide ChunkSize, FindLine, TakeChunk;
    if Step(p).m.phase == Error { DoneStaysDone(Step(p)); }
  }

  lemma TakeProgress(p: Parser, l: Line, size: int)
    requires p.m.phase == Body
    requires l.Line? && 1 <= l.width && l.end + l.width <= |p.buffer|
    requires -LONG_MAX - 1 <= size <= LONG_MAX
    requires size == 0 || FrameLength(l, size) <= |p.buffer|
    ensures Progress(p, TakeChunk(p, l, size)) || SpinsOn(p, l, size)
  {
  }

  /** The bytes at hand do not make up the next line, body or chunk. */
  predicate Waits(p: Parser) {
    || (ReadsLine(p.m) && FindLine(p.buffer).NoLine?)
    || (p.m.phase == Body && !p.m.chunked && |p.buffer| < p.m.contentLength)
    || (p.m.phase == Body && p.m.chunked && !p.m.inTrailer && FindLine(p.buffer).Line?
        && var l := FindLine(p.buffer);
           var size := ChunkSize(p.buffer[..l.end]);
           size != 0 && |p.buffer| < FrameLength(l, size))
  }

  /** The loops of `feed` stop exactly when the request is over or bytes are
      missing, and turn without effect exactly in the looping case. */
  lemma StopsExactly(p: Parser)
    ensures Step(p) == p <==> Done(p.m) || Waits(p) || Spins(p)
  {
    if InSizeLine(p) {
      var l := FindLine(p.buffer);
      var size := ChunkSize(p.buffer[..l.end]);
      hide ChunkSize;
      assert Step(p) == TakeChunk(p, l, size);
      assert p.m.body + [] == p.m.body;
      if size == 0 || FrameLength(l, size) <= |p.buffer| { TakeProgress(p, l, size); }
    } else {
      StopsOutsideChunks(p);
    }
  }

  predicate InSizeLine(p: Parser) {
    p.m.phase == Body && p.m.chunked && !p.m.inTrailer && FindLine(p.buffer).Line?
  }

  lemma StopsOutsideChunks(p: Parser)
    requires !InSizeLine(p)
    ensures Step(p) == p <==> Done(p.m) || Waits(p)
  {
    hide StepChunk, ParseRequestLine, ParseHeader, EndHeaders;
  }

  // ----- feeding -----

  function Append(p: Parser, data: string): Parser { p.(buffer := p.buffer + data) }

  function WithLimit(p: Parser, maxBody: nat): Parser { p.(m := p.m.(maxBody := maxBody)) }

  function Feed(p: Parser, data: string, maxBody: nat): Parser {
    Run(Append(WithLimit(p, maxBody), data))
  }
}
