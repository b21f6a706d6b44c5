/** Well-formed requests as text, and the proof that the parser reads each one
    back: request line, header map and body, whatever bytes follow it. */
module HttpEncode {
  import opened Text
  import opened HttpParser
  import opened HttpSplit

  datatype Field = Field(name: string, value: string)

  /** A chunk of the chunked coding (section 4.1 of RFC 7230). */
  datatype Chunk = Chunk(size: string, extension: string, data: string)

  datatype Framing =
    | NoBody
    | Sized(length: string, body: string)
    | Chunked(chunks: seq<Chunk>, last: string, lastExtension: string, trailers: seq<string>)

  datatype Request = Request(verb: string, uri: string, version: string, fields: seq<Field>, framing: Framing)

  const CRLF := "\r\n"

  // ----- line ends -----

  predicate NoCrlf(s: string) { forall i: nat :: i < |s| ==> !CrlfAt(s, i) }

  /** What the bytes at hand may end their lines with: CRLF in any case, and a bare LF
      as long as there is no CRLF among them. */
  predicate Ends(eol: string, s: string) { eol == CRLF || (eol == "\n" && NoCrlf(s)) }

  lemma EndsRest(eol: string, a: string, b: string)
    requires Ends(eol, a + b)
    ensures Ends(eol, b)
  {
    forall i: nat | CrlfAt(b, i) ensures CrlfAt(a + b, |a| + i) { }
  }

  // ----- the text of a request -----

  function FieldText(f: Field): string { f.name + ": " + f.value }

  function FieldsText(fs: seq<Field>, eol: string := CRLF): string {
    if fs == [] then "" else FieldText(fs[0]) + eol + FieldsText(fs[1..], eol)
  }

  function ChunksText(cs: seq<Chunk>, eol: string := CRLF): string {
    if cs == [] then "" else cs[0].size + cs[0].extension + eol + (cs[0].data + eol + ChunksText(cs[1..], eol))
  }

  function TrailersText(ts: seq<string>, eol: string := CRLF): string {
    if ts == [] then "" else ts[0] + eol + TrailersText(ts[1..], eol)
  }

  function FramingFields(f: Framing): seq<Field> {
    match f
    case NoBody => []
    case Sized(length, _) => [Field("Content-Length", length)]
    case Chunked(_, _, _, _) => [Field("Transfer-Encoding", "chunked")]
  }

  function BodyText(f: Framing, eol: string := CRLF): string {
    match f
    case NoBody => ""
    case Sized(_, body) => body
    case Chunked(cs, last, ext, ts) => ChunksText(cs, eol) + (last + ext + eol + (TrailersText(ts, eol) + eol))
  }

  function RequestLineText(r: Request): string { r.verb + " " + (r.uri + " " + r.version) }

  function AllFields(r: Request): seq<Field> { r.fields + FramingFields(r.framing) }

  /** Up to and with the blank line. */
  function HeadText(r: Request, eol: string := CRLF): string {
    RequestLineText(r) + eol + (FieldsText(AllFields(r), eol) + eol)
  }

  function Encode(r: Request, eol: string := CRLF): string { HeadText(r, eol) + BodyText(r.framing, eol) }

  // ----- which requests are well formed -----

  predicate NoLf(s: string) { '\n' !in s }

  predicate Trimmed(s: string) { s == "" || (!IsBlank(s[0]) && !IsBlank(s[|s| - 1])) }

  predicate GoodField(f: Field) {
    && NoLf(f.name) && ':' !in f.name && Trimmed(f.name)
    && NoLf(f.value) && Trimmed(f.value)
  }

  predicate GoodExtension(e: string) { NoLf(e) && (e == "" || e[0] == ';') }

  predicate GoodChunk(c: Chunk) {
    IsDigits(c.size, 16) && 0 < NumberOf(c.size, 16) == |c.data| <= LONG_MAX && GoodExtension(c.extension)
  }

  function DataOf(cs: seq<Chunk>): string {
    if cs == [] then "" else cs[0].data + DataOf(cs[1..])
  }

  predicate GoodTrailers(ts: seq<string>) {
    forall i :: 0 <= i < |ts| ==> ts[i] != "" && NoLf(ts[i])
  }

  predicate GoodFraming(f: Framing) {
    match f
    case NoBody => true
    case Sized(length, body) => IsDigits(length, 10) && NumberOf(length, 10) == |body| <= LONG_MAX
    case Chunked(cs, last, ext, ts) =>
      && (forall i :: 0 <= i < |cs| ==> GoodChunk(cs[i]))
      && IsDigits(last, 16) && NumberOf(last, 16) == 0 && GoodExtension(ext)
      && GoodTrailers(ts)
  }

  predicate GoodLine(r: Request) { IsVerb(r.verb) && IsWord(r.uri) && IsVersion(r.version) }

  predicate Good(r: Request) {
    && GoodLine(r)
    && (forall i :: 0 <= i < |r.fields| ==> GoodField(r.fields[i]) && !IsFramingName(Lower(r.fields[i].name)))
    && GoodFraming(r.framing)
    && (r.verb in ["GET", "HEAD", "DELETE"] ==> r.framing.NoBody?)
  }

  predicate IsFramingName(name: string) { name == "content-length" || name == "transfer-encoding" }

  // ----- what a request means -----

  /** The header map: lower-case names, the last field of a name counts. */
  function HeaderMap(fs: seq<Field>, h: map<string, string>): map<string, string> {
    if fs == [] then h else HeaderMap(fs[1..], h[Lower(fs[0].name) := fs[0].value])
  }

  function BodyOf(f: Framing): string {
    match f
    case NoBody => ""
    case Sized(_, body) => body
    case Chunked(cs, _, _, _) => DataOf(cs)
  }

  function Opened(r: Request, maxBody: nat): Message {
    Blank(maxBody).(phase := Headers, verb := r.verb, uri := r.uri, path := UriPath(r.uri),
                    query := UriQuery(r.uri), version := r.version)
  }

  function WithHeaders(r: Request, maxBody: nat): Message {
    var h := HeaderMap(AllFields(r), map[]);
    Opened(r, maxBody).(headers := h, keepAlive := KeepsAlive(h, r.version))
  }

  function Meaning(r: Request, maxBody: nat): Message {
    WithHeaders(r, maxBody).(
      phase := Complete, body := BodyOf(r.framing), chunked := r.framing.Chunked?,
      contentLength := if r.framing.Sized? then |r.framing.body| else 0)
  }

  // ----- one aligned step -----

  /** q is on the run from p, and only aligned steps lie between. */
  predicate Leads(p: Parser, q: Parser) {
    Run(p) == Run(q) && (AlignedRun(q) ==> AlignedRun(p))
  }

  lemma LeadsOn(p: Parser, q: Parser, r: Parser)
    requires Leads(p, q) && Leads(q, r)
    ensures Leads(p, r)
  {
  }

  lemma OneStep(p: Parser, q: Parser)
    requires Aligned(p) && Step(p) == q
    ensures Leads(p, q)
  {
  }

  /** A line without LF is found whole. */
  lemma LineFound(line: string, eol: string, rest: string)
    requires NoLf(line) && Ends(eol, line + eol + rest)
    ensures var s := line + eol + rest;
            && FindLine(s) == Line(|line|, |eol|) && EndsAtFirstLf(s)
            && s[..|line|] == line && s[|line| + |eol|..] == rest
    ensures 1 <= |eol| <= 2
  {
    var s := line + eol + rest;
    assert forall i :: 0 <= i < |line| ==> s[i] == line[i];
    if eol == CRLF {
      assert CrlfAt(s, |line|);
      assert s[|line| + 1] == '\n' && s[|line|] == '\r';
      assert FindCrlf(s) == |line|;
    } else {
      assert s[|line|] == '\n' && Find(s, '\n') == |line|;
    }
  }

  lemma CrlfLine(line: string, rest: string)
    requires NoLf(line)
    ensures var s := line + CRLF + rest;
            && FindLine(s) == Line(|line|, 2) && EndsAtFirstLf(s)
            && s[..|line|] == line && s[|line| + 2..] == rest
  {
    LineFound(line, CRLF, rest);
  }

  lemma LineLeads(p: Parser, line: string, eol: string, rest: string)
    requires p.m.phase == RequestLine || p.m.phase == Headers
    requires NoLf(line) && p.buffer == line + eol + rest && Ends(eol, p.buffer)
    ensures p.m.phase == RequestLine ==> Leads(p, Parser(ParseRequestLine(p.m, line), rest))
    ensures p.m.phase == Headers && line == "" ==> Leads(p, Parser(EndHeaders(p.m), rest))
    ensures p.m.phase == Headers && line != "" ==> Leads(p, Parser(ParseHeader(p.m, line), rest))
  {
    LineFound(line, eol, rest);
    hide ParseRequestLine, ParseHeader, EndHeaders, Ends;
    OneStep(p, Step(p));
  }

  // ----- the request line -----

  lemma WordThenSpace(w: string, s: string)
    requires IsWord(w)
    ensures Words(w + " " + s) == [w] + Words(s)
  {
    assert w + " " + s == w + (" " + s);
    WordsOfWord(w, " " + s);
    assert (" " + s)[1..] == s;
  }

  lemma LastWord(w: string)
    requires IsWord(w)
    ensures Words(w) == [w]
  {
    assert w + "" == w;
    WordsOfWord(w, "");
  }

  lemma WordsOfRequestLine(r: Request)
    requires GoodLine(r)
    ensures Words(RequestLineText(r)) == [r.verb, r.uri, r.version]
    ensures NoLf(RequestLineText(r))
  {
    VerbsAreWords(r);
    hide Words;
    WordThenSpace(r.verb, r.uri + " " + r.version);
    WordThenSpace(r.uri, r.version);
    LastWord(r.version);
    NoLfInWords(r);
  }

  lemma NoLfInWords(r: Request)
    requires IsWord(r.verb) && IsWord(r.uri) && IsWord(r.version)
    ensures NoLf(RequestLineText(r))
  {
    assert IsSpace('\n');
  }

  lemma VerbsAreWords(r: Request)
    requires IsVerb(r.verb) && IsVersion(r.version)
    ensures IsWord(r.verb) && IsWord(r.version)
  {
    VerbIsWord(r.verb);
    VersionIsWord(r.version);
    hide IsVerb, IsVersion, IsWord;
  }

  lemma VerbIsWord(verb: string)
    requires IsVerb(verb)
    ensures IsWord(verb)
  {
  }

  lemma VersionIsWord(version: string)
    requires IsVersion(version)
    ensures IsWord(version)
  {
  }

  lemma RequestLineLeads(r: Request, maxBody: nat, eol: string, rest: string)
    requires GoodLine(r) && Ends(eol, RequestLineText(r) + eol + rest)
    ensures Leads(Parser(Blank(maxBody), RequestLineText(r) + eol + rest), Parser(Opened(r, maxBody), rest))
  {
    WordsOfRequestLine(r);
    LineLeads(Parser(Blank(maxBody), RequestLineText(r) + eol + rest), RequestLineText(r), eol, rest);
    hide Words, UriPath;
    assert ParseRequestLine(Blank(maxBody), RequestLineText(r)) == Opened(r, maxBody);
  }

  // ----- the header fields -----

  lemma {:induction false} TrimEndTrimmed(s: string)
    requires Trimmed(s)
    ensures TrimEnd(s) == s && TrimStart(s) == s && Trim(" " + s) == s
  {
    assert (" " + s)[1..] == s;
    assert TrimStart(" " + s) == TrimStart(s);
  }

  lemma ColonFound(f: Field)
    requires GoodField(f)
    ensures var line := FieldText(f);
            && Find(line, ':') == |f.name| < |line|
            && line[..|f.name|] == f.name && line[|f.name| + 1..] == " " + f.value
  {
    var line := FieldText(f);
    assert line[|f.name|] == ':';
    assert forall i :: 0 <= i < |f.name| ==> line[i] == f.name[i];
  }

  lemma FieldRead(m: Message, f: Field)
    requires GoodField(f)
    ensures NoLf(FieldText(f)) && FieldText(f) != ""
    ensures ParseHeader(m, FieldText(f)) == m.(headers := m.headers[Lower(f.name) := f.value])
  {
    ColonFound(f);
    TrimEndTrimmed(f.name);
    TrimEndTrimmed(f.value);
    hide FieldText, Lower;
    assert NoLf(FieldText(f)) by { FieldHasNoLf(f); }
  }

  lemma FieldHasNoLf(f: Field)
    requires GoodField(f)
    ensures NoLf(FieldText(f))
  {
  }

  lemma {:induction false} FieldsLead(m: Message, fs: seq<Field>, eol: string, rest: string)
    requires m.phase == Headers && Ends(eol, FieldsText(fs, eol) + rest)
    requires forall i :: 0 <= i < |fs| ==> GoodField(fs[i])
    ensures Leads(Parser(m, FieldsText(fs, eol) + rest), Parser(m.(headers := HeaderMap(fs, m.headers)), rest))
    decreases |fs|
  {
    if fs == [] {
      assert FieldsText(fs, eol) + rest == rest;
    } else {
      var line, tail := FieldText(fs[0]), FieldsText(fs[1..], eol) + rest;
      assert FieldsText(fs, eol) + rest == line + eol + tail;
      FieldRead(m, fs[0]);
      hide Run, AlignedRun, ParseHeader, FieldText, Lower, Ends;
      EndsRest(eol, line + eol, tail);
      LineLeads(Parser(m, line + eol + tail), line, eol, tail);
      FieldsLead(ParseHeader(m, line), fs[1..], eol, rest);
    }
  }

  // ----- the end of the headers -----

  lemma {:induction false} OtherName(fs: seq<Field>, h: map<string, string>, name: string)
    requires name !in h
    requires forall i :: 0 <= i < |fs| ==> Lower(fs[i].name) != name
    ensures name !in HeaderMap(fs, h)
    decreases |fs|
  {
    if fs != [] { OtherName(fs[1..], h[Lower(fs[0].name) := fs[0].value], name); }
  }

  lemma {:induction false} LastField(fs: seq<Field>, f: Field, h: map<string, string>)
    ensures HeaderMap(fs + [f], h) == HeaderMap(fs, h)[Lower(f.name) := f.value]
    decreases |fs|
  {
    if fs == [] {
      assert fs + [f] == [f] && [f][1..] == [];
    } else {
      assert (fs + [f])[1..] == fs[1..] + [f];
      LastField(fs[1..], f, h[Lower(fs[0].name) := fs[0].value]);
    }
  }

  lemma FramingNames()
    ensures Lower("Content-Length") == "content-length" == Lower("content-length")
    ensures Lower("Transfer-Encoding") == "transfer-encoding" == Lower("transfer-encoding")
    ensures Lower("chunked") == "chunked" && Lower("") == ""
  {
  }

  /** What the header map says about the framing. */
  lemma FramingHeaders(r: Request)
    requires Good(r)
    ensures var h := HeaderMap(AllFields(r), map[]);
            && Header(h, "content-length") == (if r.framing.Sized? then r.framing.length else "")
            && Header(h, "transfer-encoding") == (if r.framing.Chunked? then "chunked" else "")
  {
    FramingNames();
    hide Lower;
    OtherName(r.fields, map[], "content-length");
    OtherName(r.fields, map[], "transfer-encoding");
    match r.framing
    case NoBody => assert r.fields + [] == r.fields;
    case Sized(length, _) => LastField(r.fields, Field("Content-Length", length), map[]);
    case Chunked(_, _, _, _) => LastField(r.fields, Field("Transfer-Encoding", "chunked"), map[]);
  }

  /** The message once the blank line is read, when Content-Length is within the limit. */
  function Framed(r: Request, maxBody: nat): Message {
    WithHeaders(r, maxBody).(
      phase := if BodyText(r.framing) == "" then Complete else Body,
      chunked := r.framing.Chunked?,
      contentLength := if r.framing.Sized? then |r.framing.body| else 0)
  }

  lemma EndOfHeaders(r: Request, maxBody: nat)
    requires Good(r)
    ensures var h := HeaderMap(AllFields(r), map[]);
            var m := EndHeaders(Opened(r, maxBody).(headers := h));
            if r.framing.Sized? && |r.framing.body| > maxBody then m.phase == Error && m.errorCode == 413
            else m == Framed(r, maxBody)
  {
    FramingHeaders(r);
    FramingNames();
    if r.framing.Sized? { StrtolNumber(r.framing.length, 10); }
    if r.framing.Chunked? { assert BodyText(r.framing) != ""; }
    hide Lower, Strtol, KeepsAlive, HeaderMap, UriPath, Header;
  }

  // ----- the chunked coding -----

  lemma {:induction false} TrimEndKeeps(a: string, b: string)
    requires a != "" && !IsBlank(a[|a| - 1])
    ensures exists k: nat :: k <= |b| && TrimEnd(a + b) == a + b[..k]
    decreases |b|
  {
    if b == "" {
      assert a + b == a == a + b[..0];
    } else if IsBlank(b[|b| - 1]) {
      var c := b[..|b| - 1];
      assert (a + b)[..|a + b| - 1] == a + c;
      TrimEndKeeps(a, c);
      var k: nat :| k <= |c| && TrimEnd(a + c) == a + c[..k];
      assert c[..k] == b[..k];
    } else {
      assert b[..|b|] == b;
      assert TrimEnd(a + b) == a + b;
    }
  }

  lemma DigitsAreDark(c: char)
    requires IsDigit(c, 16)
    ensures !IsBlank(c) && c != ';' && c != '\n'
  {
  }

  /** Extensions, and the blanks at their end, do not change the size read. */
  lemma ChunkSizeRead(size: string, extension: string)
    requires IsDigits(size, 16) && NumberOf(size, 16) <= LONG_MAX && GoodExtension(extension)
    ensures NoLf(size + extension) && ChunkSize(size + extension) == NumberOf(size, 16)
  {
    forall i | 0 <= i < |size| ensures !IsBlank(size[i]) && size[i] != ';' && size[i] != '\n' {
      DigitsAreDark(size[i]);
    }
    var line := size + extension;
    TrimEndKeeps(size, extension);
    var k: nat :| k <= |extension| && TrimEnd(line) == size + extension[..k];
    var t := size + extension[..k];
    assert line[0] == size[0];
    assert Trim(line) == t;
    assert forall i :: 0 <= i < |size| ==> t[i] == size[i];
    assert k > 0 ==> t[|size|] == ';';
    assert t[..Find(t, ';')] == size;
    StrtolNumber(size, 16);
  }

  predicate InChunks(m: Message) { m.phase == Body && m.chunked && !m.inTrailer }

  lemma StepFromSizeLine(p: Parser, l: Line, size: nat)
    requires InChunks(p.m) && l.Line?
    requires FindLine(p.buffer) == l && EndsAtFirstLf(p.buffer)
    requires size <= LONG_MAX && ChunkSize(p.buffer[..l.end]) == size
    ensures Aligned(p)
    ensures Step(p) == TakeChunk(p, l, size)
  {
    hide ChunkSize, FindLine, TakeChunk;
  }

  lemma SizeLine(p: Parser, size: string, extension: string, eol: string, rest: string)
    requires InChunks(p.m)
    requires IsDigits(size, 16) && NumberOf(size, 16) <= LONG_MAX && GoodExtension(extension)
    requires p.buffer == size + extension + eol + rest && Ends(eol, p.buffer)
    ensures 1 <= |eol| <= 2
    ensures Leads(p, TakeChunk(p, Line(|size| + |extension|, |eol|), NumberOf(size, 16)))
  {
    hide *;
    var line := size + extension;
    ChunkSizeRead(size, extension);
    LineFound(line, eol, rest);
    StepFromSizeLine(p, Line(|line|, |eol|), NumberOf(size, 16));
    OneStep(p, Step(p));
  }

  lemma ChunkTaken(m: Message, line: string, data: string, eol: string, rest: string)
    requires m.phase == Body && 0 < |data| <= LONG_MAX && 1 <= |eol| <= 2
    ensures var p := Parser(m, line + eol + (data + eol + rest));
            TakeChunk(p, Line(|line|, |eol|), |data|)
            == if |m.body| + |data| <= m.maxBody then Parser(m.(body := m.body + data), rest)
               else p.(m := Fail(m, 413))
  {
    var head, tail := line + eol, data + eol + rest;
    var p := Parser(m, head + tail);
    assert p.buffer[|head|..] == tail;
    assert p.buffer[|head|..|head| + |data|] == data;
    assert p.buffer[|head| + |data| + |eol|..] == rest;
  }

  lemma ChunkLeads(m: Message, c: Chunk, eol: string, rest: string)
    requires InChunks(m) && GoodChunk(c) && Ends(eol, c.size + c.extension + eol + (c.data + eol + rest))
    ensures var p := Parser(m, c.size + c.extension + eol + (c.data + eol + rest));
            if |m.body| + |c.data| <= m.maxBody
            then Leads(p, Parser(m.(body := m.body + c.data), rest))
            else Leads(p, p.(m := Fail(m, 413)))
  {
    hide Leads, TakeChunk, NumberOf, IsDigits, GoodExtension, FindLine, Ends;
    var p := Parser(m, c.size + c.extension + eol + (c.data + eol + rest));
    SizeLine(p, c.size, c.extension, eol, c.data + eol + rest);
    ChunkTaken(m, c.size + c.extension, c.data, eol, rest);
  }

  lemma ChunkGrouped(line: string, eol: string, data: string, more: string, rest: string)
    ensures line + eol + (data + eol + more) + rest == line + eol + (data + eol + (more + rest))
    ensures line + eol + (data + eol + (more + rest)) == (line + eol + (data + eol)) + (more + rest)
  {
  }

  lemma ChunksUnfold(cs: seq<Chunk>, eol: string, rest: string)
    requires cs != []
    ensures ChunksText(cs, eol) + rest
            == cs[0].size + cs[0].extension + eol + (cs[0].data + eol + (ChunksText(cs[1..], eol) + rest))
    ensures Ends(eol, ChunksText(cs, eol) + rest) ==> Ends(eol, ChunksText(cs[1..], eol) + rest)
  {
    var line, data, more := cs[0].size + cs[0].extension, cs[0].data, ChunksText(cs[1..], eol);
    assert ChunksText(cs, eol) == line + eol + (data + eol + more);
    hide *;
    ChunkGrouped(line, eol, data, more, rest);
    if Ends(eol, ChunksText(cs, eol) + rest) { EndsRest(eol, line + eol + (data + eol), more + rest); }
  }

  /** Decoding undoes encoding, up to the last chunk, within the limit. */
  lemma {:induction false} ChunksLead(m: Message, cs: seq<Chunk>, eol: string, rest: string)
    requires InChunks(m) && Ends(eol, ChunksText(cs, eol) + rest)
    requires forall i :: 0 <= i < |cs| ==> GoodChunk(cs[i])
    requires |m.body| + |DataOf(cs)| <= m.maxBody
    ensures Leads(Parser(m, ChunksText(cs, eol) + rest), Parser(m.(body := m.body + DataOf(cs)), rest))
    decreases |cs|
  {
    var p, q := Parser(m, ChunksText(cs, eol) + rest), Parser(m.(body := m.body + DataOf(cs)), rest);
    if cs == [] {
      assert ChunksText(cs, eol) + rest == rest && m.body + DataOf(cs) == m.body;
      assert p == q;
    } else {
      var c, tail := cs[0], ChunksText(cs[1..], eol) + rest;
      var n := m.(body := m.body + c.data);
      ChunksUnfold(cs, eol, rest);
      assert n.body + DataOf(cs[1..]) == m.body + DataOf(cs);
      hide Leads, GoodChunk, ChunksText, DataOf, Ends;
      ChunkLeads(m, c, eol, tail);
      ChunksLead(n, cs[1..], eol, rest);
      LeadsOn(p, Parser(n, tail), q);
    }
  }

  /** Over the limit, decoding ends in 413 at the chunk that crosses it. */
  lemma {:induction false} ChunksExceed(m: Message, cs: seq<Chunk>, eol: string, rest: string)
    requires InChunks(m) && |m.body| <= m.maxBody && Ends(eol, ChunksText(cs, eol) + rest)
    requires forall i :: 0 <= i < |cs| ==> GoodChunk(cs[i])
    requires |m.body| + |DataOf(cs)| > m.maxBody
    ensures var q := Run(Parser(m, ChunksText(cs, eol) + rest)).m; q.phase == Error && q.errorCode == 413
    ensures AlignedRun(Parser(m, ChunksText(cs, eol) + rest))
    decreases |cs|
  {
    var c, tail := cs[0], ChunksText(cs[1..], eol) + rest;
    var p := Parser(m, ChunksText(cs, eol) + rest);
    ChunksUnfold(cs, eol, rest);
    assert |m.body + c.data| + |DataOf(cs[1..])| == |m.body| + |DataOf(cs)|;
    hide Leads, GoodChunk, ChunksText, DataOf, Run, AlignedRun, Ends;
    ChunkLeads(m, c, eol, tail);
    if |m.body| + |c.data| <= m.maxBody {
      var q := Parser(m.(body := m.body + c.data), tail);
      ChunksExceed(q.m, cs[1..], eol, rest);
      LeadsSame(p, q);
    } else {
      var q := p.(m := Fail(m, 413));
      FailedIsAligned(q);
      LeadsSame(p, q);
    }
  }

  lemma LeadsSame(p: Parser, q: Parser)
    requires Leads(p, q) && AlignedRun(q)
    ensures Run(p) == Run(q) && AlignedRun(p)
  {
  }

  lemma FailedIsAligned(q: Parser)
    requires Done(q.m)
    ensures Run(q) == q && AlignedRun(q)
  {
  }

  lemma TrailerLine(p: Parser, line: string, eol: string, rest: string)
    requires p.m.phase == Body && p.m.chunked && p.m.inTrailer && NoLf(line)
    requires p.buffer == line + eol + rest && Ends(eol, p.buffer)
    ensures Leads(p, Parser(if line == "" then p.m.(inTrailer := false, phase := Complete) else p.m, rest))
  {
    LineFound(line, eol, rest);
    hide FindLine, StepLine, StepChunk, StepLength, Ends;
    assert Step(p) == StepTrailer(p);
    assert Aligned(p) by { hide Step; }
    OneStep(p, Step(p));
  }

  lemma {:induction false} TrailersLead(m: Message, ts: seq<string>, eol: string, rest: string)
    requires m.phase == Body && m.chunked && m.inTrailer && GoodTrailers(ts)
    requires Ends(eol, TrailersText(ts, eol) + eol + rest)
    ensures Leads(Parser(m, TrailersText(ts, eol) + eol + rest), Parser(m.(inTrailer := false, phase := Complete), rest))
    decreases |ts|
  {
    var p, q := Parser(m, TrailersText(ts, eol) + eol + rest), Parser(m.(inTrailer := false, phase := Complete), rest);
    if ts == [] {
      assert p.buffer == "" + eol + rest;
      TrailerLine(p, "", eol, rest);
    } else {
      var tail := TrailersText(ts[1..], eol) + eol + rest;
      assert p.buffer == ts[0] + eol + tail;
      assert GoodTrailers(ts[1..]);
      hide Leads, TrailersText, Ends;
      EndsRest(eol, ts[0] + eol, tail);
      TrailerLine(p, ts[0], eol, tail);
      TrailersLead(m, ts[1..], eol, rest);
      LeadsOn(p, Parser(m, tail), q);
    }
  }

  lemma LastChunkLeads(m: Message, f: Framing, eol: string, rest: string)
    requires InChunks(m) && f.Chunked? && GoodFraming(f)
    requires Ends(eol, f.last + f.lastExtension + eol + (TrailersText(f.trailers, eol) + eol) + rest)
    ensures Leads(Parser(m, f.last + f.lastExtension + eol + (TrailersText(f.trailers, eol) + eol) + rest),
                  Parser(m.(phase := Complete), rest))
  {
    var tail := TrailersText(f.trailers, eol) + eol + rest;
    var p := Parser(m, f.last + f.lastExtension + eol + tail);
    assert f.last + f.lastExtension + eol + (TrailersText(f.trailers, eol) + eol) + rest == p.buffer;
    SizeLine(p, f.last, f.lastExtension, eol, tail);
    EndsRest(eol, f.last + f.lastExtension + eol, tail);
    assert p.buffer[|f.last| + |f.lastExtension| + |eol|..] == tail;
    hide Ends;
    TrailersLead(m.(inTrailer := true), f.trailers, eol, rest);
    hide Leads, NumberOf, TrailersText;
    LeadsOn(p, Parser(m.(inTrailer := true), tail), Parser(m.(phase := Complete), rest));
  }

  // ----- the body -----

  lemma SizedBodyLeads(m: Message, body: string, rest: string)
    requires m.phase == Body && !m.chunked && m.contentLength == |body|
    ensures Leads(Parser(m, body + rest), Parser(m.(phase := Complete, body := body), rest))
  {
    var p := Parser(m, body + rest);
    SliceAppend(body, rest, |body|);
    assert p.buffer[..|body|] == body && p.buffer[|body|..] == rest;
    OneStep(p, StepLength(p));
  }

  /** The chunks, and what stands behind them. */
  lemma ChunkedBodySplits(f: Framing, eol: string, rest: string)
    requires f.Chunked? && Ends(eol, BodyText(f, eol) + rest)
    ensures var tail := f.last + f.lastExtension + eol + (TrailersText(f.trailers, eol) + eol) + rest;
            BodyText(f, eol) + rest == ChunksText(f.chunks, eol) + tail && Ends(eol, tail)
  {
    var tail := f.last + f.lastExtension + eol + (TrailersText(f.trailers, eol) + eol) + rest;
    assert BodyText(f, eol) + rest == ChunksText(f.chunks, eol) + tail;
    hide Ends;
    EndsRest(eol, ChunksText(f.chunks, eol), tail);
  }

  lemma ChunkedBodyLeads(m: Message, f: Framing, eol: string, rest: string)
    requires InChunks(m) && m.body == "" && f.Chunked? && GoodFraming(f) && |DataOf(f.chunks)| <= m.maxBody
    requires Ends(eol, BodyText(f, eol) + rest)
    ensures Leads(Parser(m, BodyText(f, eol) + rest), Parser(m.(phase := Complete, body := DataOf(f.chunks)), rest))
  {
    var tail := f.last + f.lastExtension + eol + (TrailersText(f.trailers, eol) + eol) + rest;
    var p := Parser(m, BodyText(f, eol) + rest);
    var n := m.(body := DataOf(f.chunks));
    assert forall i :: 0 <= i < |f.chunks| ==> GoodChunk(f.chunks[i]);
    assert "" + DataOf(f.chunks) == DataOf(f.chunks);
    assert InChunks(n);
    hide *;
    ChunkedBodySplits(f, eol, rest);
    ChunksLead(m, f.chunks, eol, tail);
    LastChunkLeads(n, f, eol, rest);
    LeadsOn(p, Parser(n, tail), Parser(n.(phase := Complete), rest));
  }

  lemma BodyLeads(r: Request, maxBody: nat, eol: string, rest: string)
    requires Good(r) && |BodyOf(r.framing)| <= maxBody && Ends(eol, BodyText(r.framing, eol) + rest)
    ensures Leads(Parser(Framed(r, maxBody), BodyText(r.framing, eol) + rest), Parser(Meaning(r, maxBody), rest))
  {
    var m, f := Framed(r, maxBody), r.framing;
    if f.Chunked? {
      assert BodyText(f) != "";
      hide Ends;
      ChunkedBodyLeads(m, f, eol, rest);
    } else if BodyText(f) == "" {
      assert BodyText(f, eol) + rest == rest;
    } else {
      SizedBodyLeads(m, f.body, rest);
    }
    hide Leads, HeaderMap, KeepsAlive, UriPath, UriQuery;
  }

  // ----- whole requests -----

  lemma NothingBefore(eol: string, body: string)
    ensures eol + body == "" + eol + body && NoLf("")
  {
  }

  function HeadOf(r: Request, fields: seq<Field>, eol: string): string {
    RequestLineText(r) + eol + (FieldsText(fields, eol) + eol)
  }

  lemma HeadSplits(r: Request, fields: seq<Field>, eol: string, body: string)
    requires Ends(eol, HeadOf(r, fields, eol) + body)
    ensures var tail := FieldsText(fields, eol) + (eol + body);
            HeadOf(r, fields, eol) + body == RequestLineText(r) + eol + tail && Ends(eol, tail) && Ends(eol, eol + body)
  {
    var text := FieldsText(fields, eol);
    hide RequestLineText, FieldsText, Ends;
    assert HeadOf(r, fields, eol) + body == RequestLineText(r) + eol + (text + (eol + body));
    EndsRest(eol, RequestLineText(r) + eol, text + (eol + body));
    EndsRest(eol, text, eol + body);
  }

  /** The head of a request, with any fields, brings the parser to the decision at the
      blank line, whatever bytes follow. */
  lemma AnyHeadLeads(r: Request, fields: seq<Field>, maxBody: nat, eol: string, body: string)
    requires GoodLine(r) && forall i :: 0 <= i < |fields| ==> GoodField(fields[i])
    requires Ends(eol, HeadOf(r, fields, eol) + body)
    ensures var h := HeaderMap(fields, map[]);
            Leads(Parser(Blank(maxBody), HeadOf(r, fields, eol) + body),
                  Parser(EndHeaders(Opened(r, maxBody).(headers := h)), body))
  {
    var h := HeaderMap(fields, map[]);
    var tail := FieldsText(fields, eol) + (eol + body);
    var m := Opened(r, maxBody);
    var p := Parser(m.(headers := h), eol + body);
    assert m.phase == Headers && m.headers == map[] by { hide UriPath, UriQuery; }
    hide *;
    NothingBefore(eol, body);
    HeadSplits(r, fields, eol, body);
    RequestLineLeads(r, maxBody, eol, tail);
    FieldsLead(m, fields, eol, eol + body);
    LineLeads(p, "", eol, body);
    LeadsOn(Parser(Blank(maxBody), HeadOf(r, fields, eol) + body), Parser(m, tail), p);
    LeadsOn(Parser(Blank(maxBody), HeadOf(r, fields, eol) + body), p, Parser(EndHeaders(p.m), body));
  }

  lemma HeadLeads(r: Request, maxBody: nat, eol: string, body: string)
    requires Good(r) && Ends(eol, HeadText(r, eol) + body)
    ensures var h := HeaderMap(AllFields(r), map[]);
            Leads(Parser(Blank(maxBody), HeadText(r, eol) + body),
                  Parser(EndHeaders(Opened(r, maxBody).(headers := h)), body))
  {
    FramingFieldsGood(r);
    assert HeadText(r, eol) == HeadOf(r, AllFields(r), eol);
    hide GoodField, Leads, HeadOf, HeadText, Ends, EndHeaders;
    AnyHeadLeads(r, AllFields(r), maxBody, eol, body);
  }

  lemma EncodeSplits(r: Request, eol: string, rest: string)
    ensures Encode(r, eol) + rest == HeadText(r, eol) + (BodyText(r.framing, eol) + rest)
    ensures Ends(eol, Encode(r, eol) + rest) ==> Ends(eol, BodyText(r.framing, eol) + rest)
  {
    hide HeadText, BodyText, Ends;
    assert Encode(r, eol) + rest == HeadText(r, eol) + (BodyText(r.framing, eol) + rest);
    if Ends(eol, Encode(r, eol) + rest) { EndsRest(eol, HeadText(r, eol), BodyText(r.framing, eol) + rest); }
  }

  lemma FramingFieldsGood(r: Request)
    requires Good(r)
    ensures forall i :: 0 <= i < |AllFields(r)| ==> GoodField(AllFields(r)[i])
  {
    hide Lower;
    match r.framing
    case NoBody =>
    case Sized(length, _) => DigitsGood(length);
    case Chunked(_, _, _, _) => ConstantFieldGood();
  }

  lemma DigitsGood(length: string)
    requires IsDigits(length, 10)
    ensures GoodField(Field("Content-Length", length))
  {
    forall i | 0 <= i < |length| ensures !IsBlank(length[i]) && length[i] != '\n' { DigitsAreDark(length[i]); }
  }

  lemma ConstantFieldGood()
    ensures GoodField(Field("Transfer-Encoding", "chunked"))
  {
    EncodingNameGood();
    ChunkedGood();
    hide NoLf, Trimmed;
  }

  lemma EncodingNameGood()
    ensures var s := "Transfer-Encoding"; NoLf(s) && ':' !in s && Trimmed(s)
  {
  }

  lemma ChunkedGood()
    ensures NoLf("chunked") && Trimmed("chunked")
  {
  }

  /** A well-formed request within the limit is read back exactly, and the bytes
      behind it stay in the buffer untouched; with CRLF line ends, and with bare LF
      ones too as long as no CRLF is at hand. */
  lemma ReadsBack(r: Request, maxBody: nat, eol: string, rest: string)
    requires Good(r) && |BodyOf(r.framing)| <= maxBody && Ends(eol, Encode(r, eol) + rest)
    ensures Run(Parser(Blank(maxBody), Encode(r, eol) + rest)) == Parser(Meaning(r, maxBody), rest)
    ensures AlignedRun(Parser(Blank(maxBody), Encode(r, eol) + rest))
  {
    EncodeSplits(r, eol, rest);
    hide Encode, HeadText, HeaderMap, EndHeaders, Good, BodyText, Step, Framed, Meaning, Opened, Ends;
    var p, q := Parser(Framed(r, maxBody), BodyText(r.framing, eol) + rest), Parser(Meaning(r, maxBody), rest);
    HeadLeads(r, maxBody, eol, BodyText(r.framing, eol) + rest);
    EndOfHeaders(r, maxBody);
    BodyLeads(r, maxBody, eol, rest);
    LeadsOn(Parser(Blank(maxBody), Encode(r, eol) + rest), p, q);
    CompleteIsAligned(r, maxBody, rest);
  }

  lemma CompleteIsAligned(r: Request, maxBody: nat, rest: string)
    ensures var q := Parser(Meaning(r, maxBody), rest); Run(q) == q && AlignedRun(q)
  {
  }

  /** A well-formed request over the limit is answered 413, in either coding. */
  lemma ExceedsLimit(r: Request, maxBody: nat, eol: string, rest: string)
    requires Good(r) && |BodyOf(r.framing)| > maxBody && Ends(eol, Encode(r, eol) + rest)
    ensures var q := Run(Parser(Blank(maxBody), Encode(r, eol) + rest)).m; q.phase == Error && q.errorCode == 413
    ensures AlignedRun(Parser(Blank(maxBody), Encode(r, eol) + rest))
  {
    EncodeSplits(r, eol, rest);
    hide Encode, HeadText, HeaderMap, EndHeaders, Ends;
    HeadLeads(r, maxBody, eol, BodyText(r.framing, eol) + rest);
    EndOfHeaders(r, maxBody);
    var h := HeaderMap(AllFields(r), map[]);
    if r.framing.Sized? {
      DoneStaysDone(Parser(EndHeaders(Opened(r, maxBody).(headers := h)), BodyText(r.framing, eol) + rest));
    } else {
      ChunkedBodyExceeds(Framed(r, maxBody), r.framing, eol, rest);
    }
  }

  lemma ChunkedBodyExceeds(m: Message, f: Framing, eol: string, rest: string)
    requires InChunks(m) && m.body == "" && f.Chunked? && GoodFraming(f) && |DataOf(f.chunks)| > m.maxBody
    requires Ends(eol, BodyText(f, eol) + rest)
    ensures var q := Run(Parser(m, BodyText(f, eol) + rest)).m; q.phase == Error && q.errorCode == 413
    ensures AlignedRun(Parser(m, BodyText(f, eol) + rest))
  {
    var tail := f.last + f.lastExtension + eol + (TrailersText(f.trailers, eol) + eol) + rest;
    assert forall i :: 0 <= i < |f.chunks| ==> GoodChunk(f.chunks[i]);
    hide BodyText, ChunksText, TrailersText, Run, AlignedRun, Ends, GoodChunk, DataOf;
    ChunkedBodySplits(f, eol, rest);
    ChunksExceed(m, f.chunks, eol, tail);
  }
}
