/** What a request means to the parser, read off its text: the words of the request
    line, the decoded path, the last value of each header field, how the body is
    framed and whether the connection is to be kept; and which lines are refused. */
module HttpReadings {
  import opened Text
  import opened TextLaws
  import opened HttpParser
  import opened HttpSplit
  import opened HttpEncode

  // ----- lines -----

  /** A line ends at the first CRLF, or, without any, at the first LF. */
  lemma LineEndsAt(s: string, i: nat)
    ensures CrlfAt(s, i) && NoCrlf(s[..i + 1]) ==> FindLine(s) == Line(i, 2)
    ensures NoCrlf(s) && i < |s| && s[i] == '\n' && NoLf(s[..i]) ==> FindLine(s) == Line(i, 1)
  {
    if CrlfAt(s, i) && NoCrlf(s[..i + 1]) {
      forall k: nat | k < i ensures !CrlfAt(s, k) { assert CrlfAt(s, k) ==> CrlfAt(s[..i + 1], k); }
    }
    if i < |s| && s[i] == '\n' && NoLf(s[..i]) {
      forall k | 0 <= k < i ensures s[k] != '\n' { assert s[..i][k] == s[k]; }
    }
  }

  // ----- the request line -----

  const VERBS := ["GET", "POST", "DELETE", "HEAD", "PUT", "OPTIONS", "PATCH"]
  const VERSIONS := ["HTTP/1.0", "HTTP/1.1"]

  lemma FirstLineLeads(line: string, maxBody: nat, eol: string, rest: string)
    requires NoLf(line) && Ends(eol, line + eol + rest)
    ensures Run(Parser(Blank(maxBody), line + eol + rest)) == Run(Parser(ParseRequestLine(Blank(maxBody), line), rest))
  {
    LineLeads(Parser(Blank(maxBody), line + eol + rest), line, eol, rest);
    hide Run, AlignedRun, ParseRequestLine, Ends;
  }

  /** Which request lines are refused, and how: 400 unless there are three words and
      the last is a known version, 501 for an unknown method. The bytes behind the
      line are left alone. */
  lemma RefusedRequestLines(words: seq<string>, gaps: seq<string>, maxBody: nat, eol: string, rest: string)
    requires IsSpacing(words, gaps)
    requires NoLf(Spaced(words, gaps)) && Ends(eol, Spaced(words, gaps) + eol + rest)
    ensures var q := Run(Parser(Blank(maxBody), Spaced(words, gaps) + eol + rest));
            && (|words| != 3 || words[2] !in VERSIONS ==> q.m.phase == Error && q.m.errorCode == 400 && q.buffer == rest)
            && (|words| == 3 && words[2] in VERSIONS && words[0] !in VERBS ==>
                  q.m.phase == Error && q.m.errorCode == 501 && q.buffer == rest)
  {
    var line := Spaced(words, gaps);
    var m := ParseRequestLine(Blank(maxBody), line);
    WordsOfSpaced(words, gaps);
    hide Words, Run, Ends, UriPath, UriQuery, Spaced;
    FirstLineLeads(line, maxBody, eol, rest);
    if m.phase == Error { DoneStaysDone(Parser(m, rest)); }
  }

  /** How a target is written: pieces that write the path, and perhaps a question mark
      and the query as it is. */
  predicate IsTarget(uri: string, pieces: seq<string>, path: string, query: string) {
    && |pieces| == |path| && (forall k :: 0 <= k < |path| ==> Writes(pieces[k], path[k]))
    && '?' !in Joined(pieces)
    && (uri == Joined(pieces) + "?" + query || (uri == Joined(pieces) && query == ""))
  }

  lemma QuestionMark(written: string, query: string)
    requires '?' !in written
    ensures var uri := written + "?" + query;
            Find(uri, '?') == |written| < |uri| && uri[..|written|] == written && uri[|written| + 1..] == query
    ensures Find(written, '?') == |written| && written[..|written|] == written
  {
    var uri := written + "?" + query;
    assert uri == written + ("?" + query) && uri[|written|] == '?';
    FindBehind(written, "?" + query, '?');
    FindBehind(written, "", '?');
    assert written + "" == written;
  }

  lemma TargetRead(uri: string, pieces: seq<string>, path: string, query: string)
    requires IsTarget(uri, pieces, path, query)
    ensures UriPath(uri) == path && UriQuery(uri) == query
    ensures UriQuery(uri) != "" ==> Find(uri, '?') < |uri|
  {
    UrlRoundTrip(pieces, path);
    QuestionMark(Joined(pieces), query);
    hide Joined, Writes, UrlDecoded, Find;
  }

  lemma LineParsed(words: seq<string>, line: string, maxBody: nat)
    requires Words(line) == words && |words| == 3 && words[0] in VERBS && words[2] in VERSIONS
    ensures ParseRequestLine(Blank(maxBody), line)
            == Blank(maxBody).(phase := Headers, verb := words[0], uri := words[1], version := words[2],
                               path := UriPath(words[1]), query := UriQuery(words[1]))
  {
    hide Words, UriPath;
  }

  /** A good request line is taken apart into its words, and the target into the path,
      escapes and pluses decoded, and the query as it stands. */
  lemma RequestLineRead(words: seq<string>, gaps: seq<string>, pieces: seq<string>, path: string, query: string,
                        maxBody: nat, eol: string, rest: string)
    requires IsSpacing(words, gaps) && |words| == 3 && words[0] in VERBS && words[2] in VERSIONS
    requires IsTarget(words[1], pieces, path, query)
    requires NoLf(Spaced(words, gaps)) && Ends(eol, Spaced(words, gaps) + eol + rest)
    ensures Run(Parser(Blank(maxBody), Spaced(words, gaps) + eol + rest))
            == Run(Parser(Blank(maxBody).(phase := Headers, verb := words[0], uri := words[1], version := words[2],
                                          path := path, query := query), rest))
  {
    assert |gaps| == |words| + 1;
    hide *;
    WordsOfSpaced(words, gaps);
    TargetRead(words[1], pieces, path, query);
    LineParsed(words, Spaced(words, gaps), maxBody);
    FirstLineLeads(Spaced(words, gaps), maxBody, eol, rest);
  }

  /** A request within the limit is read with the path and the query its target was
      written from. */
  lemma PathAndQuery(r: Request, pieces: seq<string>, path: string, query: string, maxBody: nat, eol: string, rest: string)
    requires Good(r) && |BodyOf(r.framing)| <= maxBody && Ends(eol, Encode(r, eol) + rest)
    requires IsTarget(r.uri, pieces, path, query)
    ensures var m := Run(Parser(Blank(maxBody), Encode(r, eol) + rest)).m;
            m.phase == Complete && m.uri == r.uri && m.path == path && m.query == query
  {
    TargetRead(r.uri, pieces, path, query);
    hide IsTarget, Encode, Run, Good, BodyOf, UriPath, UriQuery, HeaderMap, KeepsAlive, Ends;
    ReadsBack(r, maxBody, eol, rest);
  }

  // ----- header lines -----

  /** A header line without a colon is refused with 400. */
  lemma RefusedHeaderLine(m: Message, line: string, eol: string, rest: string)
    requires m.phase == Headers && line != "" && NoLf(line) && ':' !in line && Ends(eol, line + eol + rest)
    ensures var q := Run(Parser(m, line + eol + rest));
            q.m.phase == Error && q.m.errorCode == 400 && q.buffer == rest && q.m.headers == m.headers
  {
    LineLeads(Parser(m, line + eol + rest), line, eol, rest);
    assert Find(line, ':') == |line|;
    hide Run, AlignedRun, Ends;
    DoneStaysDone(Parser(Fail(m, 400), rest));
  }

  /** Blanks around name and value do not matter, nor does the case of the name; what is
      in the value stays, colons included. */
  lemma HeaderLineRead(m: Message, f: Field, a: string, b: string, c: string, d: string, eol: string, rest: string)
    requires m.phase == Headers && ':' !in f.name && HasDarkEnds(f.name) && HasDarkEnds(f.value)
    requires AllBlank(a) && AllBlank(b) && AllBlank(c) && AllBlank(d)
    requires var line := a + f.name + b + ":" + (c + f.value + d); NoLf(line) && Ends(eol, line + eol + rest)
    ensures var line := a + f.name + b + ":" + (c + f.value + d);
            Run(Parser(m, line + eol + rest)) == Run(Parser(m.(headers := m.headers[Lower(f.name) := f.value]), rest))
  {
    var name, value := a + f.name + b, c + f.value + d;
    var line := name + ":" + value;
    assert ':' !in name;
    FindBehind(name, ":" + value, ':');
    assert Find(":" + value, ':') == 0 && line == name + (":" + value);
    assert line[..|name|] == name && line[|name| + 1..] == value;
    TrimOf(a, f.name, b);
    TrimOf(c, f.value, d);
    hide Trim, Lower, Run, AlignedRun, Ends, NoLf;
    LineLeads(Parser(m, line + eol + rest), line, eol, rest);
  }

  /** The value of the last field of a name, told in lower case; "" without one. */
  function LastValue(fs: seq<Field>, name: string): string
    decreases |fs|
  {
    if fs == [] then ""
    else if Lower(fs[|fs| - 1].name) == name then fs[|fs| - 1].value
    else LastValue(fs[..|fs| - 1], name)
  }

  lemma {:induction false} HeadersMean(fs: seq<Field>, name: string)
    requires Lower(name) == name
    ensures Header(HeaderMap(fs, map[]), name) == LastValue(fs, name)
    decreases |fs|
  {
    if fs != [] {
      var n := |fs| - 1;
      assert fs == fs[..n] + [fs[n]];
      hide Lower, HeaderMap;
      HeadersMean(fs[..n], name);
      LastField(fs[..n], fs[n], map[]);
    }
  }

  lemma FieldNames()
    ensures Lower("content-length") == "content-length" && Lower("transfer-encoding") == "transfer-encoding"
    ensures Lower("connection") == "connection" && Lower("host") == "host"
  {
  }

  /** Any size line, blanks around it: what stands before the first semicolon counts, as
      strtol reads it; text without a number is the size zero. */
  lemma AnySizeLine(a: string, core: string, b: string)
    requires AllBlank(a) && AllBlank(b) && HasDarkEnds(core)
    ensures ChunkSize(a + core + b) == Strtol(core[..Find(core, ';')], 16)
  {
    TrimOf(a, core, b);
    hide Trim, Strtol, Find;
  }

  // ----- keeping the connection -----

  /** HTTP/1.1 keeps the connection unless told to close it; HTTP/1.0 closes it unless
      told to keep it alive (section 6.3 of RFC 7230). */
  predicate AsksToStay(fs: seq<Field>, version: string) {
    var connection := Lower(LastValue(fs, "connection"));
    if version == "HTTP/1.1" then connection != "close" else connection == "keep-alive"
  }

  lemma KeptAsAsked(fs: seq<Field>, version: string)
    ensures KeepsAlive(HeaderMap(fs, map[]), version) <==> AsksToStay(fs, version)
  {
    FieldNames();
    HeadersMean(fs, "connection");
    var v := LastValue(fs, "connection");
    assert v == "" <==> Lower(v) == "";
    hide HeaderMap, LastValue, Header;
    EmptyIsNoWord();
  }

  lemma EmptyIsNoWord()
    ensures "close" != "" && "keep-alive" != ""
  {
  }

  lemma MeaningStays(r: Request, maxBody: nat)
    ensures Meaning(r, maxBody).keepAlive <==> AsksToStay(AllFields(r), r.version)
  {
    KeptAsAsked(AllFields(r), r.version);
    hide HeaderMap, KeepsAlive, AsksToStay, AllFields, UriPath, UriQuery;
  }

  // ----- how the body is framed -----

  /** The number the Content-Length field is read as, cast to size_t; 0 without one. */
  ghost predicate Announces(fs: seq<Field>, size: nat) {
    var value := LastValue(fs, "content-length");
    if value == "" then size == 0
    else exists space, sign, digits, tail ::
      && IsNumeral(space, sign, "", digits, tail, 10) && value == space + (sign + ("" + digits + tail))
      && var n := Clamped(if sign == "-" then -(NumberOf(digits, 10) as int) else NumberOf(digits, 10));
         size == if n < 0 then n + 0x1_0000_0000_0000_0000 else n
  }

  lemma AnnouncedRead(fs: seq<Field>, size: nat)
    requires Announces(fs, size)
    ensures var value := LastValue(fs, "content-length");
            if value == "" then size == 0 else size == ToSize(Strtol(value, 10))
  {
    var value := LastValue(fs, "content-length");
    if value != "" {
      var space, sign, digits, tail :|
        && IsNumeral(space, sign, "", digits, tail, 10) && value == space + (sign + ("" + digits + tail))
        && var n := Clamped(if sign == "-" then -(NumberOf(digits, 10) as int) else NumberOf(digits, 10));
           size == if n < 0 then n + 0x1_0000_0000_0000_0000 else n;
      hide IsNumeral, NumberOf, Strtol;
      StrtolReads(space, sign, "", digits, tail, 10);
    }
  }

  /** The decision at the blank line, on what the header map says. */
  lemma BlankLineDecides(m: Message, size: nat)
    requires m.phase == Headers && m.contentLength == 0 && !m.chunked
    requires var v := Header(m.headers, "content-length"); if v == "" then size == 0 else size == ToSize(Strtol(v, 10))
    ensures var n := EndHeaders(m);
            && n.maxBody == m.maxBody && n.body == m.body && n.inTrailer == m.inTrailer
            && n.keepAlive == KeepsAlive(m.headers, m.version) && n.contentLength == size
            && if size > m.maxBody then n.phase == Error && n.errorCode == 413
               else
                 var chunked := Lower(Header(m.headers, "transfer-encoding")) == "chunked";
                 && n.chunked == chunked
                 && n.phase == if m.verb in ["GET", "HEAD", "DELETE"] || (!chunked && size == 0) then Complete else Body
  {
    hide Header, KeepsAlive, Lower, Strtol, ToSize;
  }

  /** The message at the blank line, by what the fields announce. */
  lemma FramingAtBlank(r: Request, fs: seq<Field>, maxBody: nat, size: nat)
    requires Announces(fs, size)
    ensures var m := EndHeaders(Opened(r, maxBody).(headers := HeaderMap(fs, map[])));
            && m.maxBody == maxBody && m.body == "" && !m.inTrailer
            && m.contentLength == size && m.keepAlive == AsksToStay(fs, r.version)
            && if size > maxBody then m.phase == Error && m.errorCode == 413
               else
                 var chunked := Lower(LastValue(fs, "transfer-encoding")) == "chunked";
                 && m.chunked == chunked
                 && m.phase == if r.verb in ["GET", "HEAD", "DELETE"] || (!chunked && size == 0) then Complete else Body
  {
    var m := Opened(r, maxBody).(headers := HeaderMap(fs, map[]));
    assert m.phase == Headers && m.contentLength == 0 && !m.chunked && m.verb == r.verb && m.version == r.version
           && m.maxBody == maxBody && m.body == "" && !m.inTrailer by { hide UriPath, UriQuery, HeaderMap; }
    hide *;
    FieldNames();
    HeadersMean(fs, "content-length");
    HeadersMean(fs, "transfer-encoding");
    KeptAsAsked(fs, r.version);
    AnnouncedRead(fs, size);
    BlankLineDecides(m, size);
  }

  /** What becomes of any fields, repeated ones and both framings included: a length
      over the limit, or a negative one, is refused with 413; GET, HEAD and DELETE take
      no body; the chunked coding goes before a length; otherwise the body is the next
      bytes, as many as announced, once they are there. */
  lemma FramingChosen(r: Request, fs: seq<Field>, maxBody: nat, size: nat, eol: string, rest: string)
    requires GoodLine(r) && (forall i :: 0 <= i < |fs| ==> GoodField(fs[i]))
    requires Announces(fs, size) && Ends(eol, HeadOf(r, fs, eol) + rest)
    ensures var q := Run(Parser(Blank(maxBody), HeadOf(r, fs, eol) + rest));
            if size > maxBody then q.m.phase == Error && q.m.errorCode == 413 && q.buffer == rest
            else if r.verb in ["GET", "HEAD", "DELETE"] then q.m.phase == Complete && q.m.body == "" && q.buffer == rest
            else if Lower(LastValue(fs, "transfer-encoding")) == "chunked" then
              exists m :: q == Run(Parser(m, rest)) && InChunks(m) && m.body == "" && m.maxBody == maxBody
            else if |rest| >= size then q.m.phase == Complete && q.m.body == rest[..size] && q.buffer == rest[size..]
            else q.m.phase == Body && q.buffer == rest
  {
    var m := EndHeaders(Opened(r, maxBody).(headers := HeaderMap(fs, map[])));
    AnyHeadLeads(r, fs, maxBody, eol, rest);
    FramingAtBlank(r, fs, maxBody, size);
    hide AlignedRun, EndHeaders, Opened, HeaderMap, GoodLine, Announces, HeadOf, Ends, Lower, LastValue;
    var p := Parser(m, rest);
    assert Run(Parser(Blank(maxBody), HeadOf(r, fs, eol) + rest)) == Run(p);
    BodyStarts(p);
  }

  lemma BodyStarts(p: Parser)
    requires Done(p.m) || p.m.phase == Body
    ensures Done(p.m) ==> Run(p) == p
    ensures p.m.phase == Body && !p.m.chunked && |p.buffer| < p.m.contentLength ==> Run(p) == p
    ensures p.m.phase == Body && !p.m.chunked && |p.buffer| >= p.m.contentLength ==>
              var q := Run(p); q.m.phase == Complete && q.m.body == p.buffer[..p.m.contentLength]
                               && q.buffer == p.buffer[p.m.contentLength..]
  {
    if Done(p.m) { DoneStaysDone(p); }
    if p.m.phase == Body && !p.m.chunked {
      RunFromLength(p);
      if |p.buffer| >= p.m.contentLength { DoneStaysDone(StepLength(p)); }
    }
  }
}
