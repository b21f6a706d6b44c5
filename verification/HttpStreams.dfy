/** Streams that show where the promises about the parser fail: whole deliveries from
    a parser that has seen nothing; and what keeps clear of the looping case. */
module HttpStreams {
  import opened Text
  import opened HttpParser
  import opened HttpSplit
  import opened HttpEncode
  import opened HttpPipeline
  import opened HttpInvariants

  // ----- behind the head of a chunked request -----

  predicate IsChunked(r: Request) { Good(r) && r.framing.Chunked? }

  const POST := Request("POST", "/", "HTTP/1.1", [], Chunked([], "0", "", []))

  /** There is such a request. */
  lemma PostIsChunked()
    ensures IsChunked(POST)
  {
    assert NumberOf("0"[..0], 16) == 0;
  }

  /** The message of a parser that stands before the first chunk. */
  function BeforeChunks(r: Request, maxBody: nat): (m: Message)
    requires IsChunked(r)
    ensures InChunks(m) && m.body == "" && m.maxBody == maxBody
  {
    assert BodyText(r.framing) != "";
    Framed(r, maxBody)
  }

  lemma HeadRead(r: Request, maxBody: nat, tail: string)
    requires IsChunked(r)
    ensures Leads(Parser(Blank(maxBody), HeadText(r) + tail), Parser(BeforeChunks(r, maxBody), tail))
  {
    HeadLeads(r, maxBody, CRLF, tail);
    EndOfHeaders(r, maxBody);
    hide *;
    assert BeforeChunks(r, maxBody) == Framed(r, maxBody) by { BeforeIsFramed(r, maxBody); }
  }

  lemma BeforeIsFramed(r: Request, maxBody: nat)
    requires IsChunked(r)
    ensures BeforeChunks(r, maxBody) == Framed(r, maxBody)
  {
  }

  // ----- a one-digit chunk, and a negative size -----

  /** A size line of a minus sign and one digit is read as that negative number. */
  lemma NegativeSize(d: char)
    requires IsDigit(d, 16)
    ensures ChunkSize(['-', d]) == 0 - DigitValue(d)
  {
    var line := ['-', d];
    DigitsAreDark(d);
    assert Trim(line) == line;
    assert Find(line, ';') == 2 && line[..2] == line;
    assert d != '\0' && Find(line, '\0') == 2;
    assert line[1..] == [d] && [d][1..] == [];
    assert SkipSpace(line) == line;
    assert Accumulate([d], 16, 0) == DigitValue(d);
  }

  lemma DigitLine(d: char)
    requires IsDigit(d, 16)
    ensures IsDigits([d], 16) && NumberOf([d], 16) == DigitValue(d)
  {
    assert [d][..0] == "";
  }

  /** Behind the head and one chunk of n bytes. */
  lemma FirstChunkRead(r: Request, maxBody: nat, d: char, data: string, tail: string)
    requires IsChunked(r) && IsDigit(d, 16) && DigitValue(d) == |data| && 0 < |data| <= maxBody
    ensures var m := BeforeChunks(r, maxBody).(body := data);
            Leads(Parser(Blank(maxBody), HeadText(r) + ([d] + CRLF + (data + CRLF + tail))), Parser(m, tail))
  {
    var m := BeforeChunks(r, maxBody);
    var c := Chunk([d], "", data);
    var text := [d] + CRLF + (data + CRLF + tail);
    DigitLine(d);
    assert GoodChunk(c) by { hide NumberOf, IsDigits; }
    assert [d] + "" == [d] && "" + data == data;
    HeadRead(r, maxBody, text);
    hide *;
    ChunkLeads(m, c, CRLF, tail);
    LeadsOn(Parser(Blank(maxBody), HeadText(r) + text), Parser(m, text), Parser(m.(body := data), tail));
  }

  // ----- the looping case -----

  /** At a size line, whatever its line end is, exactly one size is looped on, with
      nothing behind the line: minus the length of the line and twice its end. */
  lemma SpinsExactly(m: Message, s: string)
    requires InChunks(m)
    ensures Spins(Parser(m, s))
            <==> && FindLine(s).Line?
                 && var l := FindLine(s);
                    var size := ChunkSize(s[..l.end]);
                    && l.end + l.width == |s| && size == -(l.end + 2 * l.width)
                    && SizeSum(|m.body|, size) <= m.maxBody
  {
    hide ChunkSize, FindLine;
  }

  lemma SpinsAtCrlf(m: Message, line: string)
    requires InChunks(m) && NoLf(line)
    ensures Spins(Parser(m, line + CRLF))
            <==> ChunkSize(line) == -(|line| + 4) && SizeSum(|m.body|, ChunkSize(line)) <= m.maxBody
  {
    CrlfLine(line, "");
    assert line + CRLF + "" == line + CRLF;
    hide ChunkSize, FindLine, SizeSum;
    SpinsExactly(m, line + CRLF);
  }

  lemma SpinsAtLf(m: Message, line: string)
    requires InChunks(m) && NoLf(line) && (line == "" || line[|line| - 1] != '\r')
    ensures Spins(Parser(m, line + "\n"))
            <==> ChunkSize(line) == -(|line| + 2) && SizeSum(|m.body|, ChunkSize(line)) <= m.maxBody
  {
    BareLine(line);
    hide ChunkSize, FindLine, SizeSum;
    SpinsExactly(m, line + "\n");
  }

  lemma BareLine(line: string)
    requires NoLf(line) && (line == "" || line[|line| - 1] != '\r')
    ensures var s := line + "\n"; FindLine(s) == Line(|line|, 1) && s[..|line|] == line
  {
    var s := line + "\n";
    assert forall i :: 0 <= i < |line| ==> s[i] == line[i];
    assert s[|line|] == '\n' && Find(s, '\n') == |line|;
    assert forall i: nat :: !CrlfAt(s, i);
  }

  /** Whole streams on which feed does not return: one chunk of six bytes, and a size
      line of minus six. */
  lemma SpinningStream(r: Request, maxBody: nat, data: string)
    requires IsChunked(r) && |data| == 6 <= maxBody
    ensures Spins(Run(Parser(Blank(maxBody), HeadText(r) + (['6'] + CRLF + (data + CRLF + (['-', '6'] + CRLF))))))
  {
    var tail := ['-', '6'] + CRLF;
    var m := BeforeChunks(r, maxBody).(body := data);
    var q := Parser(m, tail);
    MinusSixSpins(m);
    FirstChunkRead(r, maxBody, '6', data, tail) by { SixIsDigit(); }
    hide *;
    StopsExactly(q);
    RunStops(q);
    LeadsToSame(Parser(Blank(maxBody), HeadText(r) + (['6'] + CRLF + (data + CRLF + tail))), q);
  }

  lemma SixIsDigit()
    ensures IsDigit('6', 16) && DigitValue('6') == 6
  {
  }

  lemma MinusSixSpins(m: Message)
    requires InChunks(m) && |m.body| == 6 <= m.maxBody
    ensures Spins(Parser(m, ['-', '6'] + CRLF))
  {
    NegativeSize('6');
    hide ChunkSize, Spins;
    SpinsAtCrlf(m, ['-', '6']);
  }

  lemma RunStops(q: Parser)
    requires Step(q) == q
    ensures Run(q) == q
  {
  }

  lemma LeadsToSame(p: Parser, q: Parser)
    requires Leads(p, q)
    ensures Run(p) == Run(q)
  {
  }

  /** If the bytes end in a line end, every minus sign has a CRLF behind it that is not
      that line end. */
  predicate NoMinusInLastLine(s: string) {
    s != "" && s[|s| - 1] == '\n' ==>
      forall k :: 0 <= k < |s| && s[k] == '-' ==> exists i: nat :: k < i && i + 2 < |s| && CrlfAt(s, i)
  }

  lemma SkipSpaceSuffix(s: string, c: char)
    requires c in SkipSpace(s)
    ensures c in s
  {
  }

  lemma TrimKeepsNothingNew(s: string, c: char)
    requires c in Trim(s)
    ensures c in s
  {
    TrimStartSuffix(s, c);
    TrimEndPrefix(s, c);
    TrimEndPrefix(TrimStart(s), c);
    TrimStartSuffix(TrimEnd(s), c);
  }

  lemma {:induction false} TrimStartSuffix(s: string, c: char)
    ensures c in TrimStart(s) ==> c in s
    decreases |s|
  {
    if s != "" { TrimStartSuffix(s[1..], c); }
  }

  lemma {:induction false} TrimEndPrefix(s: string, c: char)
    ensures c in TrimEnd(s) ==> c in s
    decreases |s|
  {
    if s != "" { TrimEndPrefix(s[..|s| - 1], c); }
  }

  /** A size is read as negative only from a line with a minus sign. */
  lemma NegativeHasMinus(line: string)
    requires ChunkSize(line) < 0
    ensures '-' in line
  {
    var t := Trim(line);
    var u := t[..Find(t, ';')];
    var v := u[..Find(u, '\0')];
    assert '-' in SkipSpace(v);
    SkipSpaceSuffix(v, '-');
    assert '-' in t;
    TrimKeepsNothingNew(line, '-');
  }

  lemma NoEarlierCrlf(t: string, i: nat)
    requires i + 2 < |t| && CrlfAt(t, i)
    ensures FindLine(t).Line? && FindLine(t).end + FindLine(t).width < |t|
  {
  }

  /** In the looping case the buffer is one line with a minus sign in it. */
  lemma SpinsOnOneLine(q: Parser) returns (j: nat)
    requires Spins(q)
    ensures var t := q.buffer;
            && j < |t| && t[j] == '-' && t[|t| - 1] == '\n'
            && forall i: nat :: i + 2 < |t| ==> !CrlfAt(t, i)
  {
    var t := q.buffer;
    var l := FindLine(t);
    hide ChunkSize, FindLine, CrlfAt, Run;
    NegativeHasMinus(t[..l.end]);
    j :| 0 <= j < l.end && t[..l.end][j] == '-';
    forall i: nat | i + 2 < |t| ensures !CrlfAt(t, i) {
      if CrlfAt(t, i) { NoEarlierCrlf(t, i); }
    }
  }

  lemma SuffixCrlf(s: string, t: string, i: nat)
    requires IsSuffix(t, s) && |s| - |t| <= i && CrlfAt(s, i)
    ensures CrlfAt(t, i - (|s| - |t|))
  {
  }

  /** Without a minus sign in the last line, feed returns, whatever the line ends are. */
  lemma NoMinusNeverSpins(p: Parser)
    requires NoMinusInLastLine(p.buffer)
    ensures !Spins(Run(p))
  {
    var s, t := p.buffer, Run(p).buffer;
    RunDropsPrefix(p);
    hide Run, Spins, CrlfAt;
    if Spins(Run(p)) {
      var j := SpinsOnOneLine(Run(p));
      var d := |s| - |t|;
      assert s[d + j] == '-' && s[|s| - 1] == '\n';
      var i: nat :| d + j < i && i + 2 < |s| && CrlfAt(s, i);
      SuffixCrlf(s, t, i);
      assert false;
    }
  }

  lemma FeedReturns(p: Parser, data: string, maxBody: nat)
    requires NoMinusInLastLine(p.buffer + data)
    ensures !Spins(Feed(p, data, maxBody))
  {
    NoMinusNeverSpins(Append(WithLimit(p, maxBody), data));
  }

  // ----- the body limit -----

  /** A whole stream that leaves a body over the limit. */
  lemma FloodingStream(r: Request, maxBody: nat, filler: string)
    requires IsChunked(r) && 1 <= maxBody <= |filler|
    ensures !WithinLimit(Run(Parser(Blank(maxBody), HeadText(r) + ("1" + CRLF + ("a" + CRLF + ("-1\r\n" + filler))))).m)
  {
    var m := BeforeChunks(r, maxBody).(body := "a");
    var tail := "-1\r\n" + filler;
    var q := Parser(m, tail);
    FirstChunkRead(r, maxBody, '1', "a", tail);
    assert ['1'] == "1";
    MinusOneFloods(q, filler);
    hide *;
    StartsWithin(m);
    FloodOverflows(q);
    OverflowStays(Step(q));
    RunUnfolds(q);
    LeadsToSame(Parser(Blank(maxBody), HeadText(r) + ("1" + CRLF + ("a" + CRLF + tail))), q);
  }

  lemma StartsWithin(m: Message)
    requires m.phase == Body && |m.body| <= m.maxBody && m.contentLength <= m.maxBody
    ensures WithinLimit(m)
  {
  }

  lemma MinusOneFloods(q: Parser, filler: string)
    requires InChunks(q.m) && |q.m.body| == 1 <= q.m.maxBody <= |filler|
    requires q.buffer == "-1\r\n" + filler
    ensures Floods(q)
  {
    var line := ['-', '1'];
    NegativeSize('1');
    assert q.buffer == line + CRLF + filler;
    CrlfLine(line, filler);
    hide ChunkSize, FindLine;
    assert q.buffer[..2] == line;
  }

  // ----- splitting -----

  /** The same bytes complete the request when they are cut before the last CRLF, and
      leave it waiting when they come whole. */
  lemma SplitVarianceFromStart(r: Request, maxBody: nat)
    requires IsChunked(r)
    ensures var p, head := Parser(Blank(maxBody), ""), HeadText(r);
            && Feed(p, head + "\n\r\n", maxBody).m.phase == Body
            && FeedAll(p, [head + "\n", "\r\n"], maxBody).m.phase == Complete
  {
    var p, q, head := Parser(Blank(maxBody), ""), Parser(BeforeChunks(r, maxBody), ""), HeadText(r);
    FedBehindHead(r, maxBody, "\n\r\n");
    FedBehindHead(r, maxBody, "\n");
    SplitVariance(q, maxBody);
    assert [head + "\n", "\r\n"][1..] == ["\n", "\r\n"][1..] == ["\r\n"];
    hide Feed, HeadText, BeforeChunks;
  }

  lemma FedBehindHead(r: Request, maxBody: nat, tail: string)
    requires IsChunked(r)
    ensures Feed(Parser(Blank(maxBody), ""), HeadText(r) + tail, maxBody)
            == Feed(Parser(BeforeChunks(r, maxBody), ""), tail, maxBody)
  {
    HeadRead(r, maxBody, tail);
    var text := HeadText(r) + tail;
    hide HeadText, BeforeChunks, Run;
    assert "" + text == text && "" + tail == tail;
  }

  // ----- one of each -----

  /** The streams exist: from a parser with a limit of six, a delivery that never returns
      and one that leaves seven bytes in the body. */
  lemma StreamsExist() returns (spinning: string, flooding: string)
    ensures Spins(Feed(Parser(Blank(6), ""), spinning, 6))
    ensures !WithinLimit(Feed(Parser(Blank(6), ""), flooding, 6).m)
  {
    var data := "abcdef";
    PostIsChunked();
    hide *;
    SixBytes();
    spinning := HeadText(POST) + (['6'] + CRLF + (data + CRLF + (['-', '6'] + CRLF)));
    flooding := HeadText(POST) + ("1" + CRLF + ("a" + CRLF + ("-1\r\n" + data)));
    SpinningStream(POST, 6, data);
    FloodingStream(POST, 6, data);
    FedFresh(spinning, 6);
    FedFresh(flooding, 6);
  }

  lemma SixBytes()
    ensures |"abcdef"| == 6
  {
  }

  lemma FedFresh(data: string, maxBody: nat)
    ensures Feed(Parser(Blank(maxBody), ""), data, maxBody) == Run(Parser(Blank(maxBody), data))
  {
    hide Run;
    assert "" + data == data;
  }
}
