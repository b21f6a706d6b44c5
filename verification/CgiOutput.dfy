/** CgiHandler::parseCgiOutput (webserv/src/CgiHandler.cpp): the header block and the
    body of a CGI program's output (section 6 of RFC 3875). */
module CgiOutput {
  import opened Text
  import opened TextLaws
  import opened HttpEncode

  datatype Reply = Reply(status: int, headers: map<string, string>, body: string)

  // ----- searching and splitting -----

  predicate MatchAt(s: string, i: nat, pattern: string) {
    i + |pattern| <= |s| && s[i..i + |pattern|] == pattern
  }

  /** std::string::find of a string. */
  function FindText(s: string, pattern: string, from: nat): (r: nat)
    requires from <= |s|
    ensures from <= r <= |s|
    ensures r < |s| ==> MatchAt(s, r, pattern)
    ensures forall i: nat :: from <= i < r ==> !MatchAt(s, i, pattern)
    decreases |s| - from
  {
    if from == |s| || MatchAt(s, from, pattern) then from else FindText(s, pattern, from + 1)
  }

  // ----- the header block -----

  function WithoutCr(line: string): string {
    if line != "" && line[|line| - 1] == '\r' then line[..|line| - 1] else line
  }

  /** What one line of the block does to status and headers. */
  function TakeLine(r: Reply, raw: string): Reply {
    var line := WithoutCr(raw);
    var colon := Find(line, ':');
    if line == "" || colon == |line| then r
    else
      var name, value := Trim(line[..colon]), Trim(line[colon + 1..]);
      if Lower(name) == "status" then r.(status := Atoi(value))
      else r.(headers := r.headers[name := value])
  }

  /** The lines std::getline finds in s, taken one after the other. */
  function TakeLines(r: Reply, s: string): Reply
    decreases |s|
  {
    if s == "" then r
    else
      var k := Find(s, '\n');
      if k == |s| then TakeLine(r, s) else TakeLines(TakeLine(r, s[..k]), s[k + 1..])
  }

  function Parsed(raw: string): Reply {
    var crlf, lf := FindText(raw, "\r\n\r\n", 0), FindText(raw, "\n\n", 0);
    if crlf < |raw| then TakeLines(Reply(200, map[], raw[crlf + 4..]), raw[..crlf])
    else if lf < |raw| then TakeLines(Reply(200, map[], raw[lf + 2..]), raw[..lf])
    else Reply(200, map[], raw)
  }

  /** One line getline has found: status or header, or nothing. */
  method ReadLine(raw: string, statusCode: int, headers: map<string, string>) returns (status: int, fields: map<string, string>)
    ensures forall body: string ::
              Reply(status, fields, body) == TakeLine(Reply(statusCode, headers, body), raw)
  {
    status, fields := statusCode, headers;
    var line := raw;
    if line != "" && line[|line| - 1] == '\r' { line := line[..|line| - 1]; }
    assert line == WithoutCr(raw);
    hide WithoutCr, Trim, Lower, Atoi;
    if line == "" { return; }
    var colon := Find(line, ':');
    if colon == |line| { return; }
    var name := Trim(line[..colon]);
    var value := Trim(line[colon + 1..]);
    var lower := ToLower(name);
    if lower == "status" {
      status := Atoi(value);
    } else {
      fields := fields[name := value];
    }
  }

  /** The lines of the header section. */
  method ReadLines(section: string) returns (statusCode: int, headers: map<string, string>)
    ensures forall body: string :: Reply(statusCode, headers, body) == TakeLines(Reply(200, map[], body), section)
  {
    statusCode := 200;
    headers := map[];
    var rest := section;
    hide TakeLine, TakeLines;
    while rest != ""
      invariant forall body: string ::
                  TakeLines(Reply(statusCode, headers, body), rest) == TakeLines(Reply(200, map[], body), section)
      decreases |rest|
    {
      var k := Find(rest, '\n');
      var line := rest[..k];
      var next := if k == |rest| then "" else rest[k + 1..];
      ghost var status, fields := statusCode, headers;
      statusCode, headers := ReadLine(line, statusCode, headers);
      forall body: string
        ensures TakeLines(Reply(statusCode, headers, body), next) == TakeLines(Reply(status, fields, body), rest)
      {
        LinesUnfold(Reply(status, fields, body), rest);
      }
      rest := next;
    }
    forall body: string ensures TakeLines(Reply(statusCode, headers, body), "") == Reply(statusCode, headers, body) {
      NoLines(Reply(statusCode, headers, body));
    }
  }

  lemma LinesUnfold(r: Reply, s: string)
    requires s != ""
    ensures var k := Find(s, '\n');
            TakeLines(r, s) == TakeLines(TakeLine(r, s[..k]), if k == |s| then "" else s[k + 1..])
  {
    hide TakeLine, Find;
    var k := Find(s, '\n');
    if k == |s| { assert s[..k] == s; }
  }

  lemma NoLines(r: Reply)
    ensures TakeLines(r, "") == r
  {
  }

  method ParseCgiOutput(raw: string) returns (statusCode: int, headers: map<string, string>, body: string)
    ensures Reply(statusCode, headers, body) == Parsed(raw)
  {
    statusCode := 200;
    headers := map[];
    body := "";
    hide TakeLines, FindText;

    var sep := FindText(raw, "\r\n\r\n", 0);
    var sepLen := 4;
    if sep == |raw| {
      sep := FindText(raw, "\n\n", 0);
      sepLen := 2;
    }
    if sep == |raw| {
      body := raw;
      return;
    }
    assert MatchAt(raw, sep, if sepLen == 4 then "\r\n\r\n" else "\n\n");
    body := raw[sep + sepLen..];
    statusCode, headers := ReadLines(raw[..sep]);
  }

  // ----- the round trip -----

  /** What a field means: the Status field sets the status, any other a header. */
  function TakeField(r: Reply, f: Field): Reply {
    if Lower(f.name) == "status" then r.(status := Atoi(f.value))
    else r.(headers := r.headers[f.name := f.value])
  }

  function TakeFields(r: Reply, fs: seq<Field>): Reply
    decreases |fs|
  {
    if fs == [] then r else TakeFields(TakeField(r, fs[0]), fs[1..])
  }

  /** A line of the block: a field with blanks around its name and value, or anything
      without a colon, which is passed over. */
  datatype Entry = FieldLine(f: Field, a: string, b: string, c: string, d: string) | Noise(text: string)

  function EntryText(e: Entry): string {
    match e
    case FieldLine(f, a, b, c, d) => a + f.name + b + ":" + (c + f.value + d)
    case Noise(text) => text
  }

  predicate GoodLine(line: string) { line != "" && NoLf(line) && line[|line| - 1] != '\r' }

  predicate GoodEntry(e: Entry) {
    && GoodLine(EntryText(e))
    && match e
       case FieldLine(f, a, b, c, d) =>
         && ':' !in f.name && HasDarkEnds(f.name) && HasDarkEnds(f.value)
         && AllBlank(a) && AllBlank(b) && AllBlank(c) && AllBlank(d)
       case Noise(text) => ':' !in text
  }

  predicate GoodBlock(es: seq<Entry>) { es != [] && forall i :: 0 <= i < |es| ==> GoodEntry(es[i]) }

  function FieldsIn(es: seq<Entry>): seq<Field> {
    if es == [] then [] else (if es[0].FieldLine? then [es[0].f] else []) + FieldsIn(es[1..])
  }

  /** The lines of the block, without the line end behind the last one. */
  function BlockText(es: seq<Entry>, eol: string): string
    requires es != []
  {
    if |es| == 1 then EntryText(es[0]) else EntryText(es[0]) + eol + BlockText(es[1..], eol)
  }

  const BLANK := "\r\n\r\n"

  /** Lines end in CRLF, or in a bare LF if the output has no empty CRLF line anywhere. */
  predicate Separates(eol: string, output: string) {
    eol == CRLF || (eol == "\n" && forall i: nat :: i < |output| ==> !MatchAt(output, i, BLANK))
  }

  /** A line of the block is taken, with or without the CR that getline leaves on it. */
  lemma EntryTaken(r: Reply, e: Entry, cr: string)
    requires GoodEntry(e) && cr in ["", "\r"]
    ensures TakeLine(r, EntryText(e) + cr) == if e.FieldLine? then TakeField(r, e.f) else r
    ensures '\n' !in EntryText(e) + cr && EntryText(e) != ""
  {
    var line := EntryText(e);
    assert WithoutCr(line + cr) == line by {
      assert cr == "" ==> line + cr == line;
      assert cr == "\r" ==> (line + cr)[..|line|] == line;
    }
    match e
    case Noise(text) => assert Find(line, ':') == |line|;
    case FieldLine(f, a, b, c, d) => FieldLineTaken(r, f, a, b, c, d, cr);
  }

  lemma FieldLineTaken(r: Reply, f: Field, a: string, b: string, c: string, d: string, cr: string)
    requires GoodEntry(FieldLine(f, a, b, c, d))
    requires WithoutCr(EntryText(FieldLine(f, a, b, c, d)) + cr) == EntryText(FieldLine(f, a, b, c, d))
    ensures TakeLine(r, EntryText(FieldLine(f, a, b, c, d)) + cr) == TakeField(r, f)
  {
    var name, value := a + f.name + b, c + f.value + d;
    var line := name + ":" + value;
    ColonAt(name, value);
    TrimOf(a, f.name, b);
    TrimOf(c, f.value, d);
    hide Trim, WithoutCr, Lower, Atoi, Find;
  }

  /** A field of the name Status, in any case of letters, sets the status, and any other is
      put under its name as written. */
  lemma StatusOrHeader(r: Reply, f: Field)
    requires ':' !in f.name && HasDarkEnds(f.name) && HasDarkEnds(f.value) && GoodLine(f.name + ":" + f.value)
    ensures Lower(f.name) == "status" ==> TakeLine(r, f.name + ":" + f.value) == r.(status := Atoi(f.value))
    ensures Lower(f.name) != "status" ==>
              TakeLine(r, f.name + ":" + f.value) == r.(headers := r.headers[f.name := f.value])
  {
    var line := f.name + ":" + f.value;
    ColonAt(f.name, f.value);
    TrimOf("", f.name, "");
    TrimOf("", f.value, "");
    assert "" + f.name + "" == f.name && "" + f.value + "" == f.value;
    assert WithoutCr(line) == line;
    hide Trim, WithoutCr, Lower, Atoi, Find;
  }

  lemma ColonAt(name: string, value: string)
    requires ':' !in name
    ensures var line := name + ":" + value;
            Find(line, ':') == |name| < |line| && line != "" && line[..|name|] == name && line[|name| + 1..] == value
  {
    var line := name + ":" + value;
    assert line == name + (":" + value);
    FindBehind(name, ":" + value, ':');
    assert line[..|name|] == name && line[|name| + 1..] == value;
  }

  lemma FirstLineTaken(r: Reply, first: string, rest: string)
    requires '\n' !in first
    ensures TakeLines(r, first + "\n" + rest) == TakeLines(TakeLine(r, first), rest)
  {
    var s := first + "\n" + rest;
    assert s[|first|] == '\n';
    assert forall i :: 0 <= i < |first| ==> s[i] == first[i];
    assert Find(s, '\n') == |first|;
    assert s[..|first|] == first && s[|first| + 1..] == rest;
    hide TakeLine;
  }

  lemma OnlyLineTaken(r: Reply, line: string)
    requires '\n' !in line && line != ""
    ensures TakeLines(r, line) == TakeLine(r, line)
  {
    assert Find(line, '\n') == |line|;
    hide TakeLine;
  }

  /** Both line ends are an LF behind what getline leaves. */
  lemma BlockUnfolds(es: seq<Entry>, eol: string) returns (cr: string)
    requires es != [] && (eol == CRLF || eol == "\n")
    ensures cr in ["", "\r"]
    ensures |es| == 1 ==> BlockText(es, eol) == EntryText(es[0]) + ""
    ensures |es| > 1 ==> BlockText(es, eol) == EntryText(es[0]) + cr + "\n" + BlockText(es[1..], eol)
  {
    hide EntryText;
    cr := if eol == CRLF then "\r" else "";
    if |es| == 1 {
      assert EntryText(es[0]) + "" == EntryText(es[0]);
    } else {
      SplitEnd(EntryText(es[0]), eol, cr, BlockText(es[1..], eol));
    }
  }

  lemma SplitEnd(a: string, eol: string, cr: string, b: string)
    requires eol == cr + "\n"
    ensures a + eol + b == a + cr + "\n" + b
  {
  }

  lemma {:induction false} BlockTaken(r: Reply, es: seq<Entry>, eol: string)
    requires GoodBlock(es) && (eol == CRLF || eol == "\n")
    ensures TakeLines(r, BlockText(es, eol)) == TakeFields(r, FieldsIn(es))
    decreases |es|
  {
    var line := EntryText(es[0]);
    var cr := BlockUnfolds(es, eol);
    var next := if es[0].FieldLine? then TakeField(r, es[0].f) else r;
    assert TakeFields(r, FieldsIn(es)) == TakeFields(next, FieldsIn(es[1..])) by { FieldsUnfold(r, es); }
    hide TakeLine, TakeLines, TakeField, EntryText, GoodEntry, BlockText;
    if |es| == 1 {
      EntryTaken(r, es[0], "");
      OnlyLineTaken(r, line + "");
    } else {
      EntryTaken(r, es[0], cr);
      FirstLineTaken(r, line + cr, BlockText(es[1..], eol));
      BlockTaken(next, es[1..], eol);
    }
  }

  lemma FieldsUnfold(r: Reply, es: seq<Entry>)
    requires es != []
    ensures TakeFields(r, FieldsIn(es))
            == TakeFields(if es[0].FieldLine? then TakeField(r, es[0].f) else r, FieldsIn(es[1..]))
  {
    hide TakeField;
    if es[0].FieldLine? {
      assert ([es[0].f] + FieldsIn(es[1..]))[1..] == FieldsIn(es[1..]);
    } else {
      assert [] + FieldsIn(es[1..]) == FieldsIn(es[1..]);
    }
  }

  lemma PatternBytes(s: string, i: nat, pattern: string)
    ensures MatchAt(s, i, pattern) <==> i + |pattern| <= |s| && forall k :: 0 <= k < |pattern| ==> s[i + k] == pattern[k]
  {
    if i + |pattern| <= |s| {
      var t := s[i..i + |pattern|];
      assert forall k :: 0 <= k < |pattern| ==> t[k] == s[i + k];
    }
  }

  /** Two line ends in a row begin neither in a good line nor in the line end before one. */
  lemma NoBlankInLine(line: string, eol: string, rest: string, i: nat)
    requires GoodLine(line) && (eol == CRLF || eol == "\n") && i < |line|
    ensures !MatchAt(line + eol + rest, i, eol + eol)
  {
    var s := line + eol + rest;
    PatternBytes(s, i, eol + eol);
    assert s[i] == line[i];
    assert (eol + eol)[0] == eol[0] && (eol + eol)[|eol| - 1] == '\n';
    if eol == CRLF && i + 1 < |line| { assert s[i + 1] == line[i + 1] && (eol + eol)[1] == '\n'; }
  }

  lemma NoBlankInEnd(line: string, eol: string, next: string, rest: string, i: nat)
    requires GoodLine(next) && (eol == CRLF || eol == "\n") && |line| <= i < |line| + |eol|
    ensures !MatchAt(line + eol + (next + eol + rest), i, eol + eol)
  {
    var s := line + eol + (next + eol + rest);
    PatternBytes(s, i, eol + eol);
    if eol == CRLF {
      assert s[|line| + 1] == '\n' && (eol + eol)[0] == '\r' && (eol + eol)[3] == '\n';
      assert s[|line| + 3] == if |next| > 1 then next[1] else '\r';
    } else {
      assert s[|line| + 1] == next[0] && (eol + eol)[1] == '\n';
    }
  }

  lemma NoBlankLater(head: string, rest: string, pattern: string, i: nat)
    requires |head| <= i && !MatchAt(rest, i - |head|, pattern)
    ensures !MatchAt(head + rest, i, pattern)
  {
    PatternBytes(head + rest, i, pattern);
    PatternBytes(rest, i - |head|, pattern);
  }

  lemma BlockStarts(es: seq<Entry>, eol: string, rest: string) returns (more: string)
    requires GoodBlock(es)
    ensures BlockText(es, eol) + eol + rest == EntryText(es[0]) + eol + more
    ensures |es| > 1 ==> more == BlockText(es[1..], eol) + eol + rest
  {
    hide EntryText;
    more := if |es| == 1 then rest else BlockText(es[1..], eol) + eol + rest;
  }

  lemma {:induction false} NoBlankInside(es: seq<Entry>, eol: string, body: string, i: nat)
    requires GoodBlock(es) && (eol == CRLF || eol == "\n") && i < |BlockText(es, eol)|
    ensures !MatchAt(BlockText(es, eol) + eol + (eol + body), i, eol + eol)
    decreases |es|
  {
    var line := EntryText(es[0]);
    assert GoodLine(line);
    var more := BlockStarts(es, eol, eol + body);
    if i < |line| {
      NoBlankInLine(line, eol, more, i);
    } else {
      assert |es| > 1 && BlockText(es, eol) == line + eol + BlockText(es[1..], eol);
      if i < |line| + |eol| {
        var rest := BlockStarts(es[1..], eol, eol + body);
        NoBlankInEnd(line, eol, EntryText(es[1]), rest, i);
      } else {
        hide GoodEntry, EntryText, MatchAt, BlockText;
        NoBlankInside(es[1..], eol, body, i - |line + eol|);
        NoBlankLater(line + eol, more, eol + eol, i);
      }
    }
  }

  /** No line of the block is empty, so two line ends in a row come first at its end. */
  lemma FirstBlank(es: seq<Entry>, eol: string, body: string)
    requires GoodBlock(es) && (eol == CRLF || eol == "\n")
    ensures FindText(BlockText(es, eol) + eol + (eol + body), eol + eol, 0) == |BlockText(es, eol)|
  {
    var t := BlockText(es, eol);
    var s := t + eol + (eol + body);
    assert MatchAt(s, |t|, eol + eol);
    forall i: nat | i < |t| ensures !MatchAt(s, i, eol + eol) {
      NoBlankInside(es, eol, body, i);
    }
  }

  lemma NotFound(s: string, pattern: string)
    requires forall i: nat :: i < |s| ==> !MatchAt(s, i, pattern)
    ensures FindText(s, pattern, 0) == |s|
  {
  }

  lemma AroundBlank(t: string, eol: string, body: string)
    ensures var s := t + eol + (eol + body);
            |s| == |t| + 2 * |eol| + |body| && s[..|t|] == t && s[|t| + 2 * |eol|..] == body
  {
  }

  lemma ParsedCrlf(s: string, k: nat)
    requires FindText(s, BLANK, 0) == k < |s| && k + 4 <= |s|
    ensures Parsed(s) == TakeLines(Reply(200, map[], s[k + 4..]), s[..k])
  {
    hide TakeLines, FindText;
  }

  lemma ParsedLf(s: string, k: nat)
    requires FindText(s, BLANK, 0) == |s| && FindText(s, "\n\n", 0) == k < |s| && k + 2 <= |s|
    ensures Parsed(s) == TakeLines(Reply(200, map[], s[k + 2..]), s[..k])
  {
    hide TakeLines, FindText;
  }

  lemma TwoEnds()
    ensures CRLF + CRLF == BLANK && "\n" + "\n" == "\n\n" && |CRLF| == 2 && |"\n"| == 1
  {
  }

  lemma ParsedAt(t: string, eol: string, body: string)
    requires eol == CRLF || eol == "\n"
    requires var s := t + eol + (eol + body);
             && FindText(s, eol + eol, 0) == |t| && (eol == "\n" ==> FindText(s, BLANK, 0) == |s|)
    ensures Parsed(t + eol + (eol + body)) == TakeLines(Reply(200, map[], body), t)
  {
    hide *;
    var s := t + eol + (eol + body);
    AroundBlank(t, eol, body);
    TwoEnds();
    if eol == CRLF { ParsedCrlf(s, |t|); } else { ParsedLf(s, |t|); }
  }

  /** A header block with any such lines, of either line end, and any body, blank lines in
      it included, are taken apart into exactly the fields and the body. */
  lemma BlockRoundTrip(es: seq<Entry>, eol: string, body: string)
    requires GoodBlock(es) && Separates(eol, BlockText(es, eol) + eol + (eol + body))
    ensures Parsed(BlockText(es, eol) + eol + (eol + body)) == TakeFields(Reply(200, map[], body), FieldsIn(es))
  {
    var t := BlockText(es, eol);
    var s := t + eol + (eol + body);
    if eol == "\n" { NotFound(s, BLANK); }
    assert eol == CRLF || eol == "\n";
    hide *;
    FirstBlank(es, eol, body);
    ParsedAt(t, eol, body);
    BlockTaken(Reply(200, map[], body), es, eol);
  }

  /** Without an empty line of either kind, all of the output is the body. */
  lemma NoBlockRead(output: string)
    requires forall i: nat :: i < |output| ==> !MatchAt(output, i, "\r\n\r\n") && !MatchAt(output, i, "\n\n")
    ensures Parsed(output) == Reply(200, map[], output)
  {
    NotFound(output, "\r\n\r\n");
    NotFound(output, "\n\n");
  }

  // ----- what the fields mean, read off directly -----

  predicate IsStatus(f: Field) { Lower(f.name) == "status" }

  /** No two fields of the same name, in the same case, and no second Status field. */
  predicate DistinctNames(fs: seq<Field>) {
    forall i, j :: 0 <= i < j < |fs| ==> fs[i].name != fs[j].name && !(IsStatus(fs[i]) && IsStatus(fs[j]))
  }

  /** h holds each field but Status under its name, and nothing else. */
  predicate Holds(h: map<string, string>, fs: seq<Field>) {
    && (forall i :: 0 <= i < |fs| && !IsStatus(fs[i]) ==> fs[i].name in h && h[fs[i].name] == fs[i].value)
    && (forall k :: k in h ==> exists i :: 0 <= i < |fs| && !IsStatus(fs[i]) && fs[i].name == k)
  }

  lemma {:induction false} LastFieldTaken(r: Reply, fs: seq<Field>, f: Field)
    ensures TakeFields(r, fs + [f]) == TakeField(TakeFields(r, fs), f)
    decreases |fs|
  {
    if fs == [] {
      assert fs + [f] == [f] && [f][1..] == [];
    } else {
      assert (fs + [f])[1..] == fs[1..] + [f];
      hide TakeField;
      LastFieldTaken(TakeField(r, fs[0]), fs[1..], f);
    }
  }

  predicate StatusRead(q: Reply, fs: seq<Field>) {
    && (forall i :: 0 <= i < |fs| && IsStatus(fs[i]) ==> q.status == Atoi(fs[i].value))
    && ((forall i :: 0 <= i < |fs| ==> !IsStatus(fs[i])) ==> q.status == 200)
  }

  lemma OneMoreStatus(p: Reply, g: seq<Field>, f: Field)
    requires DistinctNames(g + [f]) && StatusRead(p, g)
    ensures StatusRead(TakeField(p, f), g + [f])
  {
    var fs, n := g + [f], |g|;
    assert fs[n] == f && forall i :: 0 <= i < n ==> fs[i] == g[i];
    assert forall i :: 0 <= i < n ==> !(IsStatus(fs[i]) && IsStatus(fs[n]));
    hide Atoi, Lower;
  }

  lemma OneMoreField(p: Reply, g: seq<Field>, f: Field)
    requires DistinctNames(g + [f]) && Holds(p.headers, g) && StatusRead(p, g)
    ensures var q := TakeField(p, f); q.body == p.body && Holds(q.headers, g + [f]) && StatusRead(q, g + [f])
  {
    var fs, q, n := g + [f], TakeField(p, f), |g|;
    assert fs[n] == f && forall i :: 0 <= i < n ==> fs[i] == g[i];
    assert forall i :: 0 <= i < n ==> fs[i].name != fs[n].name && !(IsStatus(fs[i]) && IsStatus(fs[n]));
    OneMoreStatus(p, g, f);
    hide Atoi, Lower, StatusRead, DistinctNames;
    forall i | 0 <= i < |fs| && !IsStatus(fs[i])
      ensures fs[i].name in q.headers && q.headers[fs[i].name] == fs[i].value
    {
      if i < n { assert g[i] == fs[i]; }
    }
    forall k | k in q.headers ensures exists i :: 0 <= i < |fs| && !IsStatus(fs[i]) && fs[i].name == k {
      if k in p.headers {
        var i :| 0 <= i < |g| && !IsStatus(g[i]) && g[i].name == k;
        assert fs[i] == g[i];
      } else {
        assert fs[n].name == k;
      }
    }
  }

  lemma {:induction false} FieldsMean(fs: seq<Field>, body: string)
    requires DistinctNames(fs)
    ensures var q := TakeFields(Reply(200, map[], body), fs);
            q.body == body && Holds(q.headers, fs) && StatusRead(q, fs)
    decreases |fs|
  {
    if fs != [] {
      var n := |fs| - 1;
      assert fs == fs[..n] + [fs[n]];
      FieldsMean(fs[..n], body);
      LastFieldTaken(Reply(200, map[], body), fs[..n], fs[n]);
      hide TakeField, TakeFields, Holds, StatusRead;
      OneMoreField(TakeFields(Reply(200, map[], body), fs[..n]), fs[..n], fs[n]);
    }
  }

  /** parseCgiOutput gives back the body, each field under its name, and the status:
      the number the Status field starts with, 200 without one. */
  lemma CgiRoundTrip(es: seq<Entry>, eol: string, body: string)
    requires GoodBlock(es) && DistinctNames(FieldsIn(es))
    requires Separates(eol, BlockText(es, eol) + eol + (eol + body))
    ensures var q := Parsed(BlockText(es, eol) + eol + (eol + body));
            q.body == body && Holds(q.headers, FieldsIn(es)) && StatusRead(q, FieldsIn(es))
  {
    hide *;
    BlockRoundTrip(es, eol, body);
    FieldsMean(FieldsIn(es), body);
  }

  /** A status line such as "404 Not Found" is read as its number. */
  lemma StatusNumber(digits: string, reason: string)
    requires IsDigits(digits, 10) && NumberOf(digits, 10) < 0x8000_0000
    requires reason == "" || reason[0] == ' '
    ensures Atoi(digits + reason) == NumberOf(digits, 10)
  {
    StrtolPrefix(digits, reason);
  }
}
