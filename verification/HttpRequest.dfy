/** The HttpRequest object of webserv/src/HttpRequest.cpp: its loops erase the
    buffer and fill the fields in place. Every method is proved to leave the
    object as the functions of HttpParser say. */
module HttpObject {
  import opened Text
  import opened HttpParser

  class HttpRequest {
    var m: Message      // every field but the buffer
    var buffer: string

    function View(): Parser
      reads this
    {
      Parser(m, buffer)
    }

    constructor ()
      ensures View() == Parser(Blank(DEFAULT_BODY_LIMIT), "")
    {
      m, buffer := Blank(DEFAULT_BODY_LIMIT), "";
    }

    method Reset()
      modifies this`m
      ensures View() == HttpParser.Reset(old(View()))
    {
      m := m.(phase := RequestLine, errorCode := 0);
      m := m.(verb := "", uri := "", path := "", query := "", version := "", headers := map[], body := "");
      m := m.(contentLength := 0, chunked := false, keepAlive := false, inTrailer := false);
    }

    method SetError(code: int)
      modifies this`m
      ensures m == Fail(old(m), code)
    {
      m := m.(phase := Error, errorCode := code);
    }

    method ParseRequestLine(line: string) returns (ok: bool)
      modifies this`m
      ensures m == HttpParser.ParseRequestLine(old(m), line)
      ensures if ok then m.phase == Headers else m.phase == Error
    {
      var parts := SplitWhitespace(line);
      if |parts| != 3 {
        SetError(400);
        return false;
      }
      m := m.(verb := parts[0], uri := parts[1], version := parts[2]);

      if m.version != "HTTP/1.0" && m.version != "HTTP/1.1" {
        SetError(400);
        return false;
      }
      if m.verb != "GET" && m.verb != "POST" && m.verb != "DELETE" && m.verb != "HEAD"
         && m.verb != "PUT" && m.verb != "OPTIONS" && m.verb != "PATCH" {
        SetError(501);
        return false;
      }

      var q := Find(m.uri, '?');
      if q != |m.uri| {
        var path := UrlDecode(m.uri[..q]);
        m := m.(path := path, query := m.uri[q + 1..]);
      } else {
        var path := UrlDecode(m.uri);
        assert m.uri[..q] == m.uri;
        m := m.(path := path);
      }
      m := m.(phase := Headers);
      ok := true;
    }

    method ParseHeader(line: string) returns (ok: bool)
      requires m.phase == Headers
      modifies this`m
      ensures m == HttpParser.ParseHeader(old(m), line)
      ensures if ok then m.phase == Headers else m.phase == Error
    {
      var colon := Find(line, ':');
      if colon == |line| {
        SetError(400);
        return false;
      }
      var name := ToLower(Trim(line[..colon]));
      var value := Trim(line[colon + 1..]);
      m := m.(headers := m.headers[name := value]);
      ok := true;
    }

    method GetHeader(name: string) returns (value: string)
      ensures value == Header(m.headers, name)
    {
      var key := ToLower(name);
      value := if key in m.headers then m.headers[key] else "";
    }

    method SetKeepAlive()
      modifies this`m
      ensures m == old(m).(keepAlive := KeepsAlive(old(m).headers, old(m).version))
    {
      var connection := GetHeader("connection");
      var lower := ToLower(connection);
      if m.version == "HTTP/1.1" {
        m := m.(keepAlive := connection == "" || lower != "close");
      } else {
        m := m.(keepAlive := connection != "" && lower == "keep-alive");
      }
    }

    method TakeLength() returns (ok: bool)
      requires m.phase != Error
      modifies this`m
      ensures m == HttpParser.TakeLength(old(m))
      ensures ok <==> m.phase != Error
    {
      var length := GetHeader("content-length");
      if length != "" {
        m := m.(contentLength := ToSize(Strtol(length, 10)));
        if m.contentLength > m.maxBody {
          SetError(413);
          return false;
        }
      }
      ok := true;
    }

    method ChooseFraming()
      modifies this`m
      ensures m == HttpParser.ChooseFraming(old(m))
    {
      var encoding := GetHeader("transfer-encoding");
      var lower := ToLower(encoding);
      if encoding != "" && lower == "chunked" {
        m := m.(chunked := true);
      }

      if m.verb == "GET" || m.verb == "HEAD" || m.verb == "DELETE" {
        m := m.(phase := Complete);
      } else if m.chunked {
        m := m.(phase := Body);
      } else if m.contentLength > 0 {
        m := m.(phase := Body);
      } else {
        m := m.(phase := Complete);
      }
    }

    /** The branch of feed for the blank line that ends the headers. */
    method EndHeaders() returns (ok: bool)
      requires m.phase == Headers
      modifies this`m
      ensures m == HttpParser.EndHeaders(old(m))
      ensures ok <==> m.phase != Error
    {
      hide KeepsAlive, HttpParser.TakeLength;
      SetKeepAlive();
      ok := TakeLength();
      if !ok { return false; }
      ChooseFraming();
    }

    /** The search every state starts with; `pos` is npos when it is |buffer|. */
    method NextLine() returns (pos: nat, lineEnd: nat)
      ensures FindLine(buffer) == if pos == |buffer| then NoLine else Line(pos, lineEnd)
    {
      pos := FindCrlf(buffer);
      lineEnd := 2;
      if pos == |buffer| {
        pos := Find(buffer, '\n');
        lineEnd := 1;
      }
    }

    /** parseChunked behind the last chunk: drop lines up to and with the blank one. */
    method SkipTrailer() returns (finished: bool)
      requires m.phase == Body && m.chunked && m.inTrailer
      modifies this
      ensures Run(View()) == old(Run(View()))
      ensures finished ==> m.phase == Complete
      ensures !finished ==> m.phase == Body && m.inTrailer && Step(View()) == View()
    {
      hide Run, Step;
      while true
        invariant m.phase == Body && m.chunked && m.inTrailer && Run(View()) == old(Run(View()))
        decreases |buffer|
      {
        RunFromTrailer(View());
        var tPos, tLineEnd := NextLine();
        if tPos == |buffer| { return false; }
        var blankLine := tPos == 0;
        buffer := buffer[tPos + tLineEnd..];
        if blankLine {
          m := m.(inTrailer := false);
          m := m.(phase := Complete);
          return true;
        }
      }
    }

    /** parseChunked at a size line: one round of its loop. The code takes a round that
        changes nothing again and again; here that ends with `hangs`. */
    method ReadChunk() returns (more: bool, hangs: bool)
      requires m.phase == Body && m.chunked && !m.inTrailer
      modifies this
      ensures Run(View()) == old(Run(View()))
      ensures more ==> m.phase == Body && m.chunked && Progress(old(View()), View())
      ensures !more ==> Step(View()) == View()
      ensures hangs == (!more && Spins(View()))
    {
      hide Run, Step, Trim, Strtol;
      ghost var before := View();
      RunFromChunk(before);
      var pos, lineEnd := NextLine();
      if pos == |buffer| { return false, false; }
      var sizeLine := Trim(buffer[..pos]);
      var semi := Find(sizeLine, ';');
      if semi != |sizeLine| { sizeLine := sizeLine[..semi]; }
      assert sizeLine == Trim(buffer[..pos])[..semi];
      var size := Strtol(sizeLine, 16);
      assert size == ChunkSize(buffer[..pos]);
      hide ChunkSize;
      TakeChunkSteps(before);
      more, hangs := TakeChunk(pos, lineEnd, size);
    }

    /** The rest of the round, with the size line read as `size`. */
    method TakeChunk(pos: nat, lineEnd: nat, size: int) returns (more: bool, hangs: bool)
      requires m.phase == Body && -LONG_MAX - 1 <= size <= LONG_MAX
      requires 1 <= lineEnd && pos + lineEnd <= |buffer|
      modifies this
      ensures View() == HttpParser.TakeChunk(old(View()), Line(pos, lineEnd), size)
      ensures more ==> m.phase == Body && m.chunked == old(m.chunked) && Progress(old(View()), View())
      ensures !more ==> View() == old(View()) || m.phase == Error
      ensures hangs == (!more && m.phase == Body && SpinsOn(View(), Line(pos, lineEnd), size))
    {
      if size == 0 {
        buffer := buffer[pos + lineEnd..];
        m := m.(inTrailer := true);
        return true, false;
      }

      var frame := SizeSum(pos + 2 * lineEnd, size);
      if |buffer| < frame { return false, false; }

      if SizeSum(|m.body|, size) > m.maxBody {
        SetError(413);
        return false, false;
      }

      ChunkFlags(View(), Line(pos, lineEnd), size);
      hide Progress, SpinsOn;
      var end := if size < 0 then |buffer| else pos + lineEnd + size;
      m := m.(body := m.body + buffer[pos + lineEnd..end]);
      buffer := buffer[frame..];
      hangs := frame == 0 && pos + lineEnd == |buffer|;
      more := !hangs;
    }

    /** A chunk taken changes something, except in the looping case. */
    static lemma ChunkFlags(p: Parser, l: Line, size: int)
      requires p.m.phase == Body && l.Line? && 1 <= l.width && l.end + l.width <= |p.buffer|
      requires -LONG_MAX - 1 <= size <= LONG_MAX && size != 0
      requires FrameLength(l, size) <= |p.buffer| && SizeSum(|p.m.body|, size) <= p.m.maxBody
      ensures var q := HttpParser.TakeChunk(p, l, size);
              if FrameLength(l, size) == 0 && l.end + l.width == |p.buffer| then q == p && SpinsOn(p, l, size)
              else Progress(p, q)
    {
      TakeProgress(p, l, size);
      assert p.m.body + [] == p.m.body;
    }

    method ParseChunked() returns (finished: bool, hangs: bool)
      requires m.phase == Body && m.chunked
      modifies this
      ensures Run(View()) == old(Run(View()))
      ensures finished ==> m.phase == Complete
      ensures !finished ==> Step(View()) == View()
      ensures hangs <==> Spins(View())
    {
      hide Run, Step;
      while true
        invariant m.phase == Body && m.chunked && Run(View()) == old(Run(View()))
        decreases |buffer|, Room(View())
      {
        if m.inTrailer {
          finished := SkipTrailer();
          hangs := false;
          return;
        }
        var more;
        more, hangs := ReadChunk();
        if !more { return false, hangs; }
      }
    }

    /** feed at the request line. */
    method ReadRequestLine() returns (found: bool, ok: bool)
      requires m.phase == RequestLine
      modifies this
      ensures found == FindLine(old(buffer)).Line?
      ensures View() == if found then StepLine(old(View())) else old(View())
      ensures ok <==> m.phase != Error
    {
      hide HttpParser.ParseRequestLine;
      var pos := FindCrlf(buffer);
      if pos == |buffer| {
        pos := Find(buffer, '\n');
        if pos == |buffer| { return false, true; }
      }
      var line := buffer[..pos];
      buffer := buffer[pos + (if buffer[pos] == '\r' then 2 else 1)..];
      ok := ParseRequestLine(line);
      found := true;
    }

    /** feed at a header line or at the blank line. */
    method ReadHeaderLine() returns (found: bool, ok: bool)
      requires m.phase == Headers
      modifies this
      ensures found == FindLine(old(buffer)).Line?
      ensures View() == if found then StepLine(old(View())) else old(View())
      ensures ok <==> m.phase != Error
    {
      hide HttpParser.ParseHeader, HttpParser.EndHeaders;
      var pos, lineEnd := NextLine();
      if pos == |buffer| { return false, true; }
      var line := buffer[..pos];
      buffer := buffer[pos + lineEnd..];
      if line == "" {
        ok := EndHeaders();
      } else {
        ok := ParseHeader(line);
      }
      found := true;
    }

    /** feed(): append the bytes, then parse as far as they go; false only after an
        error. `hangs` says that the code does not return but keeps the state it has
        reached for ever, which it does exactly if that is the looping case. */
    method Feed(data: string, limit: nat) returns (ok: bool, hangs: bool)
      modifies this
      ensures View() == HttpParser.Feed(old(View()), data, limit)
      ensures !ok ==> m.phase == Error
      ensures hangs <==> Spins(View())
    {
      m := m.(maxBody := limit);
      buffer := buffer + data;
      ghost var start := View();
      assert start == Append(WithLimit(old(View()), limit), data);

      hangs := false;
      hide Run, Step, StepLine;
      while m.phase != Complete && m.phase != Error
        invariant Run(View()) == Run(start) && !hangs
        decreases |buffer|, Rank(View()), Room(View())
      {
        if m.phase == RequestLine {
          RunFromLine(View());
          var found, parsed := ReadRequestLine();
          if !found { break; }
          if !parsed {
            DoneStaysDone(View());
            return false, false;
          }
        } else if m.phase == Headers {
          RunFromLine(View());
          var found, parsed := ReadHeaderLine();
          if !found { break; }
          if !parsed {
            DoneStaysDone(View());
            return false, false;
          }
        } else if m.chunked {
          var finished;
          finished, hangs := ParseChunked();
          if !finished { break; }
        } else {
          RunFromLength(View());
          if |buffer| >= m.contentLength {
            m := m.(body := buffer[..m.contentLength]);
            buffer := buffer[m.contentLength..];
            m := m.(phase := Complete);
          } else {
            break;
          }
        }
      }
      if Done(m) { DoneStaysDone(View()); }
      ok := true;
    }
  }
}
