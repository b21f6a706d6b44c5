/** What every connection of every run keeps: no byte of a response is lost or
    doubled, responses keep up with requests, and the requests are those that the
    bytes received carry, however they were delivered. */
module ServerOrder {
  import opened HttpParser
  import opened HttpSplit
  import opened HttpPipeline
  import opened Routing
  import opened ServerModel
  import opened ServerTables
  import opened ServerLinks

  // ----- what a stream asks for -----

  /** The requests a stream carries; an unreadable one ends it and counts. */
  function Outcomes(p: Parser): seq<Message> {
    Served(p) + (if Rest(p).m.phase == Error then [Rest(p).m] else [])
  }

  lemma OutcomesAfterRun(p: Parser)
    ensures Outcomes(p) == Outcomes(Run(p)) && Rest(p) == Rest(Run(p))
    ensures !Done(Run(p).m) ==> Outcomes(p) == [] && Rest(p) == Run(p)
    ensures Run(p).m.phase == Error ==> Outcomes(p) == [Run(p).m]
    ensures Run(p).m.phase == Complete ==> Outcomes(p) == [Run(p).m] + Outcomes(Reset(Run(p))) && Rest(p) == Rest(Reset(Run(p)))
  {
    Unfold(p);
    Unfold(Run(p));
    RunTwice(p);
    hide Run, Served, Rest;
  }

  lemma RunTwice(p: Parser)
    ensures Run(Run(p)) == Run(p)
  {
  }

  /** Alignment goes on behind what has been run, and behind a request completed. */
  lemma AlignedBehind(p: Parser)
    requires AlignedStream(p)
    ensures AlignedStream(Run(p)) && (Run(p).m.phase == Complete ==> AlignedStream(Reset(Run(p))))
    ensures !Spins(Run(p))
  {
    Unfold(p);
    Unfold(Run(p));
    RunTwice(p);
    AlignedEnd(p);
    AlignedNeverSpins(p);
    hide Run, AlignedRun, AlignedStream;
  }

  lemma {:induction false} AlignedEnd(p: Parser)
    requires AlignedRun(p)
    ensures AlignedRun(Run(p))
    decreases |p.buffer|, Rank(p), Room(p)
  {
    hide Step, Aligned;
    if Step(p) != p { AlignedEnd(Step(p)); }
  }

  /** New bytes on a stream that has not failed. */
  lemma OutcomesGrow(p: Parser, x: string)
    requires AlignedStream(Append(p, x))
    ensures AlignedStream(p) && AlignedStream(Append(Rest(p), x))
    ensures Rest(p).m.phase != Error ==>
              Outcomes(Append(p, x)) == Outcomes(p) + Outcomes(Append(Rest(p), x)) && Rest(Append(p, x)) == Rest(Append(Rest(p), x))
  {
    var q, r := Append(p, x), Append(Rest(p), x);
    ServedAppend(p, x);
    hide Served, Rest, AlignedStream, Append;
    OutcomesJoin(Served(p), Served(r), if Rest(q).m.phase == Error then [Rest(q).m] else []);
  }

  lemma OutcomesJoin(a: seq<Message>, b: seq<Message>, c: seq<Message>)
    ensures (a + b) + c == (a + []) + (b + c)
  {
  }

  // ----- the invariant of a connection -----

  /** All bytes received, put before a parser that has seen nothing. */
  function Stream(ceiling: nat, c: Conn): Parser { Parser(Blank(ceiling), c.past.received) }

  function Last<T>(s: seq<T>): T
    requires s != []
  {
    s[|s| - 1]
  }

  function Front<T>(s: seq<T>): seq<T>
    requires s != []
  {
    s[..|s| - 1]
  }

  /** No byte of a response is lost or doubled, and responses keep up with requests. */
  predicate Bytes(ceiling: nat, c: Conn) {
    var h := c.past;
    && h.sent + c.sendBuffer == Concat(h.responses)
    && match c.state
       case Reading => c.sendBuffer == "" && |h.responses| == |h.requests| && !Done(c.request.m)
       case Sending => && |h.responses| == |h.requests| > 0 && BusyWith(ceiling, c)
                       && (c.request.m.phase == Error ==> !c.keepAlive)
       case CgiReading => && c.sendBuffer == "" && |h.requests| == |h.responses| + 1 && BusyWith(ceiling, c)
                          && c.request.m.phase == Complete
                          && h.piped + c.cgiBody == Last(h.requests).body
       case CgiWriting => false
  }

  /** The last request is the one the parser holds. */
  predicate BusyWith(ceiling: nat, c: Conn) {
    && c.past.requests != [] && Last(c.past.requests) == c.request.m
    && Done(c.request.m) && c.request.m.maxBody == ceiling
  }

  /** The requests so far, and those still in the parser, are the ones of the stream. */
  predicate InOrder(ceiling: nat, c: Conn) {
    if c.state == Reading then
      Outcomes(Stream(ceiling, c)) == c.past.requests && Rest(Stream(ceiling, c)) == WithLimit(c.request, ceiling)
    else
      && c.past.requests != []
      && Outcomes(Stream(ceiling, c)) == Front(c.past.requests) + Outcomes(c.request)
      && Rest(Stream(ceiling, c)) == Rest(c.request) && AlignedStream(c.request)
  }

  predicate ConnOk(ceiling: nat, c: Conn) {
    Bytes(ceiling, c) && (AlignedStream(Stream(ceiling, c)) ==> InOrder(ceiling, c))
  }

  // ----- small steps -----

  lemma {:induction false} ConcatOneMore(pieces: seq<string>, x: string)
    ensures Concat(pieces + [x]) == Concat(pieces) + x
    decreases |pieces|
  {
    if pieces == [] {
      assert pieces + [x] == [x] && [x][1..] == [];
    } else {
      assert (pieces + [x])[1..] == pieces[1..] + [x];
      ConcatOneMore(pieces[1..], x);
    }
  }

  lemma TakenAndLeft(s: string, n: int)
    requires n > 0
    ensures Taken(s, n) + Left(s, n) == s
  {
  }

  lemma SendSomeOk(ceiling: nat, c: Conn, n: int)
    requires ConnOk(ceiling, c) && n > 0
    ensures ConnOk(ceiling, SendSome(c, n))
  {
    TakenAndLeft(c.sendBuffer, n);
    assert c.past.sent + Taken(c.sendBuffer, n) + Left(c.sendBuffer, n) == c.past.sent + c.sendBuffer;
    assert c.sendBuffer == "" ==> Left(c.sendBuffer, n) == "";
    assert Stream(ceiling, SendSome(c, n)) == Stream(ceiling, c);
    hide Outcomes, Rest, AlignedStream, Concat;
  }

  lemma PipeSomeOk(ceiling: nat, c: Conn, n: int)
    requires ConnOk(ceiling, c) && n > 0
    ensures ConnOk(ceiling, PipeSome(c, n))
  {
    TakenAndLeft(c.cgiBody, n);
    assert c.past.piped + Taken(c.cgiBody, n) + Left(c.cgiBody, n) == c.past.piped + c.cgiBody;
    assert Stream(ceiling, PipeSome(c, n)) == Stream(ceiling, c);
    hide Outcomes, Rest, AlignedStream, Concat;
  }

  lemma FinishOk(site: Site, c: Conn, moment: Moment)
    requires ConnOk(site.ceiling, c) && c.state == CgiReading
    ensures ConnOk(site.ceiling, Finished(site, c, moment))
  {
    ConcatOneMore(c.past.responses, site.finish(c.request.m, c.cgiOutput, moment));
    assert c.past.sent + "" == c.past.sent;
    assert Stream(site.ceiling, Finished(site, c, moment)) == Stream(site.ceiling, c);
    hide Outcomes, Rest, AlignedStream, Concat;
  }

  lemma NewConnOk(ceiling: nat, fd: int, listenFd: int)
    ensures ConnOk(ceiling, NewConn(fd, listenFd))
  {
    EmptyBuffer(ceiling);
    OutcomesAfterRun(Parser(Blank(ceiling), ""));
    hide Outcomes, Rest, AlignedStream, Run;
  }

  // ----- feeding -----

  /** The connection is about to feed its parser: everything queued has been sent. */
  predicate Idle(c: Conn) {
    && c.state == Reading && c.sendBuffer == "" && |c.past.responses| == |c.past.requests|
    && c.past.sent == Concat(c.past.responses)
  }

  lemma ProcessBytes(site: Site, default: nat, c: Conn, o: Oracle)
    requires default < |site.servers| && BusyWith(site.ceiling, c)
    requires c.sendBuffer == "" && |c.past.requests| == |c.past.responses| + 1
    requires c.past.sent == Concat(c.past.responses)
    ensures Bytes(site.ceiling, Process(site, default, c, o))
    ensures Process(site, default, c, o).state != Reading
    ensures Process(site, default, c, o).request == c.request
    ensures Process(site, default, c, o).past.requests == c.past.requests
    ensures Process(site, default, c, o).past.received == c.past.received
  {
    hide LimitIn, ServerFor, Concat;
    var m := c.request.m;
    match Decide(site, default, m)
    case Refuse(code) =>
      var flag := if m.phase == Error then c.keepAlive else m.keepAlive;
      ConcatOneMore(c.past.responses, site.page(default, code, flag, m, o.moment));
    case Handle =>
      match site.route(default, m, o.moment)
      case Immediate(response) => ConcatOneMore(c.past.responses, response);
      case StartCgi => assert "" + m.body == m.body;
  }

  lemma FeedKeepsLimit(p: Parser, data: string, ceiling: nat)
    ensures Feed(p, data, ceiling).m.maxBody == ceiling
  {
  }

  /** Feeding keeps the invariant, if the new stream goes on as the new parser does. */
  lemma FeedConnOk(site: Site, default: nat, c: Conn, data: string, o: Oracle)
    requires default < |site.servers| && Idle(c)
    requires var p := Feed(c.request, data, site.ceiling);
             var q := Parser(Blank(site.ceiling), c.past.received + data);
             AlignedStream(q) ==> Outcomes(q) == c.past.requests + Outcomes(p) && Rest(q) == Rest(p) && AlignedStream(p)
    ensures ConnOk(site.ceiling, FeedConn(site, default, c, data, o))
  {
    var p := Feed(c.request, data, site.ceiling);
    FeedKeepsLimit(c.request, data, site.ceiling);
    RunTwice(Append(WithLimit(c.request, site.ceiling), data));
    assert Run(p) == p;
    OutcomesAfterRun(p);
    assert p.m.maxBody == site.ceiling ==> WithLimit(p, site.ceiling) == p;
    var d := c.(request := p, past := c.past.(received := c.past.received + data));
    hide Feed, Run, Outcomes, Rest, AlignedStream, Process, Concat;
    if Done(p.m) {
      var e := Asked(d, o.moment);
      ProcessBytes(site, default, e, o);
      assert Front(e.past.requests) == c.past.requests;
    } else {
      assert c.past.sent + "" == c.past.sent;
      assert c.past.requests + [] == c.past.requests;
    }
  }

  /** Bytes from the socket. */
  lemma ReadOk(site: Site, default: nat, c: Conn, data: string, o: Oracle)
    requires default < |site.servers| && c.state == Reading && ConnOk(site.ceiling, c)
    ensures ConnOk(site.ceiling, FeedConn(site, default, c, data, o))
  {
    var before := Stream(site.ceiling, c);
    var q := Parser(Blank(site.ceiling), c.past.received + data);
    assert q == Append(before, data);
    assert c.past.sent + "" == c.past.sent;
    hide Outcomes, Rest, AlignedStream, Concat, Run, FeedConn;
    if AlignedStream(q) {
      OutcomesGrow(before, data);
      OutcomesAfterRun(Append(Rest(before), data));
      AlignedBehind(Append(Rest(before), data));
    }
    FeedConnOk(site, default, c, data, o);
  }

  /** The next pipelined request, after the response has been sent. */
  lemma NextOk(site: Site, default: nat, c: Conn, o: Oracle)
    requires default < |site.servers| && c.state == Sending && ConnOk(site.ceiling, c)
    requires c.sendBuffer == "" && c.keepAlive
    ensures ConnOk(site.ceiling, FeedConn(site, default, Renewed(c), "", o))
  {
    hide Outcomes, Rest, AlignedStream, Concat, Run, FeedConn;
    var q := Parser(Blank(site.ceiling), c.past.received + "");
    assert c.past.received + "" == c.past.received;
    assert c.past.sent + "" == c.past.sent;
    FeedAfterReset(c.request, site.ceiling);
    if AlignedStream(q) {
      assert Front(c.past.requests) + [c.request.m] == c.past.requests;
      assert Outcomes(q) == c.past.requests + Outcomes(Reset(c.request));
      AlignedNext(c.request, site.ceiling);
    }
    FeedConnOk(site, default, Renewed(c), "", o);
  }

  /** The next request of an aligned stream is aligned, and feed returns at its end. */
  lemma AlignedNext(p: Parser, ceiling: nat)
    requires p.m.phase == Complete && p.m.maxBody == ceiling && AlignedStream(p)
    ensures AlignedStream(Feed(Reset(p), "", ceiling)) && !Spins(Feed(Reset(p), "", ceiling))
  {
    assert Append(WithLimit(Reset(p), ceiling), "") == Reset(p) by { assert p.buffer + "" == p.buffer; }
    DoneStaysDone(p);
    AlignedBehind(p);
    AlignedBehind(Reset(p));
    hide Run, AlignedStream, Spins;
  }

  lemma FeedAfterReset(p: Parser, ceiling: nat)
    requires Done(p.m) && p.m.maxBody == ceiling
    ensures var r := Reset(p);
            && Outcomes(r) == Outcomes(Feed(r, "", ceiling)) && Rest(r) == Rest(Feed(r, "", ceiling))
            && (p.m.phase == Complete ==> Outcomes(p) == [p.m] + Outcomes(r) && Rest(p) == Rest(r))
  {
    var r := Reset(p);
    assert Append(WithLimit(r, ceiling), "") == r by { assert r.buffer + "" == r.buffer; }
    DoneStaysDone(p);
    OutcomesAfterRun(p);
    OutcomesAfterRun(r);
    hide Outcomes, Rest, Run;
  }

  // ----- states -----

  predicate AllOk(ceiling: nat, s: State) {
    && (forall fd :: fd in s.clients ==> ConnOk(ceiling, s.clients[fd]))
    && (forall i :: 0 <= i < |s.closed| ==> ConnOk(ceiling, s.closed[i]))
  }

  lemma PutOk(ceiling: nat, s: State, c: Conn)
    requires AllOk(ceiling, s) && ConnOk(ceiling, c)
    ensures AllOk(ceiling, Put(s, c)) && AllOk(ceiling, Register(s, c))
  {
    hide ConnOk;
  }

  lemma CloseOk(ceiling: nat, s: State, fd: int)
    requires AllOk(ceiling, s)
    ensures AllOk(ceiling, Close(s, fd))
  {
    hide ConnOk;
  }

  lemma {:induction false} CloseAllOk(ceiling: nat, s: State, fds: seq<int>)
    requires AllOk(ceiling, s)
    ensures AllOk(ceiling, CloseAll(s, fds))
    decreases |fds|
  {
    if fds != [] {
      CloseOk(ceiling, s, fds[0]);
      hide AllOk;
      CloseAllOk(ceiling, Close(s, fds[0]), fds[1..]);
    }
  }

  lemma WriteOk(site: Site, s: State, fd: int, n: int, o: Oracle)
    requires site.servers != [] && AllOk(site.ceiling, s) && fd in s.clients && s.clients[fd].fd == fd
    ensures AllOk(site.ceiling, Write(site, s, fd, n, o))
  {
    var c := s.clients[fd];
    assert ConnOk(site.ceiling, c);
    hide AllOk, ConnOk, FeedConn;
    if c.sendBuffer != "" && n <= 0 {
      CloseOk(site.ceiling, s, fd);
    } else {
      var d := if c.sendBuffer != "" then SendSome(c, n) else c;
      if c.sendBuffer != "" { SendSomeOk(site.ceiling, c, n); }
      PutOk(site.ceiling, s, d);
      var t := Put(s, d);
      if d.sendBuffer == "" {
        if d.keepAlive && d.state == Sending {
          NextOk(site, DefaultServer(site, t, d), d, o);
          PutOk(site.ceiling, t, FeedConn(site, DefaultServer(site, t, d), Renewed(d), "", o));
        } else {
          CloseOk(site.ceiling, t, d.fd);
        }
      }
    }
  }

  lemma UnplugOk(ceiling: nat, s: State, fd: int, c: Conn)
    requires AllOk(ceiling, s) && ConnOk(ceiling, c)
    ensures AllOk(ceiling, Unplug(s, fd, c))
  {
    assert ConnOk(ceiling, c.(pipeIn := -1)) by {
      assert Stream(ceiling, c.(pipeIn := -1)) == Stream(ceiling, c);
      hide Outcomes, Rest, AlignedStream, Concat;
    }
    hide ConnOk;
  }

  lemma WriteCgiOk(ceiling: nat, s: State, fd: int, n: int)
    requires AllOk(ceiling, s) && fd in s.cgiWriteFds
    ensures AllOk(ceiling, WriteCgi(s, fd, n))
  {
    var k := s.cgiWriteFds[fd];
    if k in s.clients {
      var c := s.clients[k];
      assert ConnOk(ceiling, s.clients[k]);
      hide AllOk, ConnOk;
      if c.cgiBody == "" || n <= 0 {
        UnplugOk(ceiling, s, fd, c);
      } else {
        PipeSomeOk(ceiling, c, n);
        PutOk(ceiling, s, PipeSome(c, n));
        UnplugOk(ceiling, s, fd, PipeSome(c, n));
      }
    }
  }

  lemma CollectOk(ceiling: nat, c: Conn, data: string)
    requires ConnOk(ceiling, c)
    ensures ConnOk(ceiling, Collect(c, data))
  {
    assert Stream(ceiling, Collect(c, data)) == Stream(ceiling, c);
    hide Outcomes, Rest, AlignedStream, Concat;
  }

  lemma ReadCgiOk(site: Site, s: State, fd: int, data: string, moment: Moment)
    requires AllOk(site.ceiling, s) && Linked(s) && fd in s.cgiReadFds
    ensures AllOk(site.ceiling, ReadCgi(site, s, fd, data, moment))
  {
    assert ReadEntry(s, fd) && Held(s, s.cgiReadFds[fd]);
    var c := s.clients[s.cgiReadFds[fd]];
    assert ConnOk(site.ceiling, c);
    hide ConnOk;
    if data != "" {
      CollectOk(site.ceiling, c, data);
      PutOk(site.ceiling, s, Collect(c, data));
    } else {
      FinishOk(site, c, moment);
      PutOk(site.ceiling, s, Finished(site, c, moment));
    }
  }

  lemma StepOk(site: Site, s: State, e: Event)
    requires site.servers != [] && Linked(s) && AllOk(site.ceiling, s)
    ensures AllOk(site.ceiling, Dispatch(site, s, e))
  {
    match e
    case Timeouts(fds) => CloseAllOk(site.ceiling, s, fds);
    case Ready(fd, input, output, io) =>
      if fd in s.listenFds {
        NewConnOk(site.ceiling, io.newFd, fd);
        hide ConnOk;
        PutOk(site.ceiling, s, NewConn(io.newFd, fd));
      } else if fd in s.cgiWriteFds {
        WriteCgiOk(site.ceiling, s, fd, io.count);
      } else if fd in s.cgiReadFds {
        ReadCgiOk(site, s, fd, io.data, io.oracle.moment);
      } else if fd in s.clients {
        if input && s.clients[fd].state == Reading {
          ReadStepOk(site, s, fd, io.data, io.oracle);
        } else if input || output {
          assert Held(s, fd);
          WriteOk(site, s, fd, io.count, io.oracle);
        }
      }
  }

  lemma ReadStepOk(site: Site, s: State, fd: int, data: string, o: Oracle)
    requires site.servers != [] && AllOk(site.ceiling, s) && fd in s.clients && s.clients[fd].state == Reading
    ensures AllOk(site.ceiling, Read(site, s, fd, data, o))
  {
    var c := s.clients[fd];
    assert ConnOk(site.ceiling, c);
    hide ConnOk, FeedConn;
    if data == "" {
      CloseOk(site.ceiling, s, fd);
    } else {
      ReadOk(site, DefaultServer(site, s, c), c, data, o);
      PutOk(site.ceiling, s, FeedConn(site, DefaultServer(site, s, c), c, data, o));
    }
  }

  // ----- runs -----

  lemma {:induction false} OkUpTo(site: Site, listenFds: map<int, nat>, es: seq<Event>, n: nat)
    requires site.servers != [] && n <= |es|
    requires FreshRun(site, Start(listenFds), es)
    ensures AllOk(site.ceiling, RunAll(site, Start(listenFds), es[..n]))
  {
    if n > 0 {
      var s := RunAll(site, Start(listenFds), es[..n - 1]);
      OkUpTo(site, listenFds, es, n - 1);
      hide *;
      LinkedInEveryRun(site, listenFds, es, n - 1);
      OneMoreOk(site, listenFds, es, n - 1, s);
    }
  }

  lemma OneMoreOk(site: Site, listenFds: map<int, nat>, es: seq<Event>, n: nat, s: State)
    requires site.servers != [] && n < |es| && s == RunAll(site, Start(listenFds), es[..n])
    requires Linked(s) && AllOk(site.ceiling, s)
    ensures AllOk(site.ceiling, RunAll(site, Start(listenFds), es[..n + 1]))
  {
    hide *;
    RunOneMore(site, Start(listenFds), es, n);
    StepOk(site, s, es[n]);
  }
}
