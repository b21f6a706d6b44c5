/** Response order: on every connection of every run, the bytes sent are a prefix of
    the responses to its requests put one after the other; each is the answer to its
    own request, and one made by a CGI program is made from exactly the output of the
    program started for that request. */
module ServerAnswers {
  import opened HttpParser
  import opened HttpSplit
  import opened HttpEncode
  import opened HttpPipeline
  import opened ServerModel
  import opened ServerTables
  import opened ServerLinks
  import opened ServerOrder

  // ----- the answer to a request -----

  /** The response to a request that was read at one moment, given what went into it:
      the error page where the server itself refuses, what routing responds, or what
      is made of the output of the CGI program routing sends it to. An unreadable
      request finds the client's keep-alive flag as the request before has left it:
      set, if there was one. */
  ghost function ResponseTo(site: Site, default: nat, first: bool, m: Message, asked: Moment, made: Made): string
    requires default < |site.servers|
  {
    match Decide(site, default, m)
    case Refuse(code) => site.page(default, code, if m.phase == Error then !first else m.keepAlive, m, asked)
    case Handle =>
      match site.route(default, m, asked)
      case Immediate(response) => response
      case StartCgi => site.finish(m, made.output, made.moment)
  }

  /** The responses to the first requests, one for each that has been made. */
  ghost function Responses(site: Site, default: nat, ms: seq<Message>, asked: seq<Moment>, made: seq<Made>): seq<string>
    requires default < |site.servers| && |made| <= |ms| && |made| <= |asked|
  {
    seq(|made|, i requires 0 <= i < |made| => ResponseTo(site, default, i == 0, ms[i], asked[i], made[i]))
  }

  // ----- the invariant of a connection -----

  ghost predicate Answered(site: Site, default: nat, h: History)
    requires default < |site.servers|
  {
    && |h.asked| == |h.requests| && |h.made| == |h.responses| <= |h.requests|
    && h.responses == Responses(site, default, h.requests, h.asked, h.made)
  }

  /** The last request was sent to a CGI program. */
  ghost predicate Started(site: Site, default: nat, h: History)
    requires default < |site.servers|
  {
    && h.requests != [] && |h.asked| == |h.requests|
    && Decide(site, default, Last(h.requests)) == Handle
    && site.route(default, Last(h.requests), Last(h.asked)) == StartCgi
  }

  /** A client that waits for a CGI program has had its request sent there, and holds
      exactly what has been read from that program. */
  ghost predicate Tied(site: Site, default: nat, c: Conn)
    requires default < |site.servers|
  {
    && Answered(site, default, c.past)
    && (c.state == Reading ==> (c.keepAlive <==> c.past.requests != []))
    && (c.state == CgiReading ==> Started(site, default, c.past) && c.cgiOutput == c.past.read)
  }

  // ----- one connection -----

  lemma NewConnTied(site: Site, default: nat, fd: int, listenFd: int)
    requires default < |site.servers|
    ensures Tied(site, default, NewConn(fd, listenFd))
  {
  }

  /** What a handler does that adds neither a request nor a response. */
  lemma SameTied(site: Site, default: nat, c: Conn, d: Conn)
    requires default < |site.servers| && Tied(site, default, c)
    requires d.past.requests == c.past.requests && d.past.asked == c.past.asked
    requires d.past.responses == c.past.responses && d.past.made == c.past.made
    requires d.state == Reading ==> (d.keepAlive <==> d.past.requests != [])
    requires d.state == CgiReading ==> c.state == CgiReading && (c.cgiOutput == c.past.read ==> d.cgiOutput == d.past.read)
    ensures Tied(site, default, d)
  {
    hide Responses, Decide;
  }

  /** One more request has been read: the responses so far are still those to theirs. */
  lemma AskedAnswered(site: Site, default: nat, c: Conn, moment: Moment)
    requires default < |site.servers| && Answered(site, default, c.past)
    ensures Answered(site, default, Asked(c, moment).past)
    ensures var h := Asked(c, moment).past; Last(h.requests) == c.request.m && Last(h.asked) == moment
  {
    var h, g := c.past, Asked(c, moment).past;
    hide ResponseTo;
    assert forall i :: 0 <= i < |h.made| ==> g.requests[i] == h.requests[i] && g.asked[i] == h.asked[i];
    assert Responses(site, default, g.requests, g.asked, g.made) == Responses(site, default, h.requests, h.asked, h.made);
  }

  /** The response to the last request is queued. */
  lemma QueuedAnswered(site: Site, default: nat, c: Conn, response: string, made: Made)
    requires default < |site.servers| && Answered(site, default, c.past)
    requires |c.past.requests| == |c.past.responses| + 1
    requires response == ResponseTo(site, default, |c.past.requests| == 1, Last(c.past.requests), Last(c.past.asked), made)
    ensures Answered(site, default, Queue(c, response, made).past)
  {
    var h, g := c.past, Queue(c, response, made).past;
    hide ResponseTo;
    assert forall i :: 0 <= i < |h.made| ==> g.made[i] == h.made[i];
    assert Responses(site, default, g.requests, g.asked, g.made)
           == Responses(site, default, h.requests, h.asked, h.made) + [response];
  }

  lemma ProcessTied(site: Site, default: nat, c: Conn, o: Oracle)
    requires default < |site.servers| && Answered(site, default, c.past)
    requires |c.past.requests| == |c.past.responses| + 1
    requires Last(c.past.requests) == c.request.m && Last(c.past.asked) == o.moment
    requires c.keepAlive <==> |c.past.requests| != 1
    ensures Tied(site, default, Process(site, default, c, o))
  {
    var m, made := c.request.m, Made("", o.moment);
    assert Process(site, default, c, o).state == CgiReading ==>
             Decide(site, default, m) == Handle && site.route(default, m, o.moment) == StartCgi;
    match Decide(site, default, m)
    case Refuse(code) =>
      var page := site.page(default, code, if m.phase == Error then c.keepAlive else m.keepAlive, m, o.moment);
      assert page == ResponseTo(site, default, |c.past.requests| == 1, m, o.moment, made);
      hide ResponseTo, Answered, Decide;
      QueuedAnswered(site, default, c.(keepAlive := false), page, made);
    case Handle =>
      var d := c.(keepAlive := m.keepAlive);
      match site.route(default, m, o.moment)
      case Immediate(response) =>
        assert response == ResponseTo(site, default, |c.past.requests| == 1, m, o.moment, made);
        hide ResponseTo, Answered, Decide;
        QueuedAnswered(site, default, d, response, made);
      case StartCgi =>
        hide ResponseTo, Responses, Decide;
  }

  lemma FeedConnTied(site: Site, default: nat, c: Conn, data: string, o: Oracle)
    requires default < |site.servers| && Tied(site, default, c)
    requires c.state == Reading && |c.past.requests| == |c.past.responses|
    ensures Tied(site, default, FeedConn(site, default, c, data, o))
  {
    var p := Feed(c.request, data, site.ceiling);
    var d := c.(request := p, past := c.past.(received := c.past.received + data));
    assert Answered(site, default, d.past) by { hide Responses; }
    assert FeedConn(site, default, c, data, o) == if Done(p.m) then Process(site, default, Asked(d, o.moment), o) else d;
    hide Feed, Process, Decide, Answered, Started;
    if Done(p.m) {
      AskedAnswered(site, default, d, o.moment);
      ProcessTied(site, default, Asked(d, o.moment), o);
    }
  }

  lemma FinishedTied(site: Site, default: nat, c: Conn, moment: Moment)
    requires default < |site.servers| && Tied(site, default, c)
    requires c.state == CgiReading && |c.past.requests| == |c.past.responses| + 1 && Last(c.past.requests) == c.request.m
    ensures Tied(site, default, Finished(site, c, moment))
  {
    var made := Made(c.past.read, moment);
    var response := site.finish(c.request.m, c.cgiOutput, moment);
    assert response == ResponseTo(site, default, |c.past.requests| == 1, Last(c.past.requests), Last(c.past.asked), made);
    hide ResponseTo, Decide, Answered;
    QueuedAnswered(site, default, c.(pipeIn := -1, pipeOut := -1), response, made);
  }

  // ----- states -----

  /** Every connection, live or closed, with the server block its socket was opened for. */
  ghost predicate AllTied(site: Site, s: State)
    requires site.servers != []
  {
    && (forall fd :: fd in s.clients ==> Tied(site, DefaultServer(site, s, s.clients[fd]), s.clients[fd]))
    && (forall i :: 0 <= i < |s.closed| ==> Tied(site, DefaultServer(site, s, s.closed[i]), s.closed[i]))
  }

  lemma SameDefault(site: Site, s: State, t: State)
    requires site.servers != [] && t.listenFds == s.listenFds
    ensures forall c :: DefaultServer(site, t, c) == DefaultServer(site, s, c)
  {
  }

  lemma PutTied(site: Site, s: State, c: Conn)
    requires site.servers != [] && AllTied(site, s) && Tied(site, DefaultServer(site, s, c), c)
    ensures AllTied(site, Put(s, c)) && AllTied(site, Register(s, c))
  {
    SameDefault(site, s, Put(s, c));
    SameDefault(site, s, Register(s, c));
    hide Tied, DefaultServer;
  }

  lemma CloseTied(site: Site, s: State, fd: int)
    requires site.servers != [] && AllTied(site, s)
    ensures AllTied(site, Close(s, fd))
  {
    SameDefault(site, s, Close(s, fd));
    hide Tied, DefaultServer;
  }

  lemma {:induction false} CloseAllTied(site: Site, s: State, fds: seq<int>)
    requires site.servers != [] && AllTied(site, s)
    ensures AllTied(site, CloseAll(s, fds))
    decreases |fds|
  {
    if fds != [] {
      CloseTied(site, s, fds[0]);
      hide AllTied;
      CloseAllTied(site, Close(s, fds[0]), fds[1..]);
    }
  }

  lemma ReadTied(site: Site, s: State, fd: int, data: string, o: Oracle)
    requires site.servers != [] && AllTied(site, s) && AllOk(site.ceiling, s)
    requires fd in s.clients && s.clients[fd].state == Reading
    ensures AllTied(site, Read(site, s, fd, data, o))
  {
    if data == "" {
      CloseTied(site, s, fd);
    } else {
      var c := s.clients[fd];
      var default := DefaultServer(site, s, c);
      assert Tied(site, default, c) && |c.past.requests| == |c.past.responses| by {
        assert ConnOk(site.ceiling, c);
        hide InOrder, Concat, AlignedStream, Tied;
      }
      FeedConnTied(site, default, c, data, o);
      FeedConnListens(site, default, c, data, o);
      hide Tied, FeedConn, AllTied, AllOk;
      PutTied(site, s, FeedConn(site, default, c, data, o));
    }
  }

  /** Feeding leaves the connection at the socket it came in through. */
  lemma FeedConnListens(site: Site, default: nat, c: Conn, data: string, o: Oracle)
    requires default < |site.servers|
    ensures FeedConn(site, default, c, data, o).listenFd == c.listenFd
  {
    hide Feed, Decide;
  }

  lemma WriteTied(site: Site, s: State, fd: int, n: int, o: Oracle)
    requires site.servers != [] && AllTied(site, s) && AllOk(site.ceiling, s)
    requires fd in s.clients && s.clients[fd].fd == fd
    ensures AllTied(site, Write(site, s, fd, n, o))
  {
    var c := s.clients[fd];
    assert Tied(site, DefaultServer(site, s, c), c);
    assert (|c.past.requests| == |c.past.responses| && c.past.requests != []) || c.state != Sending by {
      assert ConnOk(site.ceiling, c);
      hide InOrder, Concat, AlignedStream, Tied, AllTied;
    }
    hide AllTied, AllOk, FeedConn, Answered, Started, AllSent;
    if c.sendBuffer != "" && n <= 0 {
      CloseTied(site, s, fd);
    } else {
      var d := if c.sendBuffer != "" then SendSome(c, n) else c;
      SameTied(site, DefaultServer(site, s, c), c, d);
      PutTied(site, s, d);
      if d.sendBuffer == "" { AllSentTied(site, Put(s, d), d, o); }
    }
  }

  lemma AllSentTied(site: Site, s: State, c: Conn, o: Oracle)
    requires site.servers != [] && AllTied(site, s) && Tied(site, DefaultServer(site, s, c), c)
    requires c.state == Sending ==> |c.past.requests| == |c.past.responses| && c.past.requests != []
    ensures AllTied(site, AllSent(site, s, c, o))
  {
    var default := DefaultServer(site, s, c);
    hide AllTied, FeedConn, Answered, Started;
    if c.keepAlive && c.state == Sending {
      SameTied(site, default, c, Renewed(c));
      FeedConnTied(site, default, Renewed(c), "", o);
      FeedConnListens(site, default, Renewed(c), "", o);
      PutTied(site, s, FeedConn(site, default, Renewed(c), "", o));
    } else {
      CloseTied(site, s, c.fd);
    }
  }

  lemma UnplugTied(site: Site, s: State, fd: int, c: Conn)
    requires site.servers != [] && AllTied(site, s) && Tied(site, DefaultServer(site, s, c), c)
    ensures AllTied(site, Unplug(s, fd, c))
  {
    var d := c.(pipeIn := -1);
    SameTied(site, DefaultServer(site, s, c), c, d);
    PutTied(site, s, d);
    SameDefault(site, Put(s, d), Unplug(s, fd, c));
    hide Tied, DefaultServer;
  }

  lemma WriteCgiTied(site: Site, s: State, fd: int, n: int)
    requires site.servers != [] && AllTied(site, s) && fd in s.cgiWriteFds
    ensures AllTied(site, WriteCgi(s, fd, n))
  {
    var k := s.cgiWriteFds[fd];
    if k in s.clients {
      var c := s.clients[k];
      assert Tied(site, DefaultServer(site, s, s.clients[k]), s.clients[k]);
      hide AllTied, Answered, Started;
      if c.cgiBody == "" || n <= 0 {
        UnplugTied(site, s, fd, c);
      } else {
        SameTied(site, DefaultServer(site, s, c), c, PipeSome(c, n));
        PutTied(site, s, PipeSome(c, n));
        UnplugTied(site, s, fd, PipeSome(c, n));
      }
    }
  }

  lemma ReadCgiTied(site: Site, s: State, fd: int, data: string, moment: Moment)
    requires site.servers != [] && AllTied(site, s) && AllOk(site.ceiling, s) && Linked(s) && fd in s.cgiReadFds
    ensures AllTied(site, ReadCgi(site, s, fd, data, moment))
  {
    ReadersOneToOne(s);
    assert ReadEntry(s, fd) && Held(s, s.cgiReadFds[fd]);
    var c := s.clients[s.cgiReadFds[fd]];
    var default := DefaultServer(site, s, c);
    assert Tied(site, default, c);
    assert |c.past.requests| == |c.past.responses| + 1 && Last(c.past.requests) == c.request.m by {
      assert ConnOk(site.ceiling, c);
      hide InOrder, Concat, AlignedStream, Tied, AllTied;
    }
    hide AllTied, AllOk, Answered, Started;
    if data != "" {
      SameTied(site, default, c, Collect(c, data));
      PutTied(site, s, Collect(c, data));
    } else {
      var d := Finished(site, c, moment);
      FinishedTied(site, default, c, moment);
      PutTied(site, s, d);
      SameDefault(site, Put(s, d), ReadCgi(site, s, fd, data, moment));
      DroppedTied(site, Put(s, d), fd);
    }
  }

  lemma DroppedTied(site: Site, s: State, fd: int)
    requires site.servers != [] && AllTied(site, s)
    ensures AllTied(site, s.(cgiReadFds := s.cgiReadFds - {fd}))
  {
    SameDefault(site, s, s.(cgiReadFds := s.cgiReadFds - {fd}));
    hide Tied, DefaultServer;
  }

  lemma StepTied(site: Site, s: State, e: Event)
    requires site.servers != [] && Linked(s) && AllOk(site.ceiling, s) && AllTied(site, s)
    ensures AllTied(site, Dispatch(site, s, e))
  {
    match e
    case Timeouts(fds) => CloseAllTied(site, s, fds);
    case Ready(fd, input, output, io) =>
      assert fd in s.clients ==> Held(s, fd);
      hide AllTied, AllOk, Held;
      if fd in s.listenFds {
        var c := NewConn(io.newFd, fd);
        NewConnTied(site, DefaultServer(site, s, c), io.newFd, fd);
        PutTied(site, s, c);
      } else if fd in s.cgiWriteFds {
        WriteCgiTied(site, s, fd, io.count);
      } else if fd in s.cgiReadFds {
        ReadCgiTied(site, s, fd, io.data, io.oracle.moment);
      } else if fd in s.clients {
        if input && s.clients[fd].state == Reading {
          ReadTied(site, s, fd, io.data, io.oracle);
        } else if input || output {
          HeldUnderFd(s, fd);
          WriteTied(site, s, fd, io.count, io.oracle);
        }
      }
  }

  lemma HeldUnderFd(s: State, fd: int)
    requires fd in s.clients && Held(s, fd)
    ensures s.clients[fd].fd == fd
  {
  }

  // ----- runs -----

  lemma StartTied(site: Site, listenFds: map<int, nat>)
    requires site.servers != []
    ensures AllTied(site, Start(listenFds))
  {
  }

  lemma {:induction false} TiedUpTo(site: Site, listenFds: map<int, nat>, es: seq<Event>, n: nat)
    requires site.servers != [] && n <= |es|
    requires FreshRun(site, Start(listenFds), es)
    ensures AllTied(site, RunAll(site, Start(listenFds), es[..n]))
  {
    if n == 0 {
      StartTied(site, listenFds);
    } else {
      var s := RunAll(site, Start(listenFds), es[..n - 1]);
      TiedUpTo(site, listenFds, es, n - 1);
      hide *;
      OkUpTo(site, listenFds, es, n - 1);
      LinkedInEveryRun(site, listenFds, es, n - 1);
      OneMoreTied(site, listenFds, es, n - 1, s);
    }
  }

  lemma OneMoreTied(site: Site, listenFds: map<int, nat>, es: seq<Event>, n: nat, s: State)
    requires site.servers != [] && n < |es| && s == RunAll(site, Start(listenFds), es[..n])
    requires Linked(s) && AllOk(site.ceiling, s) && AllTied(site, s)
    ensures AllTied(site, RunAll(site, Start(listenFds), es[..n + 1]))
  {
    hide *;
    RunOneMore(site, Start(listenFds), es, n);
    StepTied(site, s, es[n]);
  }

  predicate IsPrefix<T(==)>(a: seq<T>, b: seq<T>) { |a| <= |b| && a == b[..|a|] }

  /** The promise for one connection that came in through the socket of a server block. */
  ghost predicate AnswersInOrder(site: Site, default: nat, c: Conn)
    requires default < |site.servers|
  {
    var h := c.past;
    && |h.asked| == |h.requests| && |h.made| <= |h.requests| <= |h.made| + 1
    && IsPrefix(h.sent, Concat(Responses(site, default, h.requests, h.asked, h.made)))
    && (AlignedStream(Stream(site.ceiling, c)) ==> IsPrefix(h.requests, Outcomes(Stream(site.ceiling, c))))
    && (c.state == CgiReading ==>
          Started(site, default, h) && c.cgiOutput == h.read && IsPrefix(h.piped, Last(h.requests).body))
  }

  lemma PrefixOfSum<T>(a: seq<T>, b: seq<T>)
    ensures IsPrefix(a, a + b)
  {
  }

  lemma DoneHeadsOutcomes(p: Parser)
    requires Done(p.m)
    ensures exists more :: Outcomes(p) == [p.m] + more
  {
    DoneStaysDone(p);
    OutcomesAfterRun(p);
    hide Outcomes, Rest;
    if p.m.phase == Error { assert Outcomes(p) == [p.m] + []; }
  }

  lemma RequestsInOrder(ceiling: nat, c: Conn)
    requires ConnOk(ceiling, c) && AlignedStream(Stream(ceiling, c))
    ensures IsPrefix(c.past.requests, Outcomes(Stream(ceiling, c)))
  {
    hide Outcomes, Rest, AlignedStream, Concat;
    var all, rs := Outcomes(Stream(ceiling, c)), c.past.requests;
    if c.state == Reading {
      assert all == rs;
    } else {
      DoneHeadsOutcomes(c.request);
      var more :| Outcomes(c.request) == [c.request.m] + more;
      assert Front(rs) + [c.request.m] == rs;
      assert all == rs + more;
    }
  }

  lemma OkMeansInOrder(site: Site, default: nat, c: Conn)
    requires default < |site.servers| && ConnOk(site.ceiling, c) && Tied(site, default, c)
    ensures AnswersInOrder(site, default, c)
  {
    hide Outcomes, Rest, AlignedStream, Concat, Responses, Decide;
    PrefixOfSum(c.past.sent, c.sendBuffer);
    PrefixOfSum(c.past.piped, c.cgiBody);
    if AlignedStream(Stream(site.ceiling, c)) { RequestsInOrder(site.ceiling, c); }
  }

  /** In every run with fresh descriptors, every connection, live or closed, has been
      answered in order, each request with its own response; whenever CGI programs
      finish, before they have been given the whole body included. */
  lemma ResponseOrder(site: Site, listenFds: map<int, nat>, es: seq<Event>)
    requires site.servers != []
    requires FreshRun(site, Start(listenFds), es)
    ensures var s := RunAll(site, Start(listenFds), es);
            && (forall fd :: fd in s.clients ==>
                  AnswersInOrder(site, DefaultServer(site, s, s.clients[fd]), s.clients[fd]))
            && (forall i :: 0 <= i < |s.closed| ==>
                  AnswersInOrder(site, DefaultServer(site, s, s.closed[i]), s.closed[i]))
  {
    OkUpTo(site, listenFds, es, |es|);
    TiedUpTo(site, listenFds, es, |es|);
    assert es[..|es|] == es;
    var s := RunAll(site, Start(listenFds), es);
    hide ConnOk, Tied, AnswersInOrder, RunAll, FreshRun, DefaultServer;
    forall fd | fd in s.clients ensures AnswersInOrder(site, DefaultServer(site, s, s.clients[fd]), s.clients[fd]) {
      OkMeansInOrder(site, DefaultServer(site, s, s.clients[fd]), s.clients[fd]);
    }
    forall i | 0 <= i < |s.closed| ensures AnswersInOrder(site, DefaultServer(site, s, s.closed[i]), s.closed[i]) {
      OkMeansInOrder(site, DefaultServer(site, s, s.closed[i]), s.closed[i]);
    }
  }

  // ----- clients that send well-formed requests -----

  /** The message a request over the limit fails with. */
  function Failure(r: Request, maxBody: nat): Message { Run(Parser(Blank(maxBody), Encode(r))).m }

  /** What is read of requests: their meanings, up to the first one over the limit, and
      the failure at that one. */
  function Expected(rs: seq<Request>, maxBody: nat): seq<Message> {
    if rs == [] then []
    else if |BodyOf(rs[0].framing)| <= maxBody then [Meaning(rs[0], maxBody)] + Expected(rs[1..], maxBody)
    else [Failure(rs[0], maxBody)]
  }

  /** The failure is a 413, and the same whatever bytes follow. */
  lemma FailsAlike(r: Request, maxBody: nat, rest: string)
    requires Good(r) && |BodyOf(r.framing)| > maxBody
    ensures Failure(r, maxBody).phase == Error && Failure(r, maxBody).errorCode == 413
    ensures Run(Parser(Blank(maxBody), Encode(r) + rest)).m == Failure(r, maxBody)
    ensures AlignedRun(Parser(Blank(maxBody), Encode(r) + rest))
  {
    var p := Parser(Blank(maxBody), Encode(r));
    hide Encode, Good, BodyOf, Run, AlignedRun;
    ExceedsLimit(r, maxBody, CRLF, "");
    ExceedsLimit(r, maxBody, CRLF, rest);
    assert Encode(r) + "" == Encode(r);
    assert Append(p, rest) == Parser(Blank(maxBody), Encode(r) + rest);
    RunAppend(p, rest);
    DoneStaysDone(Append(Run(p), rest));
  }

  /** What the first request of a stream comes to. */
  lemma FirstOutcome(r: Request, maxBody: nat, rest: string)
    requires Good(r)
    ensures var p := Parser(Blank(maxBody), Encode(r) + rest);
            if |BodyOf(r.framing)| <= maxBody then
              var q := Parser(Blank(maxBody), rest);
              AlignedStream(p) == AlignedStream(q) && Outcomes(p) == [Meaning(r, maxBody)] + Outcomes(q)
            else AlignedStream(p) && Outcomes(p) == [Failure(r, maxBody)]
  {
    var p := Parser(Blank(maxBody), Encode(r) + rest);
    OutcomesAfterRun(p);
    Unfold(p);
    hide *;
    if |BodyOf(r.framing)| <= maxBody {
      ReadsBack(r, maxBody, CRLF, rest) by { CrlfEnds(Encode(r) + rest); }
      MeaningIsComplete(r, maxBody);
      ResetMeaning(r, maxBody, rest);
    } else {
      FailsAlike(r, maxBody, rest);
    }
  }

  lemma CrlfEnds(s: string)
    ensures Ends(CRLF, s)
  {
  }

  lemma ResetMeaning(r: Request, maxBody: nat, rest: string)
    ensures Reset(Parser(Meaning(r, maxBody), rest)) == Parser(Blank(maxBody), rest)
  {
    MeaningIsComplete(r, maxBody);
    hide Meaning;
  }

  lemma NothingOutcome(maxBody: nat)
    ensures var p := Parser(Blank(maxBody), EncodeAll([])); AlignedStream(p) && Outcomes(p) == Expected([], maxBody)
  {
    var p := Parser(Blank(maxBody), "");
    EmptyBuffer(maxBody);
    OutcomesAfterRun(p);
    Unfold(p);
    hide Outcomes, Run, AlignedRun, AlignedStream, Served, Rest;
  }

  lemma ExpectedUnfold(rs: seq<Request>, maxBody: nat)
    requires rs != []
    ensures EncodeAll(rs) == Encode(rs[0]) + EncodeAll(rs[1..])
    ensures Expected(rs, maxBody) == if |BodyOf(rs[0].framing)| <= maxBody then [Meaning(rs[0], maxBody)] + Expected(rs[1..], maxBody)
                                     else [Failure(rs[0], maxBody)]
  {
    hide Encode, Meaning, Failure, BodyOf;
  }

  lemma {:induction false} ExpectedOutcomes(rs: seq<Request>, maxBody: nat)
    requires forall i :: 0 <= i < |rs| ==> Good(rs[i])
    ensures var p := Parser(Blank(maxBody), EncodeAll(rs));
            AlignedStream(p) && Outcomes(p) == Expected(rs, maxBody)
    decreases |rs|
  {
    hide *;
    if rs == [] {
      NothingOutcome(maxBody);
    } else {
      ExpectedUnfold(rs, maxBody);
      FirstOutcome(rs[0], maxBody, EncodeAll(rs[1..]));
      if |BodyOf(rs[0].framing)| <= maxBody { ExpectedOutcomes(rs[1..], maxBody); }
    }
  }

  /** Requests within the limit are all read. */
  lemma {:induction false} ExpectedWithin(rs: seq<Request>, maxBody: nat)
    requires forall i :: 0 <= i < |rs| ==> Fits(rs[i], maxBody)
    ensures Expected(rs, maxBody) == Meanings(rs, maxBody)
    decreases |rs|
  {
    hide Meaning, Good, BodyOf, Failure;
    if rs != [] { ExpectedWithin(rs[1..], maxBody); }
  }

  /** More bytes add to what a stream carries, and change nothing in it. */
  lemma OutcomesPrefix(p: Parser, x: string)
    requires AlignedStream(Append(p, x))
    ensures AlignedStream(p) && IsPrefix(Outcomes(p), Outcomes(Append(p, x)))
  {
    OutcomesGrow(p, x);
    if Rest(p).m.phase == Error {
      ServedAppend(p, x);
      FailedStays(Rest(p), x);
      hide Served, Rest, AlignedStream;
      assert Outcomes(p) == Outcomes(Append(p, x));
    } else {
      hide Outcomes, Rest, AlignedStream;
      PrefixOfSum(Outcomes(p), Outcomes(Append(Rest(p), x)));
    }
  }

  lemma FailedStays(p: Parser, x: string)
    requires p.m.phase == Error
    ensures Served(Append(p, x)) == [] && Rest(Append(p, x)) == Append(p, x)
  {
    DoneStaysDone(Append(p, x));
    Unfold(Append(p, x));
  }

  /** For a client that sends well-formed requests of any size, whatever part of them has
      arrived: the bytes sent are a prefix of the responses to the requests it sent, in
      order, up to the first one over the largest configured limit, which is refused. */
  lemma WellFormedInOrder(site: Site, default: nat, c: Conn, rs: seq<Request>, more: string)
    requires default < |site.servers| && AnswersInOrder(site, default, c)
    requires forall i :: 0 <= i < |rs| ==> Good(rs[i])
    requires c.past.received + more == EncodeAll(rs)
    ensures var h, ms := c.past, Expected(rs, site.ceiling);
            && IsPrefix(h.requests, ms) && |h.made| <= |ms| && |h.made| <= |h.asked|
            && IsPrefix(h.sent, Concat(Responses(site, default, ms, h.asked, h.made)))
  {
    RequestsSent(site, default, c, rs, more);
    var h, ms := c.past, Expected(rs, site.ceiling);
    hide EncodeAll, Expected, AlignedStream, Outcomes, Good, ResponseTo, Concat, Started;
    SameResponses(site, default, h.requests, ms, h.asked, h.made);
  }

  lemma SameResponses(site: Site, default: nat, ms: seq<Message>, ns: seq<Message>, asked: seq<Moment>, made: seq<Made>)
    requires default < |site.servers| && |made| <= |ms| && |made| <= |asked| && IsPrefix(ms, ns)
    ensures Responses(site, default, ms, asked, made) == Responses(site, default, ns, asked, made)
  {
    hide ResponseTo;
    assert forall i :: 0 <= i < |ms| ==> ms[i] == ns[i];
  }

  lemma RequestsSent(site: Site, default: nat, c: Conn, rs: seq<Request>, more: string)
    requires default < |site.servers| && AnswersInOrder(site, default, c)
    requires forall i :: 0 <= i < |rs| ==> Good(rs[i])
    requires c.past.received + more == EncodeAll(rs)
    ensures IsPrefix(c.past.requests, Expected(rs, site.ceiling))
  {
    var ceiling := site.ceiling;
    var p := Stream(ceiling, c);
    assert Append(p, more) == Parser(Blank(ceiling), EncodeAll(rs));
    hide *;
    ExpectedOutcomes(rs, ceiling);
    OutcomesPrefix(p, more);
    RequestsPrefix(site, default, c);
    PrefixTwice(c.past.requests, Outcomes(p), Expected(rs, ceiling));
  }

  lemma RequestsPrefix(site: Site, default: nat, c: Conn)
    requires default < |site.servers| && AnswersInOrder(site, default, c) && AlignedStream(Stream(site.ceiling, c))
    ensures IsPrefix(c.past.requests, Outcomes(Stream(site.ceiling, c)))
  {
    hide Outcomes, AlignedStream, Concat, Responses, Started;
  }

  lemma PrefixTwice<T>(a: seq<T>, b: seq<T>, c: seq<T>)
    requires IsPrefix(a, b) && IsPrefix(b, c)
    ensures IsPrefix(a, c)
  {
  }
}
