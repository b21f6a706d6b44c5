/** Whole conversations: a client that sends well-formed requests and takes its
    responses stays connected as long as its requests ask for that, gets the answer to
    every one of them, and is disconnected right behind the first that does not. */
module ServerConversations {
  import opened HttpParser
  import opened HttpSplit
  import opened HttpEncode
  import opened HttpPipeline
  import opened Routing
  import opened ServerModel
  import opened ServerTables
  import opened ServerLinks
  import opened ServerOrder
  import opened ServerAnswers
  import opened ServerProgress

  /** The client is connected, through the socket of the server block. */
  ghost predicate Connected(site: Site, s: State, fd: int, default: nat)
    requires site.servers != []
  {
    fd in s.clients && DefaultServer(site, s, s.clients[fd]) == default
  }

  lemma KeptConnected(site: Site, s: State, t: State, fd: int, default: nat)
    requires site.servers != [] && Connected(site, s, fd, default) && Kept(s, t, fd, true)
    ensures Connected(site, t, fd, default)
  {
  }

  /** One ordinary event for a client whose requests so far all ask to stay. */
  lemma OneMoreConnected(site: Site, s: State, e: Event, fd: int, default: nat, rs: seq<Request>, more: string)
    requires site.servers != [] && Linked(s) && FreshEvent(s, e) && Connected(site, s, fd, default)
    requires default < |site.servers| && Ordinary(s, e, fd) && ServedOf(site, default, s.clients[fd], rs, more)
    requires forall i :: 0 <= i < |rs| ==> StayAsked(rs[i])
    ensures Connected(site, Dispatch(site, s, e), fd, default)
  {
    ClosedExactly(site, s, e, fd);
    assert SendsRest(s, e, fd) ==> s.clients[fd].keepAlive by {
      hide StayAsked, IsAnswer, Concat;
    }
    hide *;
    KeptConnected(site, s, Dispatch(site, s, e), fd, default);
  }

  lemma NextConnected(site: Site, listenFds: map<int, nat>, es: seq<Event>, n: nat, s: State, fd: int, default: nat, rs: seq<Request>)
    requires site.servers != [] && FreshRun(site, Start(listenFds), es)
    requires IsCeiling(site.ceiling, site.servers) && default < |site.servers| && AllFit(site, default, rs)
    requires n < |es| && s == RunAll(site, Start(listenFds), es[..n]) && Connected(site, s, fd, default)
    requires fd in s.clients && IsPrefix(s.clients[fd].past.received, EncodeAll(rs))
    requires FreshEvent(s, es[n]) && Ordinary(s, es[n], fd)
    requires forall i :: 0 <= i < |rs| ==> StayAsked(rs[i])
    ensures Connected(site, RunAll(site, Start(listenFds), es[..n + 1]), fd, default)
  {
    hide *;
    RunOneMore(site, Start(listenFds), es, n);
    LinkedInEveryRun(site, listenFds, es, n);
    var more := ServedWhere(site, listenFds, es, n, fd, default, rs);
    OneMoreConnected(site, s, es[n], fd, default, rs, more);
  }

  /** A run in which the client behaves from moment k on, and its requests are well formed,
      within their limits, and all ask to stay. */
  ghost predicate Conversation(site: Site, listenFds: map<int, nat>, es: seq<Event>, k: nat, fd: int, default: nat, rs: seq<Request>)
    requires site.servers != []
  {
    && FreshRun(site, Start(listenFds), es) && IsCeiling(site.ceiling, site.servers)
    && default < |site.servers| && AllFit(site, default, rs)
    && k <= |es| && Behaves(site, Start(listenFds), es, k, fd, rs)
    && forall i :: 0 <= i < |rs| ==> StayAsked(rs[i])
  }

  lemma ConversationAt(site: Site, listenFds: map<int, nat>, es: seq<Event>, k: nat, n: nat, fd: int, default: nat, rs: seq<Request>)
    requires site.servers != [] && Conversation(site, listenFds, es, k, fd, default, rs) && k <= n < |es|
    requires Connected(site, RunAll(site, Start(listenFds), es[..n]), fd, default)
    ensures Connected(site, RunAll(site, Start(listenFds), es[..n + 1]), fd, default)
  {
    BehavesAt(site, listenFds, es, k, n, fd, default, rs);
    hide *;
    NextConnected(site, listenFds, es, n, RunAll(site, Start(listenFds), es[..n]), fd, default, rs);
  }

  lemma {:induction false} StaysConnected(site: Site, listenFds: map<int, nat>, es: seq<Event>, k: nat, n: nat, fd: int,
                                          default: nat, rs: seq<Request>)
    requires site.servers != [] && Conversation(site, listenFds, es, k, fd, default, rs) && k <= n <= |es|
    requires Connected(site, RunAll(site, Start(listenFds), es[..k]), fd, default)
    ensures Connected(site, RunAll(site, Start(listenFds), es[..n]), fd, default)
    decreases n
  {
    hide *;
    if n > k {
      StaysConnected(site, listenFds, es, k, n - 1, fd, default, rs);
      ConversationAt(site, listenFds, es, k, n - 1, fd, default, rs);
    }
  }

  /** What the hypotheses say of one moment. */
  lemma BehavesAt(site: Site, listenFds: map<int, nat>, es: seq<Event>, k: nat, n: nat, fd: int, default: nat, rs: seq<Request>)
    requires site.servers != [] && FreshRun(site, Start(listenFds), es)
    requires k <= n <= |es| && Behaves(site, Start(listenFds), es, k, fd, rs)
    requires Connected(site, RunAll(site, Start(listenFds), es[..n]), fd, default)
    ensures var s := RunAll(site, Start(listenFds), es[..n]);
            && fd in s.clients && IsPrefix(s.clients[fd].past.received, EncodeAll(rs))
            && (n < |es| ==> FreshEvent(s, es[n]) && Ordinary(s, es[n], fd))
  {
    hide RunAll, FreshEvent, Ordinary, EncodeAll, IsPrefix;
  }

  lemma ServedWhere(site: Site, listenFds: map<int, nat>, es: seq<Event>, n: nat, fd: int, default: nat, rs: seq<Request>)
    returns (more: string)
    requires site.servers != [] && n <= |es| && FreshRun(site, Start(listenFds), es)
    requires IsCeiling(site.ceiling, site.servers) && default < |site.servers| && AllFit(site, default, rs)
    requires var s := RunAll(site, Start(listenFds), es[..n]);
             Connected(site, s, fd, default) && fd in s.clients && IsPrefix(s.clients[fd].past.received, EncodeAll(rs))
    ensures var s := RunAll(site, Start(listenFds), es[..n]);
            && fd in s.clients && s.clients[fd].past.received + more == EncodeAll(rs)
            && ServedOf(site, default, s.clients[fd], rs, more)
  {
    var s := RunAll(site, Start(listenFds), es[..n]);
    assert DefaultServer(site, s, s.clients[fd]) == default;
    hide *;
    ServedAt(site, listenFds, es, n, fd, default, rs);
    more :| s.clients[fd].past.received + more == EncodeAll(rs) && ServedOf(site, default, s.clients[fd], rs, more);
  }

  // ----- the server returns -----

  lemma AlignedPart(ceiling: nat, rs: seq<Request>, s: string)
    requires (forall i :: 0 <= i < |rs| ==> Good(rs[i])) && IsPrefix(s, EncodeAll(rs))
    ensures AlignedStream(Parser(Blank(ceiling), s))
  {
    var more := PrefixRest(s, EncodeAll(rs));
    var p := Parser(Blank(ceiling), s);
    assert Append(p, more) == Parser(Blank(ceiling), EncodeAll(rs));
    hide *;
    ExpectedOutcomes(rs, ceiling);
    OutcomesPrefix(p, more);
  }

  /** Feed returns on more of an aligned stream, and on what is left behind a request. */
  lemma FeedsReturn(site: Site, c: Conn, data: string)
    requires ConnOk(site.ceiling, c)
    ensures c.state == Reading && AlignedStream(Parser(Blank(site.ceiling), c.past.received + data)) ==>
              !Spins(Feed(c.request, data, site.ceiling))
    ensures c.state == Sending && c.keepAlive && AlignedStream(Stream(site.ceiling, c)) ==>
              !Spins(Feed(Reset(c.request), "", site.ceiling))
  {
    var before := Stream(site.ceiling, c);
    var q := Parser(Blank(site.ceiling), c.past.received + data);
    assert q == Append(before, data);
    hide Outcomes, Rest, AlignedStream, Concat, Run, Spins;
    if c.state == Reading && AlignedStream(q) {
      OutcomesGrow(before, data);
      AlignedBehind(Append(Rest(before), data));
    }
    if c.state == Sending && c.keepAlive && AlignedStream(before) { AlignedNext(c.request, site.ceiling); }
  }

  lemma EventReturns(site: Site, s: State, e: Event, fd: int)
    requires fd in s.clients && ConnOk(site.ceiling, s.clients[fd]) && Ordinary(s, e, fd)
    requires e.Ready? && e.fd == fd && AlignedStream(Stream(site.ceiling, s.clients[fd]))
    requires s.clients[fd].state == Reading && e.input ==>
               AlignedStream(Parser(Blank(site.ceiling), s.clients[fd].past.received + e.io.data))
    ensures !Hangs(site, s, e)
  {
    FeedsReturn(site, s.clients[fd], e.io.data);
    hide ConnOk, AlignedStream, Feed, Spins;
  }

  lemma FeedConnReceives(site: Site, default: nat, c: Conn, data: string, o: Oracle)
    requires default < |site.servers|
    ensures FeedConn(site, default, c, data, o).past.received == c.past.received + data
  {
    hide Feed, Decide;
  }

  /** What a reading event delivers has been received behind it. */
  lemma ReadReceives(site: Site, s: State, e: Event, fd: int)
    requires site.servers != [] && Linked(s) && fd in s.clients && s.clients[fd].state == Reading
    requires e.Ready? && e.fd == fd && e.input && Ordinary(s, e, fd)
    ensures var t := Dispatch(site, s, e); fd in t.clients && t.clients[fd].past.received == s.clients[fd].past.received + e.io.data
  {
    assert Held(s, fd);
    var c := s.clients[fd];
    FeedConnReceives(site, DefaultServer(site, s, c), c, e.io.data, e.io.oracle);
    FeedConnPlace(site, DefaultServer(site, s, c), c, e.io.data, e.io.oracle);
    hide Linked, FeedConn;
  }

  lemma NeverHangs(site: Site, listenFds: map<int, nat>, es: seq<Event>, k: nat, n: nat, fd: int, default: nat, rs: seq<Request>)
    requires site.servers != [] && FreshRun(site, Start(listenFds), es)
    requires IsCeiling(site.ceiling, site.servers) && default < |site.servers| && AllFit(site, default, rs)
    requires k <= n < |es| && Behaves(site, Start(listenFds), es, k, fd, rs)
    requires Connected(site, RunAll(site, Start(listenFds), es[..n]), fd, default)
    requires es[n].Ready? && es[n].fd == fd
    ensures !Hangs(site, RunAll(site, Start(listenFds), es[..n]), es[n])
  {
    var s := RunAll(site, Start(listenFds), es[..n]);
    BehavesAt(site, listenFds, es, k, n, fd, default, rs);
    assert fd in RunAll(site, Start(listenFds), es[..n + 1]).clients ==>
             IsPrefix(RunAll(site, Start(listenFds), es[..n + 1]).clients[fd].past.received, EncodeAll(rs)) by {
      hide RunAll, FreshRun, EncodeAll, IsPrefix, Ordinary;
    }
    assert Connected(site, s, fd, default) ==> DefaultServer(site, s, s.clients[fd]) == default;
    hide *;
    AllHandled(site, default, rs);
    LinkedInEveryRun(site, listenFds, es, n);
    RunOneMore(site, Start(listenFds), es, n);
    ClientSound(site, listenFds, es, n, fd);
    AlignedPart(site.ceiling, rs, s.clients[fd].past.received);
    StreamIs(site.ceiling, s.clients[fd]);
    if s.clients[fd].state == Reading && es[n].input {
      ReadReceives(site, s, es[n], fd);
      AlignedPart(site.ceiling, rs, s.clients[fd].past.received + es[n].io.data);
    }
    EventReturns(site, s, es[n], fd);
  }

  lemma StreamIs(ceiling: nat, c: Conn)
    ensures Stream(ceiling, c) == Parser(Blank(ceiling), c.past.received)
  {
  }

  // ----- every request is answered -----

  /** In any run with fresh descriptors, whatever other clients do: a client that from
      some moment on sends nothing but well-formed requests, within their limits, that
      ask to keep the connection, and that takes its responses, is never disconnected,
      and the server always returns to its loop. What it has been sent are answers to its requests, one each and in order, and once
      all is received and it is waited for again, every request has been answered and
      every answer sent. */
  lemma AllAnswered(site: Site, listenFds: map<int, nat>, es: seq<Event>, k: nat, fd: int, default: nat, rs: seq<Request>)
    requires site.servers != [] && k <= |es| && Conversation(site, listenFds, es, k, fd, default, rs)
    requires Connected(site, RunAll(site, Start(listenFds), es[..k]), fd, default)
    ensures forall n :: k <= n < |es| && es[n].Ready? && es[n].fd == fd ==> !Hangs(site, RunAll(site, Start(listenFds), es[..n]), es[n])
    ensures var s := RunAll(site, Start(listenFds), es);
            && Connected(site, s, fd, default)
            && var c, h := s.clients[fd], s.clients[fd].past;
               && |h.responses| <= |rs| && |h.responses| <= |h.asked|
               && (forall i :: 0 <= i < |h.responses| ==> IsAnswer(site, default, rs[i], h.asked[i], h.responses[i]))
               && h.sent + c.sendBuffer == Concat(h.responses)
               && (c.state == Reading && h.received == EncodeAll(rs) ==>
                     |h.responses| == |rs| && h.sent == Concat(h.responses))
  {
    assert es[..|es|] == es;
    var s := RunAll(site, Start(listenFds), es);
    hide Connected;
    forall n | k <= n < |es| && es[n].Ready? && es[n].fd == fd
      ensures !Hangs(site, RunAll(site, Start(listenFds), es[..n]), es[n])
    {
      hide *;
      StaysConnected(site, listenFds, es, k, n, fd, default, rs);
      NeverHangs(site, listenFds, es, k, n, fd, default, rs);
    }
    StaysConnected(site, listenFds, es, k, |es|, fd, default, rs);
    BehavesAt(site, listenFds, es, k, |es|, fd, default, rs);
    var more := ServedWhere(site, listenFds, es, |es|, fd, default, rs);
    hide RunAll, FreshRun, Behaves, IsAnswer, StayAsked, Concat, EncodeAll, IsCeiling, AllFit, DefaultServer;
    assert s.clients[fd].past.sent + "" == s.clients[fd].past.sent;
    assert s.clients[fd].past.received == EncodeAll(rs) ==> more == "";
  }

  /** A connection ends exactly in these cases: it times out, the client sends its end or
      is ready for output while it is waited for, a send fails, the socket has an event
      while a program runs, or the rest of a response is sent and the flag is down. */
  lemma DisconnectedExactly(site: Site, s: State, e: Event, fd: int)
    requires site.servers != [] && Linked(s) && AllOk(site.ceiling, s) && FreshEvent(s, e) && fd in s.clients
    ensures fd in Dispatch(site, s, e).clients
            <==> Ordinary(s, e, fd) && !(SendsRest(s, e, fd) && !s.clients[fd].keepAlive)
  {
    if Ordinary(s, e, fd) {
      ClosedExactly(site, s, e, fd);
    } else {
      assert ConnOk(site.ceiling, s.clients[fd]) && Held(s, fd);
      assert s.clients[fd].state == Reading || s.clients[fd].state == CgiReading ==> s.clients[fd].sendBuffer == "" by {
        hide InOrder, AlignedStream, Linked;
      }
      hide AllOk, ConnOk;
      if e.Timeouts? { ListedClosed(s, e.fds, fd); }
    }
  }

  lemma {:induction false} ListedClosed(s: State, fds: seq<int>, fd: int)
    requires fd in fds || fd !in s.clients
    ensures fd !in CloseAll(s, fds).clients
    decreases |fds|
  {
    if fds != [] { ListedClosed(Close(s, fds[0]), fds[1..], fd); }
  }

  /** A connection accepted stands at its socket, with nothing read, sent or remembered; a
      failed accept changes nothing. */
  lemma AcceptedExactly(site: Site, s: State, e: Event)
    requires site.servers != [] && e.Ready? && e.fd in s.listenFds
    ensures var t, fd := Dispatch(site, s, e), e.io.newFd;
            if fd < 0 then t == s
            else
              && t == s.(clients := t.clients) && t.clients.Keys == s.clients.Keys + {fd}
              && (forall k :: k in s.clients && k != fd ==> t.clients[k] == s.clients[k])
              && var c := t.clients[fd];
                 && c.fd == fd && c.listenFd == e.fd && c.state == Reading && !c.keepAlive && c.sendBuffer == ""
                 && c.request.buffer == "" && c.request.m.phase == RequestLine && c.pipeIn == -1 && c.pipeOut == -1
                 && c.cgiBody == "" && c.cgiOutput == "" && c.past.received == "" && c.past.requests == [] && c.past.sent == ""
  {
  }

  /** A check for timeouts closes the expired clients and leaves every other as it is. */
  lemma {:induction false} ExpiredClosed(s: State, fds: seq<int>)
    ensures CloseAll(s, fds).clients == map fd | fd in s.clients && fd !in fds :: s.clients[fd]
    decreases |fds|
  {
    if fds != [] {
      assert forall fd :: fd in fds <==> fd == fds[0] || fd in fds[1..];
      ExpiredClosed(Close(s, fds[0]), fds[1..]);
    }
  }

  /** What the closing of a connection behind a response leaves of it. */
  lemma LastSent(site: Site, s: State, e: Event, fd: int)
    requires site.servers != [] && Linked(s) && fd in s.clients && SendsRest(s, e, fd) && !s.clients[fd].keepAlive
    requires Ordinary(s, e, fd)
    ensures var c, t := s.clients[fd], Dispatch(site, s, e);
            |t.closed| == |s.closed| + 1 && t.closed[|s.closed|].past == c.past.(sent := c.past.sent + c.sendBuffer)
  {
    assert Held(s, fd);
    var c := s.clients[fd];
    if c.sendBuffer == "" { assert c.past.sent + c.sendBuffer == c.past.sent; }
  }

  /** In any run with fresh descriptors: an ordinary event that ends the connection of a
      client that sends well-formed requests within their limits does so right behind
      the complete response to the first request that does not ask to keep it. Every
      request before has been answered, none behind is, and nothing is lost. */
  lemma ClosedBehind(site: Site, listenFds: map<int, nat>, es: seq<Event>, n: nat, fd: int, default: nat, rs: seq<Request>)
    requires site.servers != [] && FreshRun(site, Start(listenFds), es) && n < |es|
    requires IsCeiling(site.ceiling, site.servers) && default < |site.servers| && AllFit(site, default, rs)
    requires var s := RunAll(site, Start(listenFds), es[..n]);
             && Connected(site, s, fd, default) && IsPrefix(s.clients[fd].past.received, EncodeAll(rs))
             && Ordinary(s, es[n], fd)
    requires fd !in RunAll(site, Start(listenFds), es[..n + 1]).clients
    ensures var before, closed := RunAll(site, Start(listenFds), es[..n]).closed, RunAll(site, Start(listenFds), es[..n + 1]).closed;
            && |closed| == |before| + 1
            && var h := closed[|before|].past;
               var j := |h.requests|;
               && 0 < j <= |rs| && |h.responses| == j == |h.asked|
               && !StayAsked(rs[j - 1]) && (forall i :: 0 <= i < j - 1 ==> StayAsked(rs[i]))
               && (forall i :: 0 <= i < j ==> IsAnswer(site, default, rs[i], h.asked[i], h.responses[i]))
               && h.sent == Concat(h.responses)
  {
    var s := RunAll(site, Start(listenFds), es[..n]);
    assert FreshEvent(s, es[n]) by { hide RunAll, FreshEvent; }
    LinkedInEveryRun(site, listenFds, es, n);
    RunOneMore(site, Start(listenFds), es, n);
    hide RunAll, FreshRun, Linked, FreshEvent, Dispatch, IsCeiling, AllFit, IsAnswer, StayAsked, Concat, EncodeAll, IsPrefix;
    var more := ServedWhere(site, listenFds, es, n, fd, default, rs);
    ClosedExactly(site, s, es[n], fd);
    LastSent(site, s, es[n], fd);
  }

  // ----- progress -----

  lemma LineConsumes(p: Parser)
    requires p.m.phase == RequestLine && Done(Run(p).m)
    ensures |Run(p).buffer| < |p.buffer|
  {
    hide StepLine;
  }

  lemma NextConsumes(site: Site, default: nat, c: Conn, o: Oracle)
    requires default < |site.servers|
    ensures var d := FeedConn(site, default, Renewed(c), "", o);
            d.state == Reading || d.state == CgiReading || (d.state == Sending && |d.request.buffer| < |c.request.buffer|)
  {
    var p := Append(WithLimit(Reset(c.request), site.ceiling), "");
    assert c.request.buffer + "" == c.request.buffer;
    assert Feed(Reset(c.request), "", site.ceiling) == Run(p);
    if Done(Run(p).m) { LineConsumes(p); }
    hide Run, Decide;
  }

  /** Sending comes to an end: every ordinary send shortens what is left of the response,
      or, that being all sent, ends the connection, waits for the client or a program, or
      goes on with a request that was still unread. */
  lemma SendingShrinks(site: Site, s: State, e: Event, fd: int)
    requires site.servers != [] && Linked(s) && fd in s.clients && s.clients[fd].state == Sending
    requires e.Ready? && e.fd == fd && (e.input || e.output) && Ordinary(s, e, fd)
    ensures var c, t := s.clients[fd], Dispatch(site, s, e);
            fd in t.clients && t.clients[fd].state == Sending ==>
              || |t.clients[fd].request.buffer| < |c.request.buffer|
              || (t.clients[fd].request == c.request && |t.clients[fd].sendBuffer| < |c.sendBuffer|)
  {
    assert Held(s, fd);
    var c := s.clients[fd];
    var d := if c.sendBuffer != "" then SendSome(c, e.io.count) else c;
    assert Dispatch(site, s, e) == if d.sendBuffer != "" then Put(s, d) else AllSent(site, Put(s, d), d, e.io.oracle);
    hide Linked, Dispatch, FeedConn;
    if d.sendBuffer == "" {
      NextConsumes(site, DefaultServer(site, Put(s, d), d), d, e.io.oracle);
      FeedConnPlace(site, DefaultServer(site, Put(s, d), d), Renewed(d), "", e.io.oracle);
    }
  }

  // ----- everything can be sent -----

  /** The socket takes n bytes, or more, of what is to be sent. */
  function Sends(fd: int, n: int, o: Oracle): Event { Ready(fd, false, true, Io(-1, "", n, o)) }

  lemma UnusedExists(keys: set<int>, least: nat) returns (n: nat)
    ensures n >= least && n !in keys
    decreases |keys|
  {
    n := least;
    if n in keys {
      var others := keys - {n};
      assert |others| < |keys|;
      n := UnusedExists(others, least + 1);
    }
  }

  lemma PipesExist(s: State) returns (o: Oracle)
    ensures FreshPipes(s, o)
  {
    var keys := s.listenFds.Keys + s.clients.Keys + s.cgiReadFds.Keys + s.cgiWriteFds.Keys;
    var a := UnusedExists(keys, 0);
    var b := UnusedExists(keys, a + 1);
    o := Oracle(a, b, 0);
  }

  lemma SendsOrdinary(s: State, fd: int, o: Oracle)
    requires fd in s.clients && s.clients[fd].state == Sending && FreshPipes(s, o)
    ensures var e := Sends(fd, |s.clients[fd].sendBuffer|, o);
            FreshEvent(s, e) && Ordinary(s, e, fd) && e.Ready? && e.fd == fd && e.output
  {
  }

  lemma SentReceives(site: Site, s: State, e: Event, fd: int)
    requires site.servers != [] && Linked(s) && fd in s.clients && s.clients[fd].state == Sending
    requires e.Ready? && e.fd == fd && e.output && Ordinary(s, e, fd)
    ensures var t := Dispatch(site, s, e); fd in t.clients ==> t.clients[fd].past.received == s.clients[fd].past.received
  {
    assert Held(s, fd);
    var c := s.clients[fd];
    var d := if c.sendBuffer != "" then SendSome(c, e.io.count) else c;
    assert Dispatch(site, s, e) == if d.sendBuffer != "" then Put(s, d) else AllSent(site, Put(s, d), d, e.io.oracle);
    hide Linked, Dispatch, FeedConn;
    if d.sendBuffer == "" {
      var default := DefaultServer(site, Put(s, d), d);
      FeedConnReceives(site, default, Renewed(d), "", e.io.oracle);
      FeedConnPlace(site, default, Renewed(d), "", e.io.oracle);
      assert c.past.received + "" == c.past.received;
    }
  }

  lemma FreshOneMore(site: Site, s: State, es: seq<Event>, e: Event)
    requires site.servers != [] && FreshRun(site, s, es) && FreshEvent(RunAll(site, s, es), e)
    ensures FreshRun(site, s, es + [e])
  {
    var all := es + [e];
    assert all[..|es|] == es;
    hide FreshEvent, RunAll;
    forall n | 0 <= n < |all| ensures FreshEvent(RunAll(site, s, all[..n]), all[n]) {
      assert n < |es| ==> all[..n] == es[..n];
    }
  }

  lemma SamePrefixes(es: seq<Event>, e: Event)
    ensures (es + [e])[..|es|] == es && (es + [e])[|es|] == e && (es + [e])[..|es| + 1] == es + [e] && es[..|es|] == es
    ensures forall n :: 0 <= n <= |es| ==> (es + [e])[..n] == es[..n]
    ensures forall n :: 0 <= n < |es| ==> (es + [e])[n] == es[n]
  {
  }

  ghost predicate ReceivedAt(s: State, fd: int, rs: seq<Request>) {
    fd in s.clients ==> IsPrefix(s.clients[fd].past.received, EncodeAll(rs))
  }

  ghost predicate OrdinaryAt(s: State, e: Event, fd: int) { fd in s.clients ==> Ordinary(s, e, fd) }

  lemma BehavesIs(site: Site, s: State, es: seq<Event>, k: nat, fd: int, rs: seq<Request>)
    requires site.servers != [] && k <= |es|
    ensures Behaves(site, s, es, k, fd, rs)
            <==> && (forall n :: k <= n <= |es| ==> ReceivedAt(RunAll(site, s, es[..n]), fd, rs))
                 && (forall n :: k <= n < |es| ==> OrdinaryAt(RunAll(site, s, es[..n]), es[n], fd))
  {
    hide RunAll, Ordinary, IsPrefix, EncodeAll;
  }

  lemma BehavesOneMore(site: Site, s: State, es: seq<Event>, k: nat, fd: int, rs: seq<Request>, e: Event)
    requires site.servers != [] && k <= |es| && Behaves(site, s, es, k, fd, rs)
    requires OrdinaryAt(RunAll(site, s, es), e, fd) && ReceivedAt(RunAll(site, s, es + [e]), fd, rs)
    ensures Behaves(site, s, es + [e], k, fd, rs)
  {
    hide *;
    BehavesIs(site, s, es, k, fd, rs);
    BehavesIs(site, s, es + [e], k, fd, rs);
    SamePrefixes(es, e);
  }

  /** One more send keeps the conversation going. */
  lemma SendGoesOn(site: Site, listenFds: map<int, nat>, es: seq<Event>, k: nat, fd: int, default: nat, rs: seq<Request>)
    returns (e: Event)
    requires site.servers != [] && k <= |es| && Conversation(site, listenFds, es, k, fd, default, rs)
    requires Connected(site, RunAll(site, Start(listenFds), es[..k]), fd, default)
    requires var s := RunAll(site, Start(listenFds), es); fd in s.clients && s.clients[fd].state == Sending
    ensures Conversation(site, listenFds, es + [e], k, fd, default, rs)
    ensures var s, t := RunAll(site, Start(listenFds), es), RunAll(site, Start(listenFds), es + [e]);
            && fd in t.clients && t.clients[fd].past.received == s.clients[fd].past.received
            && (t.clients[fd].state == Sending ==>
                  || |t.clients[fd].request.buffer| < |s.clients[fd].request.buffer|
                  || (t.clients[fd].request == s.clients[fd].request && |t.clients[fd].sendBuffer| < |s.clients[fd].sendBuffer|))
  {
    var s := RunAll(site, Start(listenFds), es);
    assert es[..|es|] == es && (forall x: Event :: (es + [x])[..|es|] == es && (es + [x])[..|es + [x]|] == es + [x]);
    assert forall x: Event :: (es + [x])[..k] == es[..k];
    var o := PipesExist(s);
    e := Sends(fd, |s.clients[fd].sendBuffer|, o);
    SendsOrdinary(s, fd, o);
    StaysConnected(site, listenFds, es, k, |es|, fd, default, rs);
    SendKeeps(site, listenFds, es, k, fd, default, rs, e);
  }

  lemma SendKeeps(site: Site, listenFds: map<int, nat>, es: seq<Event>, k: nat, fd: int, default: nat, rs: seq<Request>, e: Event)
    requires site.servers != [] && k <= |es| && Conversation(site, listenFds, es, k, fd, default, rs)
    requires Connected(site, RunAll(site, Start(listenFds), es), fd, default)
    requires var s := RunAll(site, Start(listenFds), es);
             && fd in s.clients && s.clients[fd].state == Sending && FreshEvent(s, e) && Ordinary(s, e, fd)
             && e.Ready? && e.fd == fd && e.output
    ensures Conversation(site, listenFds, es + [e], k, fd, default, rs)
    ensures var s, t := RunAll(site, Start(listenFds), es), RunAll(site, Start(listenFds), es + [e]);
            && fd in t.clients && t.clients[fd].past.received == s.clients[fd].past.received
            && (t.clients[fd].state == Sending ==>
                  || |t.clients[fd].request.buffer| < |s.clients[fd].request.buffer|
                  || (t.clients[fd].request == s.clients[fd].request && |t.clients[fd].sendBuffer| < |s.clients[fd].sendBuffer|))
  {
    var s, all := RunAll(site, Start(listenFds), es), es + [e];
    assert es[..|es|] == es && all[..|es|] == es && all[..|es| + 1] == all;
    BehavesAt(site, listenFds, es, k, |es|, fd, default, rs);
    hide RunAll, FreshEvent, Ordinary, Behaves, IsCeiling, AllFit, StayAsked, Linked, Dispatch, IsPrefix, EncodeAll, Connected, FreshRun;
    LinkedInEveryRun(site, listenFds, es, |es|);
    RunOneMore(site, Start(listenFds), all, |es|);
    FreshOneMore(site, Start(listenFds), es, e);
    NextConnected(site, listenFds, all, |es|, s, fd, default, rs);
    SentReceives(site, s, e, fd);
    ConnectedIs(site, RunAll(site, Start(listenFds), all), fd, default);
    assert OrdinaryAt(s, e, fd) && ReceivedAt(RunAll(site, Start(listenFds), all), fd, rs);
    BehavesOneMore(site, Start(listenFds), es, k, fd, rs, e);
    SendingShrinks(site, s, e, fd);
  }

  lemma ConnectedIs(site: Site, s: State, fd: int, default: nat)
    requires site.servers != [] && Connected(site, s, fd, default)
    ensures fd in s.clients
  {
  }

  /** From every moment of a conversation, some more sends bring it to a point where
      nothing is left to send. */
  lemma {:induction false} SendsOut(site: Site, listenFds: map<int, nat>, es: seq<Event>, k: nat, fd: int, default: nat,
                                    rs: seq<Request>, unread: nat, unsent: nat) returns (more: seq<Event>)
    requires site.servers != [] && k <= |es| && Conversation(site, listenFds, es, k, fd, default, rs)
    requires Connected(site, RunAll(site, Start(listenFds), es[..k]), fd, default)
    requires var s := RunAll(site, Start(listenFds), es);
             fd in s.clients && |s.clients[fd].request.buffer| == unread && |s.clients[fd].sendBuffer| == unsent
    ensures k <= |es + more| && Conversation(site, listenFds, es + more, k, fd, default, rs) && (es + more)[..k] == es[..k]
    ensures var s, t := RunAll(site, Start(listenFds), es), RunAll(site, Start(listenFds), es + more);
            fd in t.clients && t.clients[fd].state != Sending && t.clients[fd].past.received == s.clients[fd].past.received
    decreases unread, unsent
  {
    hide *;
    if RunAll(site, Start(listenFds), es).clients[fd].state != Sending {
      more := [];
      NoMore(es);
    } else {
      var e := SendGoesOn(site, listenFds, es, k, fd, default, rs);
      var c := RunAll(site, Start(listenFds), es + [e]).clients[fd];
      OneThenMore(es, e, [], k);
      if c.state != Sending {
        more := [e];
      } else {
        var rest := SendsOut(site, listenFds, es + [e], k, fd, default, rs, |c.request.buffer|, |c.sendBuffer|);
        more := [e] + rest;
        OneThenMore(es, e, rest, k);
      }
    }
  }

  lemma NoMore(es: seq<Event>)
    ensures es + [] == es
  {
  }

  lemma OneThenMore(es: seq<Event>, e: Event, rest: seq<Event>, k: nat)
    requires k <= |es|
    ensures es + ([e] + rest) == (es + [e]) + rest && (es + [e])[..k] == es[..k] && (es + ([e] + rest))[..k] == es[..k]
    ensures [e] + [] == [e]
  {
  }

  /** A client that waits for a program has sent a request that routing sends to one. */
  lemma WaitsForProgram(site: Site, default: nat, c: Conn, rs: seq<Request>, more: string)
    requires IsCeiling(site.ceiling, site.servers) && default < |site.servers|
    requires ConnOk(site.ceiling, c) && Tied(site, default, c) && c.state == CgiReading
    requires AllFit(site, default, rs) && c.past.received + more == EncodeAll(rs)
    ensures exists i, moment :: 0 <= i < |rs| && site.route(default, Meaning(rs[i], site.ceiling), moment) == StartCgi
  {
    assert Started(site, default, c.past);
    hide ConnOk, Tied, AllFit, IsCeiling, EncodeAll, Meaning, Decide;
    RequestsAre(site, default, c, rs, more);
    var i := |c.past.requests| - 1;
    assert site.route(default, Meaning(rs[i], site.ceiling), Last(c.past.asked)) == StartCgi;
  }

  /** Once a client has sent all its requests, and routing answers all of them at once,
      some more sends end the conversation: it is still connected and waited for, and
      what it has been sent is the answers to all its requests, in order. */
  lemma EverythingSent(site: Site, listenFds: map<int, nat>, es: seq<Event>, k: nat, fd: int, default: nat, rs: seq<Request>)
    returns (more: seq<Event>)
    requires site.servers != [] && k <= |es| && Conversation(site, listenFds, es, k, fd, default, rs)
    requires Connected(site, RunAll(site, Start(listenFds), es[..k]), fd, default)
    requires var s := RunAll(site, Start(listenFds), es); fd in s.clients && s.clients[fd].past.received == EncodeAll(rs)
    requires forall i, moment :: 0 <= i < |rs| ==> site.route(default, Meaning(rs[i], site.ceiling), moment).Immediate?
    ensures FreshRun(site, Start(listenFds), es + more)
    ensures var s := RunAll(site, Start(listenFds), es + more);
            && fd in s.clients && s.clients[fd].state == Reading
            && var h := s.clients[fd].past;
               && |h.responses| == |rs| <= |h.asked| && h.sent == Concat(h.responses)
               && forall i :: 0 <= i < |rs| ==>
                    h.responses[i] == site.route(default, Meaning(rs[i], site.ceiling), h.asked[i]).response
  {
    var c := RunAll(site, Start(listenFds), es).clients[fd];
    more := SendsOut(site, listenFds, es, k, fd, default, rs, |c.request.buffer|, |c.sendBuffer|);
    var all := es + more;
    var s := RunAll(site, Start(listenFds), all);
    assert all[..|all|] == all && s.clients[fd].past.received + "" == EncodeAll(rs);
    assert Conversation(site, listenFds, all, k, fd, default, rs);
    AllAnswered(site, listenFds, all, k, fd, default, rs);
    ClientSound(site, listenFds, all, |all|, fd);
    hide RunAll, Behaves, IsCeiling, AllFit, StayAsked, FreshRun, ConnOk, Tied, Flagged, EncodeAll, Concat, Meaning, Hangs;
    assert DefaultServer(site, s, s.clients[fd]) == default by { hide DefaultServer; }
    hide *;
    if s.clients[fd].state == CgiReading {
      WaitsForProgram(site, default, s.clients[fd], rs, "");
    }
    NotWriting(site.ceiling, s.clients[fd]);
    AnsweredAtOnce(site, default, rs, s.clients[fd].past.asked, s.clients[fd].past.responses);
  }

  lemma AnsweredAtOnce(site: Site, default: nat, rs: seq<Request>, asked: seq<Moment>, responses: seq<string>)
    requires |responses| <= |rs| && |responses| <= |asked|
    requires forall i :: 0 <= i < |responses| ==> IsAnswer(site, default, rs[i], asked[i], responses[i])
    requires forall i, moment :: 0 <= i < |rs| ==> site.route(default, Meaning(rs[i], site.ceiling), moment).Immediate?
    ensures forall i :: 0 <= i < |responses| ==>
              responses[i] == site.route(default, Meaning(rs[i], site.ceiling), asked[i]).response
  {
    hide Meaning;
    forall i | 0 <= i < |responses|
      ensures responses[i] == site.route(default, Meaning(rs[i], site.ceiling), asked[i]).response
    {
      assert IsAnswer(site, default, rs[i], asked[i], responses[i]);
      assert site.route(default, Meaning(rs[i], site.ceiling), asked[i]).Immediate?;
    }
  }

  lemma NotWriting(ceiling: nat, c: Conn)
    requires ConnOk(ceiling, c)
    ensures c.state != CgiWriting
  {
    hide Concat, InOrder, AlignedStream;
  }
}
