/** Which connections are kept and which are closed: a client that sends well-formed
    requests and takes its responses is served all of them, and its connection is
    closed exactly behind the first response to a request that asks for it. */
module ServerProgress {
  import opened HttpParser
  import opened HttpSplit
  import opened HttpEncode
  import opened HttpPipeline
  import opened HttpReadings
  import opened Routing
  import opened ServerModel
  import opened ServerTables
  import opened ServerLinks
  import opened ServerLimits
  import opened ServerOrder
  import opened ServerAnswers

  // ----- the keep-alive flag -----

  /** The connection is to be kept behind the response to the message. */
  ghost predicate Stays(site: Site, default: nat, m: Message)
    requires default < |site.servers|
  {
    m.phase == Complete && Decide(site, default, m) == Handle && m.keepAlive
  }

  /** Every request answered, and gone on from, asked to stay, and the flag says whether
      the one being answered does. */
  ghost predicate Flagged(site: Site, default: nat, c: Conn)
    requires default < |site.servers|
  {
    && (forall i :: 0 <= i < |c.past.requests| - (if c.state == Reading then 0 else 1) ==>
          Stays(site, default, c.past.requests[i]))
    && (c.state != Reading ==> (c.keepAlive <==> Stays(site, default, c.request.m)))
  }

  lemma NewConnFlagged(site: Site, default: nat, fd: int, listenFd: int)
    requires default < |site.servers|
    ensures Flagged(site, default, NewConn(fd, listenFd))
  {
  }

  lemma SameFlagged(site: Site, default: nat, c: Conn, d: Conn)
    requires default < |site.servers| && Flagged(site, default, c)
    requires d.past.requests == c.past.requests && d.request == c.request && d.keepAlive == c.keepAlive
    requires c.state == Reading <==> d.state == Reading
    ensures Flagged(site, default, d)
  {
    hide Stays;
  }

  /** A request read is answered or handed on, and the flag set. */
  lemma ProcessFlag(site: Site, default: nat, c: Conn, o: Oracle)
    requires default < |site.servers| && Done(c.request.m)
    ensures var d := Process(site, default, c, o);
            && d.past.requests == c.past.requests && d.request == c.request && d.state != Reading
            && (d.keepAlive <==> Stays(site, default, c.request.m))
  {
    hide LimitIn, ServerFor;
  }

  lemma FeedConnFlagged(site: Site, default: nat, c: Conn, data: string, o: Oracle)
    requires default < |site.servers| && c.state == Reading && Flagged(site, default, c)
    ensures Flagged(site, default, FeedConn(site, default, c, data, o))
  {
    var p := Feed(c.request, data, site.ceiling);
    var d := c.(request := p, past := c.past.(received := c.past.received + data));
    hide Feed, Process, Stays;
    if Done(p.m) { ProcessFlag(site, default, Asked(d, o.moment), o); }
  }

  lemma RenewedFlagged(site: Site, default: nat, c: Conn)
    requires default < |site.servers| && c.state == Sending && c.keepAlive && Flagged(site, default, c)
    requires c.past.requests != [] && Last(c.past.requests) == c.request.m
    ensures Flagged(site, default, Renewed(c))
  {
    hide Stays;
  }

  // ----- states -----

  ghost predicate AllFlagged(site: Site, s: State)
    requires site.servers != []
  {
    forall fd :: fd in s.clients ==> Flagged(site, DefaultServer(site, s, s.clients[fd]), s.clients[fd])
  }

  lemma PutFlagged(site: Site, s: State, c: Conn)
    requires site.servers != [] && AllFlagged(site, s) && Flagged(site, DefaultServer(site, s, c), c)
    ensures AllFlagged(site, Put(s, c)) && AllFlagged(site, Register(s, c))
  {
    SameDefault(site, s, Put(s, c));
    SameDefault(site, s, Register(s, c));
    hide Flagged, DefaultServer;
  }

  lemma CloseFlagged(site: Site, s: State, fd: int)
    requires site.servers != [] && AllFlagged(site, s)
    ensures AllFlagged(site, Close(s, fd))
  {
    SameDefault(site, s, Close(s, fd));
    hide Flagged, DefaultServer;
  }

  lemma {:induction false} CloseAllFlagged(site: Site, s: State, fds: seq<int>)
    requires site.servers != [] && AllFlagged(site, s)
    ensures AllFlagged(site, CloseAll(s, fds))
    decreases |fds|
  {
    if fds != [] {
      CloseFlagged(site, s, fds[0]);
      hide AllFlagged;
      CloseAllFlagged(site, Close(s, fds[0]), fds[1..]);
    }
  }

  /** What a connection that is sending is busy with. */
  lemma BusySending(ceiling: nat, c: Conn)
    requires ConnOk(ceiling, c) && c.state == Sending
    ensures c.past.requests != [] && Last(c.past.requests) == c.request.m && Done(c.request.m)
    ensures |c.past.responses| == |c.past.requests|
  {
    hide Concat, InOrder, AlignedStream;
  }

  lemma WriteFlagged(site: Site, s: State, fd: int, n: int, o: Oracle)
    requires site.servers != [] && AllFlagged(site, s) && AllOk(site.ceiling, s)
    requires fd in s.clients && s.clients[fd].fd == fd
    ensures AllFlagged(site, Write(site, s, fd, n, o))
  {
    var c := s.clients[fd];
    assert Flagged(site, DefaultServer(site, s, c), c);
    if c.state == Sending {
      assert ConnOk(site.ceiling, c);
      BusySending(site.ceiling, c);
    }
    hide AllFlagged, AllOk, ConnOk, FeedConn, Flagged, AllSent;
    if c.sendBuffer != "" && n <= 0 {
      CloseFlagged(site, s, fd);
    } else {
      var d := if c.sendBuffer != "" then SendSome(c, n) else c;
      SameFlagged(site, DefaultServer(site, s, c), c, d);
      PutFlagged(site, s, d);
      if d.sendBuffer == "" { AllSentFlagged(site, Put(s, d), d, o); }
    }
  }

  lemma AllSentFlagged(site: Site, s: State, c: Conn, o: Oracle)
    requires site.servers != [] && AllFlagged(site, s) && Flagged(site, DefaultServer(site, s, c), c)
    requires c.state == Sending ==> c.past.requests != [] && Last(c.past.requests) == c.request.m
    ensures AllFlagged(site, AllSent(site, s, c, o))
  {
    var default := DefaultServer(site, s, c);
    hide AllFlagged, FeedConn, Flagged;
    if c.keepAlive && c.state == Sending {
      RenewedFlagged(site, default, c);
      FeedConnFlagged(site, default, Renewed(c), "", o);
      FeedConnListens(site, default, Renewed(c), "", o);
      PutFlagged(site, s, FeedConn(site, default, Renewed(c), "", o));
    } else {
      CloseFlagged(site, s, c.fd);
    }
  }

  lemma ReadFlagged(site: Site, s: State, fd: int, data: string, o: Oracle)
    requires site.servers != [] && AllFlagged(site, s) && fd in s.clients && s.clients[fd].state == Reading
    ensures AllFlagged(site, Read(site, s, fd, data, o))
  {
    if data == "" {
      CloseFlagged(site, s, fd);
    } else {
      var c := s.clients[fd];
      var default := DefaultServer(site, s, c);
      assert Flagged(site, default, c);
      hide AllFlagged, FeedConn, Flagged;
      FeedConnFlagged(site, default, c, data, o);
      FeedConnListens(site, default, c, data, o);
      PutFlagged(site, s, FeedConn(site, default, c, data, o));
    }
  }

  lemma WriteCgiFlagged(site: Site, s: State, fd: int, n: int)
    requires site.servers != [] && AllFlagged(site, s) && fd in s.cgiWriteFds
    ensures AllFlagged(site, WriteCgi(s, fd, n))
  {
    if s.cgiWriteFds[fd] in s.clients {
      var k := s.cgiWriteFds[fd];
      var c := s.clients[k];
      assert Flagged(site, DefaultServer(site, s, s.clients[k]), s.clients[k]);
      var d := if c.cgiBody == "" || n <= 0 then c else PipeSome(c, n);
      SameFlagged(site, DefaultServer(site, s, c), c, d);
      SameFlagged(site, DefaultServer(site, s, c), c, d.(pipeIn := -1));
      SameDefault(site, Put(s, d.(pipeIn := -1)), Unplug(s, fd, d));
      hide AllFlagged, Flagged;
      PutFlagged(site, s, d);
      PutFlagged(site, s, d.(pipeIn := -1));
      UnplugFlagged(site, s, fd, d);
    }
  }

  lemma UnplugFlagged(site: Site, s: State, fd: int, c: Conn)
    requires site.servers != [] && AllFlagged(site, Put(s, c.(pipeIn := -1)))
    ensures AllFlagged(site, Unplug(s, fd, c))
  {
    SameDefault(site, Put(s, c.(pipeIn := -1)), Unplug(s, fd, c));
    hide Flagged, DefaultServer;
  }

  lemma ReadCgiFlagged(site: Site, s: State, fd: int, data: string, moment: Moment)
    requires site.servers != [] && AllFlagged(site, s) && Linked(s) && fd in s.cgiReadFds
    ensures AllFlagged(site, ReadCgi(site, s, fd, data, moment))
  {
    ReadersOneToOne(s);
    var k := s.cgiReadFds[fd];
    var c := s.clients[k];
    assert Flagged(site, DefaultServer(site, s, s.clients[k]), s.clients[k]);
    var d := if data != "" then Collect(c, data) else Finished(site, c, moment);
    SameFlagged(site, DefaultServer(site, s, c), c, d);
    SameDefault(site, Put(s, d), ReadCgi(site, s, fd, data, moment));
    hide Flagged, DefaultServer, AllFlagged;
    PutFlagged(site, s, d);
    DroppedFlagged(site, Put(s, d), fd);
  }

  lemma DroppedFlagged(site: Site, s: State, fd: int)
    requires site.servers != [] && AllFlagged(site, s)
    ensures AllFlagged(site, s.(cgiReadFds := s.cgiReadFds - {fd}))
  {
    SameDefault(site, s, s.(cgiReadFds := s.cgiReadFds - {fd}));
    hide Flagged, DefaultServer;
  }

  lemma StepFlagged(site: Site, s: State, e: Event)
    requires site.servers != [] && Linked(s) && AllOk(site.ceiling, s) && AllFlagged(site, s)
    ensures AllFlagged(site, Dispatch(site, s, e))
  {
    match e
    case Timeouts(fds) => CloseAllFlagged(site, s, fds);
    case Ready(fd, input, output, io) =>
      assert fd in s.clients ==> Held(s, fd);
      hide AllFlagged, AllOk, Held;
      if fd in s.listenFds {
        var c := NewConn(io.newFd, fd);
        NewConnFlagged(site, DefaultServer(site, s, c), io.newFd, fd);
        PutFlagged(site, s, c);
      } else if fd in s.cgiWriteFds {
        WriteCgiFlagged(site, s, fd, io.count);
      } else if fd in s.cgiReadFds {
        ReadCgiFlagged(site, s, fd, io.data, io.oracle.moment);
      } else if fd in s.clients {
        if input && s.clients[fd].state == Reading {
          ReadFlagged(site, s, fd, io.data, io.oracle);
        } else if input || output {
          HeldUnderFd(s, fd);
          WriteFlagged(site, s, fd, io.count, io.oracle);
        }
      }
  }

  // ----- runs -----

  lemma StartFlagged(site: Site, listenFds: map<int, nat>)
    requires site.servers != []
    ensures AllFlagged(site, Start(listenFds))
  {
  }

  lemma {:induction false} FlaggedUpTo(site: Site, listenFds: map<int, nat>, es: seq<Event>, n: nat)
    requires site.servers != [] && n <= |es| && FreshRun(site, Start(listenFds), es)
    ensures AllFlagged(site, RunAll(site, Start(listenFds), es[..n]))
  {
    if n == 0 {
      StartFlagged(site, listenFds);
    } else {
      var s := RunAll(site, Start(listenFds), es[..n - 1]);
      FlaggedUpTo(site, listenFds, es, n - 1);
      hide *;
      OkUpTo(site, listenFds, es, n - 1);
      LinkedInEveryRun(site, listenFds, es, n - 1);
      OneMoreFlagged(site, listenFds, es, n - 1, s);
    }
  }

  lemma OneMoreFlagged(site: Site, listenFds: map<int, nat>, es: seq<Event>, n: nat, s: State)
    requires site.servers != [] && n < |es| && s == RunAll(site, Start(listenFds), es[..n])
    requires Linked(s) && AllOk(site.ceiling, s) && AllFlagged(site, s)
    ensures AllFlagged(site, RunAll(site, Start(listenFds), es[..n + 1]))
  {
    hide *;
    RunOneMore(site, Start(listenFds), es, n);
    StepFlagged(site, s, es[n]);
  }

  // ----- one event -----

  /** What an ordinary client and a working network do: the client sends on while it is
      waited for, takes what it is sent, and neither hangs up nor times out. */
  predicate Ordinary(s: State, e: Event, fd: int)
    requires fd in s.clients
  {
    var c := s.clients[fd];
    match e
    case Timeouts(fds) => fd !in fds
    case Ready(f, input, output, io) =>
      f == fd ==>
        && (c.state == Reading ==> (input && io.data != "") || (!input && !output))
        && (c.state == Sending && c.sendBuffer != "" && (input || output) ==> io.count > 0)
        && (c.state == CgiReading ==> !input && !output)
  }

  /** The event sends the rest of the response. */
  predicate SendsRest(s: State, e: Event, fd: int)
    requires fd in s.clients
  {
    && e.Ready? && e.fd == fd && (e.input || e.output) && s.clients[fd].state == Sending
    && (s.clients[fd].sendBuffer == "" || e.io.count >= |s.clients[fd].sendBuffer|)
  }

  /** The connection is still there, at the same socket, or it is not. */
  predicate Kept(s: State, t: State, fd: int, kept: bool)
    requires fd in s.clients
  {
    && t.listenFds == s.listenFds
    && (fd in t.clients <==> kept) && (fd in t.clients ==> t.clients[fd].listenFd == s.clients[fd].listenFd)
  }

  lemma PutKept(s: State, c: Conn, fd: int)
    requires fd in s.clients && (c.fd == fd ==> c.listenFd == s.clients[fd].listenFd)
    ensures Kept(s, Put(s, c), fd, true) && Kept(s, Register(s, c), fd, true)
    ensures forall k :: Kept(s, Unplug(s, k, c), fd, true)
  {
  }

  lemma CloseKept(s: State, f: int, fd: int)
    requires fd in s.clients
    ensures Kept(s, Close(s, f), fd, f != fd)
  {
  }

  lemma KeptOn(s: State, t: State, u: State, fd: int, kept: bool)
    requires fd in s.clients && Kept(s, t, fd, true) && Kept(t, u, fd, kept)
    ensures Kept(s, u, fd, kept)
  {
  }

  lemma {:induction false} CloseAllKept(s: State, fds: seq<int>, fd: int)
    requires fd in s.clients && fd !in fds
    ensures Kept(s, CloseAll(s, fds), fd, true)
    decreases |fds|
  {
    if fds != [] {
      assert fds[0] in fds && forall f :: f in fds[1..] ==> f in fds;
      CloseKept(s, fds[0], fd);
      hide Close;
      CloseAllKept(Close(s, fds[0]), fds[1..], fd);
      KeptOn(s, Close(s, fds[0]), CloseAll(s, fds), fd, true);
    }
  }

  lemma FeedConnPlace(site: Site, default: nat, c: Conn, data: string, o: Oracle)
    requires default < |site.servers|
    ensures var d := FeedConn(site, default, c, data, o); d.fd == c.fd && d.listenFd == c.listenFd
  {
    hide Feed, Decide;
  }

  lemma AllSentKept(site: Site, s: State, c: Conn, o: Oracle, fd: int)
    requires site.servers != [] && fd in s.clients && c.fd in s.clients && c == s.clients[c.fd]
    ensures Kept(s, AllSent(site, s, c, o), fd, c.fd != fd || (c.keepAlive && c.state == Sending))
  {
    if c.keepAlive && c.state == Sending {
      FeedConnPlace(site, DefaultServer(site, s, c), Renewed(c), "", o);
      hide FeedConn, Register, Kept;
      PutKept(s, FeedConn(site, DefaultServer(site, s, c), Renewed(c), "", o), fd);
    } else {
      CloseKept(s, c.fd, fd);
    }
  }

  lemma WriteKept(site: Site, s: State, f: int, n: int, o: Oracle, fd: int)
    requires site.servers != [] && f in s.clients && s.clients[f].fd == f && fd in s.clients
    requires f == fd ==> s.clients[f].state == Sending && (s.clients[f].sendBuffer != "" ==> n > 0)
    ensures var b := s.clients[fd].sendBuffer;
            Kept(s, Write(site, s, f, n, o), fd, !(f == fd && (b == "" || n >= |b|) && !s.clients[fd].keepAlive))
  {
    var c := s.clients[f];
    if c.sendBuffer != "" && n <= 0 {
      CloseKept(s, f, fd);
    } else {
      var d := if c.sendBuffer != "" then SendSome(c, n) else c;
      assert f == fd ==> (d.sendBuffer == "" <==> c.sendBuffer == "" || n >= |c.sendBuffer|);
      PutKept(s, d, fd);
      hide AllSent;
      if d.sendBuffer == "" {
        AllSentKept(site, Put(s, d), d, o, fd);
        KeptOn(s, Put(s, d), AllSent(site, Put(s, d), d, o), fd, d.fd != fd || (d.keepAlive && d.state == Sending));
      }
    }
  }

  lemma CgiKept(site: Site, s: State, f: int, io: Io, fd: int)
    requires site.servers != [] && Linked(s) && fd in s.clients
    ensures f in s.cgiWriteFds ==> Kept(s, WriteCgi(s, f, io.count), fd, true)
    ensures f in s.cgiReadFds ==> Kept(s, ReadCgi(site, s, f, io.data, io.oracle.moment), fd, true)
  {
    if f in s.cgiWriteFds && s.cgiWriteFds[f] in s.clients {
      var c := s.clients[s.cgiWriteFds[f]];
      assert Held(s, s.cgiWriteFds[f]);
      PutKept(s, c, fd);
      if c.cgiBody != "" && io.count > 0 { PutKept(s, PipeSome(c, io.count), fd); }
    }
    if f in s.cgiReadFds {
      assert ReadEntry(s, f) && Held(s, s.cgiReadFds[f]);
    }
  }

  /** Under ordinary events a connection is closed exactly when the rest of a response is
      sent that the flag does not keep it behind. */
  lemma ClosedExactly(site: Site, s: State, e: Event, fd: int)
    requires site.servers != [] && Linked(s) && FreshEvent(s, e)
    requires fd in s.clients && Ordinary(s, e, fd)
    ensures Kept(s, Dispatch(site, s, e), fd, !(SendsRest(s, e, fd) && !s.clients[fd].keepAlive))
  {
    match e
    case Timeouts(fds) => CloseAllKept(s, fds, fd);
    case Ready(f, input, output, io) =>
      assert f in s.clients ==> Held(s, f);
      assert f == fd ==> f !in s.listenFds && f !in s.cgiWriteFds && f !in s.cgiReadFds;
      assert SendsRest(s, e, fd) ==> f == fd;
      hide Linked, Kept, Held;
      if f in s.listenFds {
        AcceptKept(s, f, io.newFd, fd);
      } else if f in s.cgiWriteFds {
        CgiKept(site, s, f, io, fd);
      } else if f in s.cgiReadFds {
        CgiKept(site, s, f, io, fd);
      } else if f in s.clients {
        HeldUnderFd(s, f);
        if input && s.clients[f].state == Reading {
          ReadKept(site, s, f, io.data, io.oracle, fd);
        } else if input || output {
          WriteKept(site, s, f, io.count, io.oracle, fd);
        } else {
          SameKept(s, fd);
        }
      } else {
        SameKept(s, fd);
      }
  }

  lemma SameKept(s: State, fd: int)
    requires fd in s.clients
    ensures Kept(s, s, fd, true)
  {
  }

  lemma AcceptKept(s: State, listenFd: int, newFd: int, fd: int)
    requires fd in s.clients && (newFd < 0 || Unused(s, newFd))
    ensures Kept(s, Accept(s, listenFd, newFd), fd, true)
  {
  }

  lemma ReadKept(site: Site, s: State, f: int, data: string, o: Oracle, fd: int)
    requires site.servers != [] && f in s.clients && s.clients[f].fd == f && fd in s.clients
    requires f == fd ==> data != ""
    ensures Kept(s, Read(site, s, f, data, o), fd, true)
  {
    if data == "" {
      CloseKept(s, f, fd);
    } else {
      var c := s.clients[f];
      FeedConnPlace(site, DefaultServer(site, s, c), c, data, o);
      hide FeedConn, Register, Kept;
      PutKept(s, FeedConn(site, DefaultServer(site, s, c), c, data, o), fd);
    }
  }

  // ----- what a connection has been served -----

  /** A well-formed request, within the limit that applies to it. */
  ghost predicate FitsAt(site: Site, default: nat, r: Request)
    requires default < |site.servers|
  {
    Good(r) && |BodyOf(r.framing)| <= LimitFor(site, default, r)
  }

  predicate StayAsked(r: Request) { AsksToStay(AllFields(r), r.version) }

  /** The text is what routing answers the request with at once, or what is made of some
      output of the program it is sent to. */
  ghost predicate IsAnswer(site: Site, default: nat, r: Request, asked: Moment, text: string) {
    match site.route(default, Meaning(r, site.ceiling), asked)
    case Immediate(response) => text == response
    case StartCgi => exists output, moment :: text == site.finish(Meaning(r, site.ceiling), output, moment)
  }

  lemma MeaningHandled(site: Site, default: nat, r: Request)
    requires IsCeiling(site.ceiling, site.servers) && default < |site.servers| && FitsAt(site, default, r)
    ensures Fits(r, site.ceiling) && Decide(site, default, Meaning(r, site.ceiling)) == Handle
    ensures Stays(site, default, Meaning(r, site.ceiling)) <==> StayAsked(r)
  {
    LimitWithinCeiling(site, default, r);
    hide Good, BodyOf, LimitFor, Decide, IsCeiling, AsksToStay, Encode, Run;
    TwoStagesAreOne(site, default, r, "");
    ReadWithinLimit(site, default, r, "");
    MeaningIsComplete(r, site.ceiling);
    MeaningStays(r, site.ceiling);
    hide Meaning;
  }

  lemma LimitWithinCeiling(site: Site, default: nat, r: Request)
    requires IsCeiling(site.ceiling, site.servers) && default < |site.servers|
    ensures LimitFor(site, default, r) <= site.ceiling
  {
    var index := ServerFor(site.servers, default, Header(FieldsOf(r), "host"));
    CeilingDominates(site.ceiling, site.servers, index, UriPath(r.uri));
    hide IsCeiling, LimitIn, FieldsOf, UriPath, ServerFor;
  }

  lemma {:induction false} MeaningsAt(rs: seq<Request>, maxBody: nat)
    ensures |Meanings(rs, maxBody)| == |rs| && forall i :: 0 <= i < |rs| ==> Meanings(rs, maxBody)[i] == Meaning(rs[i], maxBody)
    decreases |rs|
  {
    hide Meaning;
    if rs != [] { MeaningsAt(rs[1..], maxBody); }
  }

  ghost predicate AllFit(site: Site, default: nat, rs: seq<Request>)
    requires default < |site.servers|
  {
    forall i :: 0 <= i < |rs| ==> FitsAt(site, default, rs[i])
  }

  lemma AllHandled(site: Site, default: nat, rs: seq<Request>)
    requires IsCeiling(site.ceiling, site.servers) && default < |site.servers| && AllFit(site, default, rs)
    ensures forall i :: 0 <= i < |rs| ==> Good(rs[i]) && Fits(rs[i], site.ceiling)
    ensures forall i :: 0 <= i < |rs| ==> Decide(site, default, Meaning(rs[i], site.ceiling)) == Handle
    ensures forall i :: 0 <= i < |rs| ==> (Stays(site, default, Meaning(rs[i], site.ceiling)) <==> StayAsked(rs[i]))
  {
    hide Stays, StayAsked, Decide, Meaning, Good, LimitFor, IsCeiling;
    forall i | 0 <= i < |rs|
      ensures Good(rs[i]) && Fits(rs[i], site.ceiling) && Decide(site, default, Meaning(rs[i], site.ceiling)) == Handle
      ensures Stays(site, default, Meaning(rs[i], site.ceiling)) <==> StayAsked(rs[i])
    {
      MeaningHandled(site, default, rs[i]);
    }
  }

  lemma NothingMore(s: string, more: string)
    ensures more == "" ==> s + more == s
  {
  }

  /** The requests read are the first of those sent. */
  lemma RequestsAre(site: Site, default: nat, c: Conn, rs: seq<Request>, more: string)
    requires IsCeiling(site.ceiling, site.servers) && default < |site.servers|
    requires ConnOk(site.ceiling, c) && Tied(site, default, c)
    requires AllFit(site, default, rs) && c.past.received + more == EncodeAll(rs)
    ensures var ms := c.past.requests; |ms| <= |rs| && forall i :: 0 <= i < |ms| ==> ms[i] == Meaning(rs[i], site.ceiling)
    ensures c.state == Reading && more == "" ==> |c.past.requests| == |rs|
  {
    hide *;
    AllHandled(site, default, rs);
    NothingMore(c.past.received, more);
    if c.state == Reading && more == "" { ReadingHasAll(site.ceiling, c, rs); }
    OkMeansInOrder(site, default, c);
    RequestsSent(site, default, c, rs, more);
    ExpectedWithin(rs, site.ceiling);
    MeaningsAt(rs, site.ceiling);
    PrefixAt(c.past.requests, Meanings(rs, site.ceiling));
  }

  lemma PrefixAt<T>(a: seq<T>, b: seq<T>)
    requires IsPrefix(a, b)
    ensures |a| <= |b| && forall i :: 0 <= i < |a| ==> a[i] == b[i]
  {
  }

  lemma ReadingHasAll(ceiling: nat, c: Conn, rs: seq<Request>)
    requires ConnOk(ceiling, c) && c.state == Reading && c.past.received == EncodeAll(rs)
    requires forall i :: 0 <= i < |rs| ==> Good(rs[i]) && Fits(rs[i], ceiling)
    ensures |c.past.requests| == |rs|
  {
    hide Outcomes, Rest, AlignedStream, Concat, EncodeAll, Good, Fits, Expected, Meanings;
    ExpectedOutcomes(rs, ceiling);
    ExpectedWithin(rs, ceiling);
    MeaningsAt(rs, ceiling);
  }

  /** The responses made are answers to the requests. */
  lemma ResponsesAre(site: Site, default: nat, c: Conn, rs: seq<Request>)
    requires default < |site.servers| && Tied(site, default, c)
    requires |c.past.requests| <= |rs|
    requires forall i :: 0 <= i < |c.past.requests| ==> c.past.requests[i] == Meaning(rs[i], site.ceiling)
    requires forall i :: 0 <= i < |rs| ==> Decide(site, default, Meaning(rs[i], site.ceiling)) == Handle
    ensures var h := c.past;
            && |h.responses| <= |h.requests| == |h.asked|
            && forall i :: 0 <= i < |h.responses| ==> IsAnswer(site, default, rs[i], h.asked[i], h.responses[i])
  {
    var h := c.past;
    hide Decide, Meaning, ResponseTo;
    assert Answered(site, default, h);
    forall i | 0 <= i < |h.responses| ensures IsAnswer(site, default, rs[i], h.asked[i], h.responses[i]) {
      assert h.responses[i] == ResponseTo(site, default, i == 0, h.requests[i], h.asked[i], h.made[i]);
      AnswerIs(site, default, i == 0, rs[i], h.asked[i], h.made[i]);
    }
  }

  lemma AnswerIs(site: Site, default: nat, first: bool, r: Request, asked: Moment, made: Made)
    requires default < |site.servers| && Decide(site, default, Meaning(r, site.ceiling)) == Handle
    ensures IsAnswer(site, default, r, asked, ResponseTo(site, default, first, Meaning(r, site.ceiling), asked, made))
  {
    hide Decide, Meaning;
  }

  /** What holds of a client that has sent a part of some well-formed requests: those
      that have been read and gone on from all asked to stay, their answers have been
      sent or are being sent, and with everything received and nothing left to do, all
      have been answered. */
  ghost predicate ServedOf(site: Site, default: nat, c: Conn, rs: seq<Request>, more: string) {
    var h, k := c.past, |c.past.requests|;
    && k <= |rs| && |h.responses| <= k == |h.asked|
    && (forall i :: 0 <= i < |h.responses| ==> IsAnswer(site, default, rs[i], h.asked[i], h.responses[i]))
    && h.sent + c.sendBuffer == Concat(h.responses)
    && (forall i :: 0 <= i < k - (if c.state == Reading then 0 else 1) ==> StayAsked(rs[i]))
    && (c.state != Reading ==> k > 0 && (c.keepAlive <==> StayAsked(rs[k - 1])))
    && (c.state == Sending ==> |h.responses| == k)
    && (c.state == Reading ==> c.sendBuffer == "" && |h.responses| == k && (more == "" ==> k == |rs|))
  }

  lemma BytesOf(ceiling: nat, c: Conn)
    requires ConnOk(ceiling, c)
    ensures var h := c.past;
            && h.sent + c.sendBuffer == Concat(h.responses)
            && (c.state != Reading ==> h.requests != [] && Last(h.requests) == c.request.m)
            && (c.state == Sending ==> |h.responses| == |h.requests|)
            && (c.state == Reading ==> c.sendBuffer == "" && |h.responses| == |h.requests|)
  {
    hide Concat, InOrder, AlignedStream;
  }

  lemma FlagsOf(site: Site, default: nat, c: Conn, rs: seq<Request>)
    requires default < |site.servers| && Flagged(site, default, c)
    requires |c.past.requests| <= |rs| && forall i :: 0 <= i < |c.past.requests| ==> c.past.requests[i] == Meaning(rs[i], site.ceiling)
    requires forall i :: 0 <= i < |rs| ==> (Stays(site, default, Meaning(rs[i], site.ceiling)) <==> StayAsked(rs[i]))
    requires c.state != Reading ==> c.past.requests != [] && Last(c.past.requests) == c.request.m
    ensures var k := |c.past.requests|;
            && (forall i :: 0 <= i < k - (if c.state == Reading then 0 else 1) ==> StayAsked(rs[i]))
            && (c.state != Reading ==> (c.keepAlive <==> StayAsked(rs[k - 1])))
  {
    hide Stays, StayAsked, Meaning;
    var k := |c.past.requests|;
    forall i | 0 <= i < k - (if c.state == Reading then 0 else 1) ensures StayAsked(rs[i]) {
      assert Stays(site, default, c.past.requests[i]);
    }
    if c.state != Reading { assert c.past.requests[k - 1] == c.request.m; }
  }

  lemma ServedSoFar(site: Site, default: nat, c: Conn, rs: seq<Request>, more: string)
    requires IsCeiling(site.ceiling, site.servers) && default < |site.servers|
    requires ConnOk(site.ceiling, c) && Tied(site, default, c) && Flagged(site, default, c)
    requires AllFit(site, default, rs) && c.past.received + more == EncodeAll(rs)
    ensures ServedOf(site, default, c, rs, more)
  {
    hide ConnOk, Decide, Meaning, Stays, StayAsked, IsAnswer, Concat, EncodeAll, Good, Fits, AllFit, FitsAt, IsCeiling, Tied, Flagged;
    RequestsAre(site, default, c, rs, more);
    AllHandled(site, default, rs);
    BytesOf(site.ceiling, c);
    FlagsOf(site, default, c, rs);
    ResponsesAre(site, default, c, rs);
  }

  // ----- one connection in a run -----

  /** From moment k on, whatever has been received from the client is part of the bytes of
      the requests, and every event is ordinary for it, as long as it is connected. */
  ghost predicate Behaves(site: Site, s: State, es: seq<Event>, k: nat, fd: int, rs: seq<Request>)
    requires site.servers != [] && k <= |es|
  {
    && (forall n :: k <= n <= |es| ==> var t := RunAll(site, s, es[..n]);
          fd in t.clients ==> IsPrefix(t.clients[fd].past.received, EncodeAll(rs)))
    && (forall n :: k <= n < |es| ==> var t := RunAll(site, s, es[..n]); fd in t.clients ==> Ordinary(t, es[n], fd))
  }

  lemma PrefixRest(a: string, b: string) returns (more: string)
    requires IsPrefix(a, b)
    ensures a + more == b
  {
    more := b[|a|..];
  }

  /** The invariants of a state reached, for one of its clients. */
  lemma ClientSound(site: Site, listenFds: map<int, nat>, es: seq<Event>, n: nat, fd: int)
    requires site.servers != [] && n <= |es| && FreshRun(site, Start(listenFds), es)
    requires fd in RunAll(site, Start(listenFds), es[..n]).clients
    ensures var s := RunAll(site, Start(listenFds), es[..n]);
            var c, default := s.clients[fd], DefaultServer(site, s, s.clients[fd]);
            ConnOk(site.ceiling, c) && Tied(site, default, c) && Flagged(site, default, c)
  {
    OkUpTo(site, listenFds, es, n);
    TiedUpTo(site, listenFds, es, n);
    FlaggedUpTo(site, listenFds, es, n);
    var s := RunAll(site, Start(listenFds), es[..n]);
    hide RunAll, FreshRun, ConnOk, Tied, Flagged, DefaultServer;
    assert AllOk(site.ceiling, s) && AllTied(site, s) && AllFlagged(site, s);
  }

  lemma ServedAt(site: Site, listenFds: map<int, nat>, es: seq<Event>, n: nat, fd: int, default: nat, rs: seq<Request>)
    requires site.servers != [] && n <= |es| && FreshRun(site, Start(listenFds), es)
    requires IsCeiling(site.ceiling, site.servers) && default < |site.servers|
    requires AllFit(site, default, rs)
    requires var s := RunAll(site, Start(listenFds), es[..n]);
             fd in s.clients && DefaultServer(site, s, s.clients[fd]) == default
             && IsPrefix(s.clients[fd].past.received, EncodeAll(rs))
    ensures var c := RunAll(site, Start(listenFds), es[..n]).clients[fd];
            exists more :: c.past.received + more == EncodeAll(rs) && ServedOf(site, default, c, rs, more)
  {
    var c := RunAll(site, Start(listenFds), es[..n]).clients[fd];
    hide *;
    var more := PrefixRest(c.past.received, EncodeAll(rs));
    ClientSound(site, listenFds, es, n, fd);
    ServedSoFar(site, default, c, rs, more);
  }
}
