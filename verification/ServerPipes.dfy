/** What CGI programs are given: the input pipe of a program stays entered until the
    whole body of its request has been written, or a write has failed, and is closed
    right then. Early ends of output and stale entries included. */
module ServerPipes {
  import opened HttpParser
  import opened ServerModel
  import opened ServerTables
  import opened ServerLinks
  import opened ServerOrder

  /** The write end of a waiting client is entered as long as it is open, and it is
      open only as long as something is left to write. */
  predicate Plugged(s: State, fd: int)
    requires fd in s.clients
  {
    var c := s.clients[fd];
    c.state == CgiReading ==>
      && c.pipeIn >= -1 && (c.cgiBody == "" ==> c.pipeIn == -1)
      && (c.pipeIn >= 0 ==> c.pipeIn in s.cgiWriteFds && s.cgiWriteFds[c.pipeIn] == fd)
  }

  /** It has been closed only because nothing is left. */
  predicate Given(c: Conn) { c.state == CgiReading && c.pipeIn == -1 ==> c.cgiBody == "" }

  predicate AllPlugged(s: State) { forall fd :: fd in s.clients ==> Plugged(s, fd) }

  predicate AllGiven(s: State) { forall fd :: fd in s.clients ==> Given(s.clients[fd]) }

  /** The event is not a write to a program that returns 0 or less. */
  predicate WriteSucceeds(s: State, e: Event) {
    e.Ready? && e.fd !in s.listenFds && e.fd in s.cgiWriteFds ==> e.io.count > 0
  }

  // ----- handler by handler -----

  lemma PutPlugged(s: State, c: Conn)
    requires AllPlugged(s) && c.fd in s.clients
    requires var b := s.clients[c.fd];
             c.state == CgiReading ==> b.state == CgiReading && c.pipeIn == b.pipeIn && c.cgiBody == b.cgiBody
    ensures AllPlugged(Put(s, c)) && (AllGiven(s) ==> AllGiven(Put(s, c)))
  {
    var t := Put(s, c);
    assert Plugged(s, c.fd);
    forall fd | fd in t.clients ensures Plugged(t, fd) { if fd != c.fd { assert Plugged(s, fd); } }
    if AllGiven(s) {
      assert Given(s.clients[c.fd]);
      forall fd | fd in t.clients ensures Given(t.clients[fd]) { if fd != c.fd { assert Given(s.clients[fd]); } }
    }
  }

  lemma RegisterPlugged(s: State, c: Conn, o: Oracle)
    requires AllPlugged(s) && FreshPipes(s, o)
    requires c.state == CgiReading ==> c.pipeOut == o.pipeOut && c.pipeIn == if c.cgiBody == "" then -1 else o.pipeIn
    ensures AllPlugged(Register(s, c)) && (AllGiven(s) ==> AllGiven(Register(s, c)))
  {
    var t := Register(s, c);
    forall fd | fd in t.clients ensures Plugged(t, fd) { if fd != c.fd { assert Plugged(s, fd); } }
    if AllGiven(s) {
      forall fd | fd in t.clients ensures Given(t.clients[fd]) { if fd != c.fd { assert Given(s.clients[fd]); } }
    }
  }

  lemma AcceptPlugged(s: State, listenFd: int, newFd: int)
    requires AllPlugged(s)
    ensures AllPlugged(Accept(s, listenFd, newFd)) && (AllGiven(s) ==> AllGiven(Accept(s, listenFd, newFd)))
  {
    var t := Accept(s, listenFd, newFd);
    forall fd | fd in t.clients ensures Plugged(t, fd) { if fd in s.clients && fd != newFd { assert Plugged(s, fd); } }
    if AllGiven(s) {
      forall fd | fd in t.clients ensures Given(t.clients[fd]) { if fd in s.clients && fd != newFd { assert Given(s.clients[fd]); } }
    }
  }

  lemma ClosePlugged(s: State, fd: int)
    requires AllPlugged(s) && Linked(s)
    ensures AllPlugged(Close(s, fd)) && (AllGiven(s) ==> AllGiven(Close(s, fd)))
  {
    if fd in s.clients {
      var t := Close(s, fd);
      assert Held(s, fd) && Plugged(s, fd);
      forall k | k in t.clients ensures Plugged(t, k) { assert Plugged(s, k) && Held(s, k); }
      if AllGiven(s) {
        forall k | k in t.clients ensures Given(t.clients[k]) { assert Given(s.clients[k]); }
      }
    }
  }

  lemma {:induction false} CloseAllPlugged(s: State, fds: seq<int>)
    requires AllPlugged(s) && Linked(s)
    ensures AllPlugged(CloseAll(s, fds)) && (AllGiven(s) ==> AllGiven(CloseAll(s, fds)))
    decreases |fds|
  {
    if fds != [] {
      ClosePlugged(s, fds[0]);
      CloseLinked(s, fds[0]);
      hide AllPlugged, AllGiven, Linked;
      CloseAllPlugged(Close(s, fds[0]), fds[1..]);
    }
  }

  /** A program is started with the whole body left to write. */
  lemma FedStarts(site: Site, default: nat, c: Conn, data: string, o: Oracle)
    requires default < |site.servers| && c.state == Reading
    ensures var d := FeedConn(site, default, c, data, o);
            d.state == CgiReading ==> d.pipeOut == o.pipeOut && d.pipeIn == if d.cgiBody == "" then -1 else o.pipeIn
  {
    hide Feed, Decide;
  }

  lemma ReadPlugged(site: Site, s: State, fd: int, data: string, o: Oracle)
    requires site.servers != [] && AllPlugged(s) && Linked(s) && FreshPipes(s, o)
    requires fd in s.clients && s.clients[fd].state == Reading
    ensures var t := Read(site, s, fd, data, o); AllPlugged(t) && (AllGiven(s) ==> AllGiven(t))
  {
    if data == "" {
      ClosePlugged(s, fd);
    } else {
      var c := s.clients[fd];
      FedStarts(site, DefaultServer(site, s, c), c, data, o);
      hide AllPlugged, AllGiven, Linked, FeedConn, Register, FreshPipes;
      RegisterPlugged(s, FeedConn(site, DefaultServer(site, s, c), c, data, o), o);
    }
  }

  lemma AllSentPlugged(site: Site, s: State, c: Conn, o: Oracle)
    requires site.servers != [] && AllPlugged(s) && Linked(s) && FreshPipes(s, o)
    ensures var t := AllSent(site, s, c, o); AllPlugged(t) && (AllGiven(s) ==> AllGiven(t))
  {
    if c.keepAlive && c.state == Sending {
      FedStarts(site, DefaultServer(site, s, c), Renewed(c), "", o);
      hide AllPlugged, AllGiven, Linked, FeedConn, Register, FreshPipes;
      RegisterPlugged(s, FeedConn(site, DefaultServer(site, s, c), Renewed(c), "", o), o);
    } else {
      ClosePlugged(s, c.fd);
    }
  }

  lemma WritePlugged(site: Site, s: State, fd: int, n: int, o: Oracle)
    requires site.servers != [] && AllPlugged(s) && Linked(s) && FreshPipes(s, o) && fd in s.clients
    ensures var t := Write(site, s, fd, n, o); AllPlugged(t) && (AllGiven(s) ==> AllGiven(t))
  {
    var c := s.clients[fd];
    assert Held(s, fd);
    if c.sendBuffer != "" && n <= 0 {
      ClosePlugged(s, fd);
    } else {
      var d := if c.sendBuffer != "" then SendSome(c, n) else c;
      PutPlugged(s, d);
      PutLinked(s, d);
      SameUnused(s, d, o);
      hide AllPlugged, AllGiven, Linked, AllSent, FreshPipes;
      if d.sendBuffer == "" { AllSentPlugged(site, Put(s, d), d, o); }
    }
  }

  lemma UnplugPlugged(s: State, fd: int, c: Conn)
    requires AllPlugged(s) && fd in s.cgiWriteFds && s.cgiWriteFds[fd] == c.fd && c.fd in s.clients
    ensures AllPlugged(Unplug(s, fd, c))
    ensures AllGiven(s) && c.cgiBody == "" ==> AllGiven(Unplug(s, fd, c))
  {
    var t := Unplug(s, fd, c);
    forall k | k in t.clients ensures Plugged(t, k) { if k != c.fd { assert Plugged(s, k); } }
    if AllGiven(s) && c.cgiBody == "" {
      forall k | k in t.clients ensures Given(t.clients[k]) { if k != c.fd { assert Given(s.clients[k]); } }
    }
  }

  lemma PipeMorePlugged(s: State, c: Conn, d: Conn)
    requires AllPlugged(s) && c.fd in s.clients && s.clients[c.fd] == c
    requires c.cgiBody != "" && d.cgiBody != "" && d == c.(cgiBody := d.cgiBody, past := d.past)
    ensures AllPlugged(Put(s, d)) && (AllGiven(s) ==> AllGiven(Put(s, d)))
  {
    var t := Put(s, d);
    assert Plugged(s, c.fd);
    forall k | k in t.clients ensures Plugged(t, k) { if k != c.fd { assert Plugged(s, k); } }
    if AllGiven(s) {
      assert Given(c);
      forall k | k in t.clients ensures Given(t.clients[k]) { if k != c.fd { assert Given(s.clients[k]); } }
    }
  }

  lemma WriteCgiPlugged(s: State, fd: int, n: int)
    requires AllPlugged(s) && Linked(s) && fd in s.cgiWriteFds
    ensures AllPlugged(WriteCgi(s, fd, n)) && (AllGiven(s) && n > 0 ==> AllGiven(WriteCgi(s, fd, n)))
  {
    if s.cgiWriteFds[fd] in s.clients {
      var c := s.clients[s.cgiWriteFds[fd]];
      assert Held(s, s.cgiWriteFds[fd]);
      hide AllPlugged, AllGiven, Linked;
      if c.cgiBody == "" || n <= 0 {
        UnplugPlugged(s, fd, c);
      } else {
        var d := PipeSome(c, n);
        if d.cgiBody == "" { UnplugPlugged(s, fd, d); } else { PipeMorePlugged(s, c, d); }
      }
    }
  }

  lemma ReadCgiPlugged(site: Site, s: State, fd: int, data: string, moment: Moment)
    requires AllPlugged(s) && Linked(s) && fd in s.cgiReadFds
    ensures var t := ReadCgi(site, s, fd, data, moment); AllPlugged(t) && (AllGiven(s) ==> AllGiven(t))
  {
    var k := s.cgiReadFds[fd];
    assert ReadEntry(s, fd) && Held(s, k);
    var c := s.clients[k];
    if data != "" {
      PutPlugged(s, Collect(c, data));
    } else {
      var t, d := ReadCgi(site, s, fd, data, moment), Finished(site, c, moment);
      PutPlugged(s, d);
      forall i | i in t.clients ensures Plugged(t, i) { assert Plugged(Put(s, d), i); }
      if AllGiven(s) {
        forall i | i in t.clients ensures Given(t.clients[i]) { assert Given(Put(s, d).clients[i]); }
      }
    }
  }

  /** Every event with fresh descriptors keeps that an open pipe is entered and has
      something left to take; every one but a failing write, that only those pipes are
      closed that have taken everything. */
  lemma StepPlugged(site: Site, s: State, e: Event)
    requires site.servers != [] && Linked(s) && FreshEvent(s, e) && AllPlugged(s)
    ensures AllPlugged(Dispatch(site, s, e))
    ensures AllGiven(s) && WriteSucceeds(s, e) ==> AllGiven(Dispatch(site, s, e))
  {
    match e
    case Timeouts(fds) => CloseAllPlugged(s, fds);
    case Ready(fd, input, output, io) =>
      hide Linked, AllPlugged, AllGiven;
      if fd in s.listenFds {
        AcceptPlugged(s, fd, io.newFd);
      } else if fd in s.cgiWriteFds {
        WriteCgiPlugged(s, fd, io.count);
      } else if fd in s.cgiReadFds {
        ReadCgiPlugged(site, s, fd, io.data, io.oracle.moment);
      } else if fd in s.clients {
        if input && s.clients[fd].state == Reading {
          ReadPlugged(site, s, fd, io.data, io.oracle);
        } else if input || output {
          WritePlugged(site, s, fd, io.count, io.oracle);
        }
      }
  }

  // ----- one write -----

  /** What one write does, told by the bytes: the program has been given that many
      more, or all that was left; and the entry is gone, and the pipe closed, exactly if
      nothing is left. */
  lemma WriteGives(site: Site, s: State, e: Event, k: int)
    requires site.servers != [] && Linked(s) && AllPlugged(s)
    requires e.Ready? && e.fd >= 0 && e.fd !in s.listenFds && e.fd in s.cgiWriteFds && s.cgiWriteFds[e.fd] == k
    requires k in s.clients && s.clients[k].state == CgiReading && s.clients[k].pipeIn == e.fd && e.io.count > 0
    ensures var c, t, n := s.clients[k], Dispatch(site, s, e), e.io.count;
            && c.cgiBody != "" && k in t.clients && t.clients[k].state == CgiReading
            && (n < |c.cgiBody| ==>
                  && t.clients[k].past.piped == c.past.piped + c.cgiBody[..n] && t.clients[k].cgiBody == c.cgiBody[n..]
                  && t.cgiWriteFds == s.cgiWriteFds && t.clients[k].pipeIn == e.fd)
            && (n >= |c.cgiBody| ==>
                  && t.clients[k].past.piped == c.past.piped + c.cgiBody && t.clients[k].cgiBody == ""
                  && t.cgiWriteFds == s.cgiWriteFds - {e.fd} && t.clients[k].pipeIn == -1)
  {
    assert Plugged(s, k) && Held(s, k);
  }

  /** A write that fails gives nothing, and ends the giving. */
  lemma FailedWriteGives(site: Site, s: State, e: Event, k: int)
    requires site.servers != [] && Linked(s)
    requires e.Ready? && e.fd !in s.listenFds && e.fd in s.cgiWriteFds && s.cgiWriteFds[e.fd] == k
    requires k in s.clients && e.io.count <= 0
    ensures var t := Dispatch(site, s, e);
            && t.clients == s.clients[k := s.clients[k].(pipeIn := -1)] && t.cgiWriteFds == s.cgiWriteFds - {e.fd}
            && t.cgiReadFds == s.cgiReadFds && t.closed == s.closed
  {
    assert Held(s, k);
  }

  /** What a program prints is collected in the order in which it comes, and at its end
      the response made from all of it is queued; whether the connection is kept does
      not change. */
  lemma OutputCollected(site: Site, s: State, e: Event)
    requires site.servers != [] && Linked(s)
    requires e.Ready? && e.fd !in s.listenFds && e.fd !in s.cgiWriteFds && e.fd in s.cgiReadFds
    ensures var k, t := s.cgiReadFds[e.fd], Dispatch(site, s, e);
            && k in s.clients && t.clients.Keys == s.clients.Keys && t.cgiWriteFds == s.cgiWriteFds
            && (forall i :: i in s.clients && i != k ==> t.clients[i] == s.clients[i])
            && var c, d := s.clients[k], t.clients[k];
               && d.keepAlive == c.keepAlive && d.request == c.request
               && if e.io.data != "" then
                    && d.cgiOutput == c.cgiOutput + e.io.data && d.past.read == c.past.read + e.io.data
                    && d.state == c.state && d.sendBuffer == c.sendBuffer && t.cgiReadFds == s.cgiReadFds
                  else
                    && d.sendBuffer == site.finish(c.request.m, c.cgiOutput, e.io.oracle.moment) && d.state == Sending
                    && d.pipeIn == -1 && d.pipeOut == -1 && t.cgiReadFds == s.cgiReadFds - {e.fd}
  {
    assert ReadEntry(s, e.fd) && Held(s, s.cgiReadFds[e.fd]);
  }

  // ----- runs -----

  ghost predicate WritesSucceed(site: Site, s: State, es: seq<Event>)
    requires site.servers != []
  {
    forall n :: 0 <= n < |es| ==> WriteSucceeds(RunAll(site, s, es[..n]), es[n])
  }

  lemma OneMorePlugged(site: Site, listenFds: map<int, nat>, es: seq<Event>, n: nat, s: State)
    requires site.servers != [] && n < |es| && s == RunAll(site, Start(listenFds), es[..n])
    requires Linked(s) && FreshEvent(s, es[n]) && AllPlugged(s)
    ensures AllPlugged(RunAll(site, Start(listenFds), es[..n + 1]))
    ensures AllGiven(s) && WriteSucceeds(s, es[n]) ==> AllGiven(RunAll(site, Start(listenFds), es[..n + 1]))
  {
    hide *;
    RunOneMore(site, Start(listenFds), es, n);
    StepPlugged(site, s, es[n]);
  }

  lemma StartPlugged(listenFds: map<int, nat>)
    ensures AllPlugged(Start(listenFds)) && AllGiven(Start(listenFds))
  {
  }

  lemma {:induction false} PluggedUpTo(site: Site, listenFds: map<int, nat>, es: seq<Event>, n: nat)
    requires site.servers != [] && n <= |es| && FreshRun(site, Start(listenFds), es)
    ensures AllPlugged(RunAll(site, Start(listenFds), es[..n]))
    ensures WritesSucceed(site, Start(listenFds), es) ==> AllGiven(RunAll(site, Start(listenFds), es[..n]))
  {
    if n == 0 {
      StartPlugged(listenFds);
    } else {
      var s := RunAll(site, Start(listenFds), es[..n - 1]);
      assert FreshEvent(s, es[n - 1]) by { hide FreshEvent, RunAll, WritesSucceed; }
      assert WritesSucceed(site, Start(listenFds), es) ==> WriteSucceeds(s, es[n - 1]) by {
        hide FreshEvent, RunAll, FreshRun, WriteSucceeds;
      }
      PluggedUpTo(site, listenFds, es, n - 1);
      hide *;
      LinkedInEveryRun(site, listenFds, es, n - 1);
      OneMorePlugged(site, listenFds, es, n - 1, s);
    }
  }

  /** The body of the last request, and what the program has been given of it. */
  lemma PipedAndLeft(ceiling: nat, c: Conn)
    requires Bytes(ceiling, c) && c.state == CgiReading
    ensures c.past.requests != [] && c.past.piped + c.cgiBody == Last(c.past.requests).body
    ensures c.cgiBody == "" <==> c.past.piped == Last(c.past.requests).body
  {
    assert c.past.piped + c.cgiBody == Last(c.past.requests).body;
  }

  /** In every run with fresh descriptors, for every client that waits for a program:
      as long as the pipe to it is open it is entered and part of the body is still
      unwritten; and where no write to a program has failed, the pipe is closed exactly
      when the program has been given the whole body of the request. */
  lemma WholeBodyGiven(site: Site, listenFds: map<int, nat>, es: seq<Event>, fd: int)
    requires site.servers != [] && FreshRun(site, Start(listenFds), es)
    requires var s := RunAll(site, Start(listenFds), es); fd in s.clients && s.clients[fd].state == CgiReading
    ensures var s := RunAll(site, Start(listenFds), es);
            var c := s.clients[fd];
            && c.past.requests != []
            && (c.pipeIn != -1 ==> && c.pipeIn in s.cgiWriteFds && s.cgiWriteFds[c.pipeIn] == fd
                                   && c.past.piped != Last(c.past.requests).body)
            && (WritesSucceed(site, Start(listenFds), es) ==>
                  (c.pipeIn == -1 <==> c.past.piped == Last(c.past.requests).body))
  {
    var s := RunAll(site, Start(listenFds), es);
    assert es[..|es|] == es;
    PluggedUpTo(site, listenFds, es, |es|);
    OkUpTo(site, listenFds, es, |es|);
    hide RunAll, FreshRun, WritesSucceed, Bytes, InOrder;
    assert Plugged(s, fd) && ConnOk(site.ceiling, s.clients[fd]);
    PipedAndLeft(site.ceiling, s.clients[fd]);
    assert AllGiven(s) ==> Given(s.clients[fd]);
  }
}
