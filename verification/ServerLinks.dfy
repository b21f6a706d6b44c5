/** What the tables keep in every run with fresh descriptors, runs in which CGI programs
    end their output early included: all but the CGI-write entries, which can then be
    stale, still name live clients that own them. */
module ServerLinks {
  import opened HttpParser
  import opened ServerModel
  import opened ServerTables

  /** Placed, but for what stands in the CGI-write table. */
  predicate Held(s: State, fd: int)
    requires fd in s.clients
  {
    var c := s.clients[fd];
    && c.fd == fd && c.listenFd in s.listenFds && c.state != CgiWriting
    && (c.state == CgiReading ==> c.pipeOut in s.cgiReadFds && s.cgiReadFds[c.pipeOut] == fd)
    && (c.state != CgiReading ==> c.pipeOut == -1 && c.pipeIn == -1)
  }

  predicate Linked(s: State) {
    && Disjoint(s)
    && (forall fd :: fd in s.clients ==> Held(s, fd))
    && (forall fd :: fd in s.cgiReadFds ==> ReadEntry(s, fd))
  }

  /** The tables with one client replaced, or one entry dropped, are linked if what the
      change touches is. */
  lemma PutLinked(s: State, c: Conn)
    requires Linked(s) && c.fd in s.clients
    requires var b := s.clients[c.fd];
             c.pipeOut == b.pipeOut && c.listenFd == b.listenFd && c.state != CgiWriting
             && (c.state == CgiReading <==> b.state == CgiReading) && (c.state != CgiReading ==> c.pipeIn == -1)
    ensures Linked(Put(s, c))
  {
    var t := Put(s, c);
    assert Held(s, c.fd);
    forall fd | fd in t.clients ensures Held(t, fd) { assert Held(s, fd); }
    forall fd | fd in t.cgiReadFds ensures ReadEntry(t, fd) { assert ReadEntry(s, fd); }
  }

  lemma RegisterLinked(s: State, c: Conn, o: Oracle)
    requires Linked(s) && c.fd in s.clients && s.clients[c.fd].state != CgiReading
    requires c.listenFd == s.clients[c.fd].listenFd && c.state != CgiWriting
    requires c.state != CgiReading ==> c.pipeIn == -1 && c.pipeOut == -1
    requires c.state == CgiReading ==> c.pipeOut == o.pipeOut && (c.pipeIn == -1 || c.pipeIn == o.pipeIn)
    requires FreshPipes(s, o)
    ensures Linked(Register(s, c))
  {
    var t := Register(s, c);
    assert Held(s, c.fd);
    forall fd | fd in t.clients ensures Held(t, fd) {
      if fd in s.clients { assert Held(s, fd); }
    }
    forall fd | fd in t.cgiReadFds ensures ReadEntry(t, fd) {
      if fd in s.cgiReadFds { assert ReadEntry(s, fd) && Held(s, s.cgiReadFds[fd]); }
    }
  }

  lemma AcceptLinked(s: State, listenFd: int, newFd: int)
    requires Linked(s) && listenFd in s.listenFds && (newFd < 0 || Unused(s, newFd))
    ensures Linked(Accept(s, listenFd, newFd))
  {
    if newFd >= 0 {
      var t := Accept(s, listenFd, newFd);
      forall fd | fd in t.clients ensures Held(t, fd) { if fd != newFd { assert Held(s, fd); } }
      forall fd | fd in t.cgiReadFds ensures ReadEntry(t, fd) { assert ReadEntry(s, fd); }
    }
  }

  lemma CloseLinked(s: State, fd: int)
    requires Linked(s)
    ensures Linked(Close(s, fd))
  {
    if fd in s.clients {
      var t := Close(s, fd);
      assert Held(s, fd);
      forall k | k in t.clients ensures Held(t, k) { assert Held(s, k); }
      forall k | k in t.cgiReadFds ensures ReadEntry(t, k) { assert ReadEntry(s, k); }
    }
  }

  lemma {:induction false} CloseAllLinked(s: State, fds: seq<int>)
    requires Linked(s)
    ensures Linked(CloseAll(s, fds))
    decreases |fds|
  {
    if fds != [] {
      CloseLinked(s, fds[0]);
      hide Linked;
      CloseAllLinked(Close(s, fds[0]), fds[1..]);
    }
  }

  lemma ReadLinked(site: Site, s: State, fd: int, data: string, o: Oracle)
    requires site.servers != [] && Linked(s) && fd in s.clients && s.clients[fd].state == Reading
    requires FreshPipes(s, o)
    ensures Linked(Read(site, s, fd, data, o))
  {
    assert Held(s, fd);
    if data == "" {
      CloseLinked(s, fd);
    } else {
      var c := s.clients[fd];
      FeedConnPipes(site, DefaultServer(site, s, c), c, data, o);
      hide Linked, FeedConn, Register;
      RegisterLinked(s, FeedConn(site, DefaultServer(site, s, c), c, data, o), o);
    }
  }

  lemma WriteLinked(site: Site, s: State, fd: int, n: int, o: Oracle)
    requires site.servers != [] && Linked(s) && fd in s.clients && FreshPipes(s, o)
    ensures Linked(Write(site, s, fd, n, o))
  {
    assert Held(s, fd);
    var c := s.clients[fd];
    if c.sendBuffer != "" && n <= 0 {
      CloseLinked(s, fd);
    } else {
      var d := if c.sendBuffer != "" then SendSome(c, n) else c;
      PutLinked(s, d);
      SameUnused(s, d, o);
      hide Linked, AllSent, FreshPipes;
      if d.sendBuffer == "" { AllSentLinked(site, Put(s, d), d, o); }
    }
  }

  lemma AllSentLinked(site: Site, s: State, c: Conn, o: Oracle)
    requires site.servers != [] && Linked(s) && c.fd in s.clients && s.clients[c.fd] == c && FreshPipes(s, o)
    ensures Linked(AllSent(site, s, c, o))
  {
    assert Held(s, c.fd);
    if c.keepAlive && c.state == Sending {
      var index := DefaultServer(site, s, c);
      FeedConnPipes(site, index, Renewed(c), "", o);
      hide Linked, FeedConn, Register;
      RegisterLinked(s, FeedConn(site, index, Renewed(c), "", o), o);
    } else {
      CloseLinked(s, c.fd);
    }
  }

  lemma UnplugLinked(s: State, fd: int, c: Conn)
    requires Linked(s) && c.fd in s.clients
    requires var b := s.clients[c.fd]; c.pipeOut == b.pipeOut && c.listenFd == b.listenFd && c.state == b.state
    ensures Linked(Unplug(s, fd, c))
  {
    var t := Unplug(s, fd, c);
    assert Held(s, c.fd);
    forall k | k in t.clients ensures Held(t, k) { assert Held(s, k); }
    forall k | k in t.cgiReadFds ensures ReadEntry(t, k) { assert ReadEntry(s, k); }
  }

  /** Whatever the entry names: its client, another program's client, or none. */
  lemma WriteCgiLinked(s: State, fd: int, n: int)
    requires Linked(s) && fd in s.cgiWriteFds
    ensures Linked(WriteCgi(s, fd, n))
  {
    if s.cgiWriteFds[fd] in s.clients {
      var c := s.clients[s.cgiWriteFds[fd]];
      assert Held(s, s.cgiWriteFds[fd]);
      if c.cgiBody == "" || n <= 0 {
        UnplugLinked(s, fd, c);
      } else {
        var d := PipeSome(c, n);
        PutLinked(s, d);
        UnplugLinked(s, fd, d);
      }
    }
  }

  lemma ReadCgiLinked(site: Site, s: State, fd: int, data: string, moment: Moment)
    requires Linked(s) && fd in s.cgiReadFds
    ensures Linked(ReadCgi(site, s, fd, data, moment))
  {
    assert ReadEntry(s, fd);
    var c := s.clients[s.cgiReadFds[fd]];
    assert Held(s, s.cgiReadFds[fd]);
    if data != "" {
      PutLinked(s, Collect(c, data));
    } else {
      var t := ReadCgi(site, s, fd, data, moment);
      forall k | k in t.clients ensures Held(t, k) { assert Held(s, k); }
      forall k | k in t.cgiReadFds ensures ReadEntry(t, k) { assert ReadEntry(s, k); }
    }
  }

  lemma StepLinked(site: Site, s: State, e: Event)
    requires site.servers != [] && Linked(s) && FreshEvent(s, e)
    ensures Linked(Dispatch(site, s, e))
  {
    match e
    case Timeouts(fds) => CloseAllLinked(s, fds);
    case Ready(fd, input, output, io) =>
      hide Linked;
      if fd in s.listenFds {
        AcceptLinked(s, fd, io.newFd);
      } else if fd in s.cgiWriteFds {
        WriteCgiLinked(s, fd, io.count);
      } else if fd in s.cgiReadFds {
        ReadCgiLinked(site, s, fd, io.data, io.oracle.moment);
      } else if fd in s.clients {
        if input && s.clients[fd].state == Reading {
          ReadLinked(site, s, fd, io.data, io.oracle);
        } else if input || output {
          WriteLinked(site, s, fd, io.count, io.oracle);
        }
      }
  }

  lemma StartLinked(listenFds: map<int, nat>)
    ensures Linked(Start(listenFds))
  {
  }

  lemma OneMoreLinked(site: Site, listenFds: map<int, nat>, es: seq<Event>, n: nat, s: State)
    requires site.servers != [] && n < |es| && s == RunAll(site, Start(listenFds), es[..n])
    requires Linked(s) && FreshEvent(s, es[n])
    ensures Linked(RunAll(site, Start(listenFds), es[..n + 1]))
  {
    hide *;
    RunOneMore(site, Start(listenFds), es, n);
    StepLinked(site, s, es[n]);
  }

  /** At every moment of every run with fresh descriptors. */
  lemma {:induction false} LinkedInEveryRun(site: Site, listenFds: map<int, nat>, es: seq<Event>, n: nat)
    requires site.servers != [] && n <= |es| && FreshRun(site, Start(listenFds), es)
    ensures Linked(RunAll(site, Start(listenFds), es[..n]))
  {
    if n == 0 {
      StartLinked(listenFds);
    } else {
      var s := RunAll(site, Start(listenFds), es[..n - 1]);
      assert FreshEvent(s, es[n - 1]) by { hide FreshEvent, RunAll; }
      LinkedInEveryRun(site, listenFds, es, n - 1);
      hide *;
      OneMoreLinked(site, listenFds, es, n - 1, s);
    }
  }

  /** CGI-read entries and clients that wait for a CGI program are in bijection, early
      ends of output or not. */
  lemma ReadersOneToOne(s: State)
    requires Linked(s)
    ensures forall fd :: fd in s.cgiReadFds ==>
              s.cgiReadFds[fd] in s.clients && s.clients[s.cgiReadFds[fd]].state == CgiReading
    ensures forall a, b :: a in s.cgiReadFds && b in s.cgiReadFds && s.cgiReadFds[a] == s.cgiReadFds[b] ==> a == b
    ensures forall k :: k in s.clients && s.clients[k].state == CgiReading ==> k in s.cgiReadFds.Values
  {
    forall fd | fd in s.cgiReadFds
      ensures s.cgiReadFds[fd] in s.clients && s.clients[s.cgiReadFds[fd]].state == CgiReading
              && s.clients[s.cgiReadFds[fd]].pipeOut == fd
    {
      assert ReadEntry(s, fd) && Held(s, s.cgiReadFds[fd]);
    }
    forall k | k in s.clients && s.clients[k].state == CgiReading ensures k in s.cgiReadFds.Values {
      assert Held(s, k);
    }
  }
}
