/** Table consistency: in every run the fd tables stay disjoint and every CGI entry
    belongs to a live client, exactly as long as no CGI program ends its output
    while its input is still registered. */
module ServerTables {
  import opened HttpParser
  import opened ServerModel

  /** The tables and the client's own fields agree about its pipes. */
  predicate Placed(s: State, fd: int)
    requires fd in s.clients
  {
    var c := s.clients[fd];
    && c.fd == fd && c.listenFd in s.listenFds
    && c.state != CgiWriting && c.pipeIn >= -1
    && (c.state == CgiReading ==> c.pipeOut in s.cgiReadFds && s.cgiReadFds[c.pipeOut] == fd)
    && (c.state != CgiReading ==> c.pipeOut == -1 && c.pipeIn == -1)
    && (c.pipeIn >= 0 ==> c.pipeIn in s.cgiWriteFds && s.cgiWriteFds[c.pipeIn] == fd)
  }

  predicate ReadEntry(s: State, fd: int)
    requires fd in s.cgiReadFds
  {
    fd >= 0 && s.cgiReadFds[fd] in s.clients && s.clients[s.cgiReadFds[fd]].pipeOut == fd
  }

  predicate WriteEntry(s: State, fd: int)
    requires fd in s.cgiWriteFds
  {
    fd >= 0 && s.cgiWriteFds[fd] in s.clients && s.clients[s.cgiWriteFds[fd]].pipeIn == fd
  }

  predicate Disjoint(s: State) {
    s.listenFds.Keys !! s.clients.Keys !! s.cgiReadFds.Keys !! s.cgiWriteFds.Keys
  }

  /** The tables are disjoint; every CGI entry points to a live client that owns
      the fd; and every client with a CGI program running is entered. */
  predicate Consistent(s: State) {
    && Disjoint(s)
    && (forall fd :: fd in s.clients ==> Placed(s, fd))
    && (forall fd :: fd in s.cgiReadFds ==> ReadEntry(s, fd))
    && (forall fd :: fd in s.cgiWriteFds ==> WriteEntry(s, fd))
  }

  predicate Unused(s: State, fd: int) {
    fd !in s.listenFds && fd !in s.clients && fd !in s.cgiReadFds && fd !in s.cgiWriteFds
  }

  /** What the kernel promises: a new descriptor is none of those in use. */
  predicate FreshPipes(s: State, o: Oracle) {
    o.pipeIn >= 0 && o.pipeOut >= 0 && o.pipeIn != o.pipeOut && Unused(s, o.pipeIn) && Unused(s, o.pipeOut)
  }

  predicate FreshEvent(s: State, e: Event) {
    e.Ready? ==> (e.io.newFd < 0 || Unused(s, e.io.newFd)) && FreshPipes(s, e.io.oracle)
  }

  /** The event is the end of a CGI program's output while the program's input
      pipe is still open, with bytes of the body unwritten. */
  predicate EarlyEof(s: State, e: Event) {
    && e.Ready? && e.fd !in s.listenFds && e.fd !in s.cgiWriteFds && e.fd in s.cgiReadFds
    && e.io.data == ""
    && s.cgiReadFds[e.fd] in s.clients && s.clients[s.cgiReadFds[e.fd]].pipeIn >= 0
  }

  // ----- handler by handler -----

  /** A client whose pipes do not change can change in every other way. */
  lemma PutKeeps(s: State, c: Conn)
    requires Consistent(s) && c.fd in s.clients
    requires var b := s.clients[c.fd];
             c.pipeIn == b.pipeIn && c.pipeOut == b.pipeOut && c.listenFd == b.listenFd
             && c.state != CgiWriting && (c.state == CgiReading <==> b.state == CgiReading)
    ensures Consistent(Put(s, c))
  {
    var t := Put(s, c);
    assert Placed(s, c.fd);
    forall fd | fd in t.clients ensures Placed(t, fd) { assert Placed(s, fd); }
    forall fd | fd in t.cgiReadFds ensures ReadEntry(t, fd) { assert ReadEntry(s, fd); }
    forall fd | fd in t.cgiWriteFds ensures WriteEntry(t, fd) { assert WriteEntry(s, fd); }
  }

  /** A client without CGI program either stays so or starts one on fresh pipes. */
  lemma RegisterKeeps(s: State, c: Conn, o: Oracle)
    requires Consistent(s) && c.fd in s.clients && s.clients[c.fd].state != CgiReading
    requires c.listenFd == s.clients[c.fd].listenFd && c.state != CgiWriting
    requires c.state != CgiReading ==> c.pipeIn == -1 && c.pipeOut == -1
    requires c.state == CgiReading ==> c.pipeOut == o.pipeOut && (c.pipeIn == -1 || c.pipeIn == o.pipeIn)
    requires FreshPipes(s, o)
    ensures Consistent(Register(s, c))
  {
    var t := Register(s, c);
    assert Placed(s, c.fd);
    forall fd | fd in t.clients ensures Placed(t, fd) {
      if fd in s.clients { assert Placed(s, fd); }
    }
    forall fd | fd in t.cgiReadFds ensures ReadEntry(t, fd) {
      if fd in s.cgiReadFds { assert ReadEntry(s, fd) && Placed(s, s.cgiReadFds[fd]); }
    }
    forall fd | fd in t.cgiWriteFds ensures WriteEntry(t, fd) {
      if fd in s.cgiWriteFds { assert WriteEntry(s, fd) && Placed(s, s.cgiWriteFds[fd]); }
    }
  }

  lemma AcceptKeeps(s: State, listenFd: int, newFd: int)
    requires Consistent(s) && listenFd in s.listenFds && (newFd < 0 || Unused(s, newFd))
    ensures Consistent(Accept(s, listenFd, newFd))
  {
    if newFd >= 0 {
      var t := Accept(s, listenFd, newFd);
      forall fd | fd in t.clients ensures Placed(t, fd) { if fd != newFd { assert Placed(s, fd); } }
      forall fd | fd in t.cgiReadFds ensures ReadEntry(t, fd) { assert ReadEntry(s, fd); }
      forall fd | fd in t.cgiWriteFds ensures WriteEntry(t, fd) { assert WriteEntry(s, fd); }
    }
  }

  lemma CloseKeeps(s: State, fd: int)
    requires Consistent(s)
    ensures Consistent(Close(s, fd))
  {
    if fd in s.clients {
      var t := Close(s, fd);
      assert Placed(s, fd);
      forall k | k in t.clients ensures Placed(t, k) { assert Placed(s, k); }
      forall k | k in t.cgiReadFds ensures ReadEntry(t, k) { assert ReadEntry(s, k); }
      forall k | k in t.cgiWriteFds ensures WriteEntry(t, k) { assert WriteEntry(s, k); }
    }
  }

  lemma {:induction false} CloseAllKeeps(s: State, fds: seq<int>)
    requires Consistent(s)
    ensures Consistent(CloseAll(s, fds))
    decreases |fds|
  {
    if fds != [] {
      CloseKeeps(s, fds[0]);
      CloseAllKeeps(Close(s, fds[0]), fds[1..]);
    }
  }

  /** What feeding does to the fields the tables depend on. */
  lemma FeedConnPipes(site: Site, default: nat, c: Conn, data: string, o: Oracle)
    requires default < |site.servers|
    requires c.state == Reading && c.pipeIn == -1 && c.pipeOut == -1
    ensures var d := FeedConn(site, default, c, data, o);
            && d.fd == c.fd && d.listenFd == c.listenFd && d.state != CgiWriting
            && (d.state != CgiReading ==> d.pipeIn == -1 && d.pipeOut == -1)
            && (d.state == CgiReading ==> d.pipeOut == o.pipeOut && (d.pipeIn == -1 || d.pipeIn == o.pipeIn))
  {
    hide Feed, Decide;
  }

  lemma ReadKeeps(site: Site, s: State, fd: int, data: string, o: Oracle)
    requires site.servers != [] && Consistent(s) && fd in s.clients && s.clients[fd].state == Reading
    requires FreshPipes(s, o)
    ensures Consistent(Read(site, s, fd, data, o))
  {
    assert Placed(s, fd);
    if data == "" {
      CloseKeeps(s, fd);
    } else {
      var c := s.clients[fd];
      FeedConnPipes(site, DefaultServer(site, s, c), c, data, o);
      hide Consistent, FeedConn, Register;
      RegisterKeeps(s, FeedConn(site, DefaultServer(site, s, c), c, data, o), o);
    }
  }

  lemma WriteKeeps(site: Site, s: State, fd: int, n: int, o: Oracle)
    requires site.servers != [] && Consistent(s) && fd in s.clients
    requires FreshPipes(s, o)
    ensures Consistent(Write(site, s, fd, n, o))
  {
    assert Placed(s, fd);
    var c := s.clients[fd];
    if c.sendBuffer != "" && n <= 0 {
      CloseKeeps(s, fd);
    } else {
      var d := if c.sendBuffer != "" then SendSome(c, n) else c;
      PutKeeps(s, d);
      hide Consistent, AllSent, Unused;
      if d.sendBuffer == "" { AllSentKeeps(site, Put(s, d), d, o) by { SameUnused(s, d, o); } }
    }
  }

  lemma SameUnused(s: State, c: Conn, o: Oracle)
    requires c.fd in s.clients && FreshPipes(s, o)
    ensures FreshPipes(Put(s, c), o)
  {
  }

  lemma AllSentKeeps(site: Site, s: State, c: Conn, o: Oracle)
    requires site.servers != [] && Consistent(s) && c.fd in s.clients && s.clients[c.fd] == c
    requires FreshPipes(s, o)
    ensures Consistent(AllSent(site, s, c, o))
  {
    assert Placed(s, c.fd);
    if c.keepAlive && c.state == Sending {
      var index := DefaultServer(site, s, c);
      FeedConnPipes(site, index, Renewed(c), "", o);
      hide Consistent, FeedConn, Register;
      RegisterKeeps(s, FeedConn(site, index, Renewed(c), "", o), o);
    } else {
      CloseKeeps(s, c.fd);
    }
  }

  lemma UnplugKeeps(s: State, fd: int, c: Conn)
    requires Consistent(s) && fd in s.cgiWriteFds && s.cgiWriteFds[fd] == c.fd
    requires c.fd in s.clients
    requires var b := s.clients[c.fd];
             c.pipeIn == b.pipeIn && c.pipeOut == b.pipeOut && c.listenFd == b.listenFd && c.state == b.state
    ensures Consistent(Unplug(s, fd, c))
  {
    var t := Unplug(s, fd, c);
    assert Placed(s, c.fd) && WriteEntry(s, fd);
    forall k | k in t.clients ensures Placed(t, k) { assert Placed(s, k); }
    forall k | k in t.cgiReadFds ensures ReadEntry(t, k) { assert ReadEntry(s, k); }
    forall k | k in t.cgiWriteFds ensures WriteEntry(t, k) { assert WriteEntry(s, k); }
  }

  lemma WriteCgiKeeps(s: State, fd: int, n: int)
    requires Consistent(s) && fd in s.cgiWriteFds
    ensures Consistent(WriteCgi(s, fd, n))
  {
    assert WriteEntry(s, fd);
    var c := s.clients[s.cgiWriteFds[fd]];
    assert Placed(s, s.cgiWriteFds[fd]);
    if c.cgiBody == "" || n <= 0 {
      UnplugKeeps(s, fd, c);
    } else {
      var d := PipeSome(c, n);
      PutKeeps(s, d);
      UnplugKeeps(s, fd, d);
    }
  }

  /** The one transition that can break the tables, and exactly when it does. */
  lemma ReadCgiKeepsIff(site: Site, s: State, fd: int, data: string, moment: Moment)
    requires Consistent(s) && fd in s.cgiReadFds
    ensures Consistent(ReadCgi(site, s, fd, data, moment))
            <==> !(data == "" && s.clients[s.cgiReadFds[fd]].pipeIn >= 0)
  {
    assert ReadEntry(s, fd);
    var k := s.cgiReadFds[fd];
    var c := s.clients[k];
    assert Placed(s, k);
    if data != "" {
      PutKeeps(s, Collect(c, data));
    } else {
      var t := ReadCgi(site, s, fd, data, moment);
      if c.pipeIn >= 0 {
        assert c.pipeIn in t.cgiWriteFds && !WriteEntry(t, c.pipeIn);
      } else {
        forall i | i in t.clients ensures Placed(t, i) { assert Placed(s, i); }
        forall i | i in t.cgiReadFds ensures ReadEntry(t, i) { assert ReadEntry(s, i); }
        forall i | i in t.cgiWriteFds ensures WriteEntry(t, i) { assert WriteEntry(s, i); }
      }
    }
  }

  /** A step from consistent tables, with fresh descriptors, leads to consistent
      tables if and only if it is not an early end of a CGI program's output. */
  lemma StepKeepsTablesIff(site: Site, s: State, e: Event)
    requires site.servers != [] && Consistent(s) && FreshEvent(s, e)
    ensures Consistent(Dispatch(site, s, e)) <==> !EarlyEof(s, e)
  {
    match e
    case Timeouts(fds) => CloseAllKeeps(s, fds);
    case Ready(fd, input, output, io) =>
      if fd in s.listenFds {
        AcceptKeeps(s, fd, io.newFd);
      } else if fd in s.cgiWriteFds {
        WriteCgiKeeps(s, fd, io.count);
      } else if fd in s.cgiReadFds {
        assert ReadEntry(s, fd);
        ReadCgiKeepsIff(site, s, fd, io.data, io.oracle.moment);
      } else if fd in s.clients {
        if input && s.clients[fd].state == Reading {
          ReadKeeps(site, s, fd, io.data, io.oracle);
        } else if input || output {
          WriteKeeps(site, s, fd, io.count, io.oracle);
        }
      }
  }

  // ----- runs -----

  /** The state before the first event: listening sockets only. */
  function Start(listenFds: map<int, nat>): State { State(listenFds, map[], map[], map[], []) }

  ghost function RunAll(site: Site, s: State, es: seq<Event>): State
    requires site.servers != []
  {
    if es == [] then s else Dispatch(site, RunAll(site, s, es[..|es| - 1]), es[|es| - 1])
  }

  ghost predicate FreshRun(site: Site, s: State, es: seq<Event>)
    requires site.servers != []
  {
    forall n :: 0 <= n < |es| ==> FreshEvent(RunAll(site, s, es[..n]), es[n])
  }

  ghost predicate NoEarlyEof(site: Site, s: State, es: seq<Event>)
    requires site.servers != []
  {
    forall n :: 0 <= n < |es| ==> !EarlyEof(RunAll(site, s, es[..n]), es[n])
  }

  lemma RunOneMore(site: Site, s: State, es: seq<Event>, n: nat)
    requires site.servers != [] && n < |es|
    ensures RunAll(site, s, es[..n + 1]) == Dispatch(site, RunAll(site, s, es[..n]), es[n])
  {
    assert es[..n + 1][..n] == es[..n];
    hide Dispatch;
  }

  lemma OneMoreConsistent(site: Site, listenFds: map<int, nat>, es: seq<Event>, n: nat, s: State)
    requires site.servers != [] && n < |es| && s == RunAll(site, Start(listenFds), es[..n])
    requires Consistent(s) && FreshEvent(s, es[n]) && !EarlyEof(s, es[n])
    ensures Consistent(RunAll(site, Start(listenFds), es[..n + 1]))
  {
    hide *;
    RunOneMore(site, Start(listenFds), es, n);
    StepKeepsTablesIff(site, s, es[n]);
  }

  lemma {:induction false} TablesUpTo(site: Site, listenFds: map<int, nat>, es: seq<Event>, n: nat)
    requires site.servers != [] && n <= |es|
    requires FreshRun(site, Start(listenFds), es) && NoEarlyEof(site, Start(listenFds), es)
    ensures Consistent(RunAll(site, Start(listenFds), es[..n]))
  {
    if n > 0 {
      var s := RunAll(site, Start(listenFds), es[..n - 1]);
      assert FreshEvent(s, es[n - 1]) && !EarlyEof(s, es[n - 1]) by { hide EarlyEof, FreshEvent, RunAll; }
      TablesUpTo(site, listenFds, es, n - 1);
      hide *;
      OneMoreConsistent(site, listenFds, es, n - 1, s);
    }
  }

  /** In a run with fresh descriptors the tables are consistent at every moment if
      and only if no CGI program ends its output early. */
  lemma TablesInEveryRun(site: Site, listenFds: map<int, nat>, es: seq<Event>)
    requires site.servers != [] && FreshRun(site, Start(listenFds), es)
    ensures (forall n :: 0 <= n <= |es| ==> Consistent(RunAll(site, Start(listenFds), es[..n])))
            <==> NoEarlyEof(site, Start(listenFds), es)
  {
    var s := Start(listenFds);
    hide Consistent, EarlyEof, FreshEvent, Dispatch, RunAll;
    if NoEarlyEof(site, s, es) {
      forall n | 0 <= n <= |es| ensures Consistent(RunAll(site, s, es[..n])) { TablesUpTo(site, listenFds, es, n); }
    }
    if forall n :: 0 <= n <= |es| ==> Consistent(RunAll(site, s, es[..n])) {
      forall n | 0 <= n < |es| ensures !EarlyEof(RunAll(site, s, es[..n]), es[n]) {
        RunOneMore(site, s, es, n);
        assert Consistent(RunAll(site, s, es[..n])) && Consistent(RunAll(site, s, es[..n + 1]));
        StepKeepsTablesIff(site, RunAll(site, s, es[..n]), es[n]);
      }
    }
  }
}
