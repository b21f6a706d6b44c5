/** The event loop of webserv/src/Server.cpp as a step system on values: what each
    handler does to the fd tables and to the connection it serves. Routing, error
    pages and the making of a response from CGI output are functions of the request
    fixed for the run; the kernel's descriptors, bytes and counts come in with the
    event. */
module ServerModel {
  import opened HttpParser
  import opened Routing

  /** CLIENT_DONE is never set by the code. */
  datatype ClientState = Reading | Sending | CgiWriting | CgiReading

  /** A moment in the life of everything outside a request: files, the clock, how programs
      have ended, and sessions, with what is remembered of them for the client. */
  type Moment = nat

  /** What went into a response when it was made: the output of the CGI program started
      for the request, if one was, and the moment. */
  datatype Made = Made(output: string, moment: Moment)

  /** What has passed over a connection: bytes received, requests read from them (an
      unreadable one counts) and when each was read, responses queued and what went
      into each, bytes sent, bytes of the last request's body handed to its CGI
      program, and bytes read from that program. */
  datatype History = History(
    received: string, requests: seq<Message>, asked: seq<Moment>, responses: seq<string>, made: seq<Made>,
    sent: string, piped: string, read: string)

  /** A Client object; a closed pipe is -1. */
  datatype Conn = Conn(
    fd: int, listenFd: int, state: ClientState, keepAlive: bool, request: Parser,
    sendBuffer: string, pipeIn: int, pipeOut: int, cgiBody: string, cgiOutput: string, past: History)

  /** The tables of the Server object; CGI entries name the client by its fd. */
  datatype State = State(
    listenFds: map<int, nat>, clients: map<int, Conn>,
    cgiReadFds: map<int, int>, cgiWriteFds: map<int, int>, closed: seq<Conn>)

  /** What routing decides for a request: a response, or a CGI program. */
  datatype Routed = Immediate(response: string) | StartCgi

  /** The configuration, and what the code not modelled here makes of a request that
      came in through a server block's socket: an error page, given a status code and
      the client's keep-alive flag, what routing decides, and the response made from
      the output of a CGI program. */
  datatype Site = Site(
    servers: seq<ServerConfig>, ceiling: nat,
    page: (nat, int, bool, Message, Moment) -> string,
    route: (nat, Message, Moment) -> Routed,
    finish: (Message, string, Moment) -> string)

  /** What the kernel has ready while a request is handled: the pipe ends of a CGI
      program, should one be started, and the moment. */
  datatype Oracle = Oracle(pipeIn: int, pipeOut: int, moment: Moment)

  // ----- one connection -----

  const NO_PAST := History("", [], [], [], [], "", "", "")

  function NewConn(fd: int, listenFd: int): Conn {
    Conn(fd, listenFd, Reading, false, Parser(Blank(DEFAULT_BODY_LIMIT), ""), "", -1, -1, "", "", NO_PAST)
  }

  /** setSendBuffer with a response, and on to sending. */
  function Queue(c: Conn, response: string, made: Made): Conn {
    c.(sendBuffer := response, state := Sending,
       past := c.past.(responses := c.past.responses + [response], made := c.past.made + [made]))
  }

  datatype Decision = Refuse(code: int) | Handle

  /** Whether the server itself answers with an error: the parser failed, or the
      body exceeds the limit of the location (else server) that will serve it. */
  ghost function Decide(site: Site, default: nat, m: Message): Decision
    requires default < |site.servers|
  {
    if m.phase == Error then Refuse(if m.errorCode == 0 then 400 else m.errorCode)
    else
      var srv := site.servers[ServerFor(site.servers, default, Header(m.headers, "host"))];
      if |m.body| > LimitIn(srv, m.path) then Refuse(413) else Handle
  }

  /** startCgiForClient, the setup having succeeded. Without a body the write end
      is closed at once. */
  function Launch(c: Conn, pipeIn: int, pipeOut: int): Conn {
    var body := c.request.m.body;
    c.(cgiBody := body, cgiOutput := "", pipeIn := if body != "" then pipeIn else -1, pipeOut := pipeOut,
       state := CgiReading, past := c.past.(piped := "", read := ""))
  }

  /** The rest of feedAndProcess, with a request read or unreadable. */
  ghost function Process(site: Site, default: nat, c: Conn, o: Oracle): Conn
    requires default < |site.servers|
  {
    var m := c.request.m;
    match Decide(site, default, m)
    case Refuse(code) =>
      var flag := if m.phase == Error then c.keepAlive else m.keepAlive;
      Queue(c.(keepAlive := false), site.page(default, code, flag, m, o.moment), Made("", o.moment))
    case Handle =>
      var d := c.(keepAlive := m.keepAlive);
      match site.route(default, m, o.moment)
      case Immediate(response) => Queue(d, response, Made("", o.moment))
      case StartCgi => Launch(d, o.pipeIn, o.pipeOut)
  }

  /** The message the parser has ended with is the next request of the connection. */
  function Asked(c: Conn, moment: Moment): Conn {
    c.(past := c.past.(requests := c.past.requests + [c.request.m], asked := c.past.asked + [moment]))
  }

  /** feedAndProcess. */
  ghost function FeedConn(site: Site, default: nat, c: Conn, data: string, o: Oracle): Conn
    requires default < |site.servers|
  {
    var p := Feed(c.request, data, site.ceiling);
    var d := c.(request := p, past := c.past.(received := c.past.received + data));
    if Done(p.m) then Process(site, default, Asked(d, o.moment), o) else d
  }

  /** n bytes taken off the front, or all of them. */
  function Taken(s: string, n: int): string
    requires n > 0
  {
    if n >= |s| then s else s[..n]
  }

  function Left(s: string, n: int): string
    requires n > 0
  {
    if n >= |s| then "" else s[n..]
  }

  function SendSome(c: Conn, n: int): Conn
    requires n > 0
  {
    c.(sendBuffer := Left(c.sendBuffer, n), past := c.past.(sent := c.past.sent + Taken(c.sendBuffer, n)))
  }

  function PipeSome(c: Conn, n: int): Conn
    requires n > 0
  {
    c.(cgiBody := Left(c.cgiBody, n), past := c.past.(piped := c.past.piped + Taken(c.cgiBody, n)))
  }

  // ----- the tables -----

  /** The server block whose socket accepted the connection. */
  function DefaultServer(site: Site, s: State, c: Conn): (r: nat)
    requires site.servers != []
    ensures r < |site.servers|
  {
    if c.listenFd in s.listenFds && s.listenFds[c.listenFd] < |site.servers| then s.listenFds[c.listenFd] else 0
  }

  function Put(s: State, c: Conn): State { s.(clients := s.clients[c.fd := c]) }

  /** Put the connection, and enter the pipes of a CGI program it has started. */
  function Register(s: State, c: Conn): State {
    if c.state != CgiReading then Put(s, c)
    else
      Put(s, c).(cgiReadFds := s.cgiReadFds[c.pipeOut := c.fd],
                 cgiWriteFds := if c.pipeIn >= 0 then s.cgiWriteFds[c.pipeIn := c.fd] else s.cgiWriteFds)
  }

  function Accept(s: State, listenFd: int, newFd: int): State {
    if newFd < 0 then s else Put(s, NewConn(newFd, listenFd))
  }

  /** closeClient. */
  function Close(s: State, fd: int): State {
    if fd !in s.clients then s
    else
      var c := s.clients[fd];
      s.(clients := s.clients - {fd},
         cgiWriteFds := if c.pipeIn >= 0 then s.cgiWriteFds - {c.pipeIn} else s.cgiWriteFds,
         cgiReadFds := if c.pipeOut >= 0 then s.cgiReadFds - {c.pipeOut} else s.cgiReadFds,
         closed := s.closed + [c])
  }

  /** readClient; no data stands for recv returning 0 or less. */
  ghost function Read(site: Site, s: State, fd: int, data: string, o: Oracle): State
    requires site.servers != [] && fd in s.clients
  {
    if data == "" then Close(s, fd)
    else
      var c := s.clients[fd];
      Register(s, FeedConn(site, DefaultServer(site, s, c), c, data, o))
  }

  /** writeClient; n is what send returns. */
  ghost function Write(site: Site, s: State, fd: int, n: int, o: Oracle): State
    requires site.servers != [] && fd in s.clients
  {
    var c := s.clients[fd];
    if c.sendBuffer != "" && n <= 0 then Close(s, fd)
    else
      var d := if c.sendBuffer != "" then SendSome(c, n) else c;
      if d.sendBuffer != "" then Put(s, d) else AllSent(site, Put(s, d), d, o)
  }

  /** The client as it waits for the next request of a kept-alive connection. */
  function Renewed(c: Conn): Conn { c.(request := Reset(c.request), state := Reading) }

  /** writeClient with nothing left to send: on to the next request, or close. */
  ghost function AllSent(site: Site, s: State, c: Conn, o: Oracle): State
    requires site.servers != []
  {
    if c.keepAlive && c.state == Sending then
      Register(s, FeedConn(site, DefaultServer(site, s, c), Renewed(c), "", o))
    else Close(s, c.fd)
  }

  function Unplug(s: State, fd: int, c: Conn): State {
    Put(s, c.(pipeIn := -1)).(cgiWriteFds := s.cgiWriteFds - {fd})
  }

  /** writeCgi; n is what write returns. */
  function WriteCgi(s: State, fd: int, n: int): State
    requires fd in s.cgiWriteFds
  {
    if s.cgiWriteFds[fd] !in s.clients then s // a stale entry; its descriptor is closed
    else
      var c := s.clients[s.cgiWriteFds[fd]];
      if c.cgiBody == "" || n <= 0 then Unplug(s, fd, c)
      else
        var d := PipeSome(c, n);
        if d.cgiBody == "" then Unplug(s, fd, d) else Put(s, d)
  }

  /** readCgi, with bytes read. */
  function Collect(c: Conn, data: string): Conn {
    c.(cgiOutput := c.cgiOutput + data, past := c.past.(read := c.past.read + data))
  }

  /** readCgi at the end of the output, and finishCgi. */
  function Finished(site: Site, c: Conn, moment: Moment): Conn {
    Queue(c.(pipeIn := -1, pipeOut := -1), site.finish(c.request.m, c.cgiOutput, moment), Made(c.past.read, moment))
  }

  /** readCgi; no data stands for the end of the output. The write end is closed too,
      its entry is left. */
  function ReadCgi(site: Site, s: State, fd: int, data: string, moment: Moment): State
    requires fd in s.cgiReadFds
  {
    if s.cgiReadFds[fd] !in s.clients then s // never so (see ServerLinks)
    else
      var c := s.clients[s.cgiReadFds[fd]];
      if data != "" then Put(s, Collect(c, data))
      else Put(s, Finished(site, c, moment)).(cgiReadFds := s.cgiReadFds - {fd})
  }

  // ----- the loop -----

  /** The results of the system calls made for one readiness notification. */
  datatype Io = Io(newFd: int, data: string, count: int, oracle: Oracle)

  datatype Event =
    | Ready(fd: int, input: bool, output: bool, io: Io)
    | Timeouts(fds: seq<int>)

  function CloseAll(s: State, fds: seq<int>): State
    decreases |fds|
  {
    if fds == [] then s else CloseAll(Close(s, fds[0]), fds[1..])
  }

  // ----- where the code does not return -----

  /** readClient comes to the looping case of feed. */
  predicate ReadHangs(site: Site, c: Conn, data: string) {
    data != "" && Spins(Feed(c.request, data, site.ceiling))
  }

  /** writeClient has sent everything, and the next pipelined request does. */
  predicate NextHangs(site: Site, c: Conn) {
    c.keepAlive && c.state == Sending && Spins(Feed(Reset(c.request), "", site.ceiling))
  }

  predicate WriteHangs(site: Site, c: Conn, n: int) {
    (c.sendBuffer == "" || (n > 0 && Left(c.sendBuffer, n) == "")) && NextHangs(site, c)
  }

  /** The event brings the server to the looping case; it handles no other after it. */
  predicate Hangs(site: Site, s: State, e: Event) {
    && e.Ready? && e.fd !in s.listenFds && e.fd !in s.cgiWriteFds && e.fd !in s.cgiReadFds && e.fd in s.clients
    && var c := s.clients[e.fd];
       if e.input && c.state == Reading then ReadHangs(site, c, e.io.data)
       else (e.input || e.output) && WriteHangs(site, c, e.io.count)
  }

  /** One round of the loop in Server::run. */
  ghost function Dispatch(site: Site, s: State, e: Event): State
    requires site.servers != []
  {
    match e
    case Timeouts(fds) => CloseAll(s, fds)
    case Ready(fd, input, output, io) =>
      if fd in s.listenFds then Accept(s, fd, io.newFd)
      else if fd in s.cgiWriteFds then WriteCgi(s, fd, io.count)
      else if fd in s.cgiReadFds then ReadCgi(site, s, fd, io.data, io.oracle.moment)
      else if fd in s.clients then
        if input && s.clients[fd].state == Reading then Read(site, s, fd, io.data, io.oracle)
        else if input || output then Write(site, s, fd, io.count, io.oracle)
        else s
      else s
  }
}
