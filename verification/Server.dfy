/** The Client and Server objects of webserv/src/Client.cpp and Server.cpp. Their
    handlers update the client, its parser and the fd tables in place; each is
    proved to do what the step of the same name in ServerModel says. */
module ServerObject {
  import opened HttpParser
  import opened HttpObject
  import opened Routing
  import opened ServerModel
  import opened ServerTables

  class Client {
    const fd: int
    const listenFd: int
    const request: HttpRequest
    var state: ClientState
    var keepAlive: bool
    var sendBuffer: string
    var pipeIn: int       // the CgiHandler's ends of its pipes, -1 when closed
    var pipeOut: int
    var cgiBodyToWrite: string
    var cgiOutput: string
    ghost var past: History

    ghost function View(): Conn
      reads this, request
    {
      Conn(fd, listenFd, state, keepAlive, request.View(), sendBuffer, pipeIn, pipeOut, cgiBodyToWrite, cgiOutput, past)
    }

    constructor (fd: int, listenFd: int)
      ensures View() == NewConn(fd, listenFd) && fresh(request)
      ensures this.fd == fd && this.listenFd == listenFd
    {
      this.fd, this.listenFd := fd, listenFd;
      request := new HttpRequest();
      state, keepAlive, sendBuffer := Reading, false, "";
      pipeIn, pipeOut, cgiBodyToWrite, cgiOutput := -1, -1, "", "";
      past := NO_PAST;
    }

    /** Every buffer set is a response to the last request; `made` is what went into it. */
    method SetSendBuffer(buf: string, ghost made: Made)
      modifies this
      ensures View() == Queue(old(View()), buf, made).(state := old(state))
    {
      sendBuffer := buf;
      past := past.(responses := past.responses + [buf], made := past.made + [made]);
    }

    method ConsumeSendBuffer(n: int)
      requires n > 0
      modifies this
      ensures View() == SendSome(old(View()), n)
    {
      past := past.(sent := past.sent + Taken(sendBuffer, n));
      if n >= |sendBuffer| {
        sendBuffer := "";
      } else {
        sendBuffer := sendBuffer[n..];
      }
    }

    method ConsumeCgiBody(n: int)
      requires n > 0
      modifies this
      ensures View() == PipeSome(old(View()), n)
    {
      past := past.(piped := past.piped + Taken(cgiBodyToWrite, n));
      if n >= |cgiBodyToWrite| {
        cgiBodyToWrite := "";
      } else {
        cgiBodyToWrite := cgiBodyToWrite[n..];
      }
    }

    method CloseWritePipe()
      modifies this`pipeIn
      ensures View() == old(View()).(pipeIn := if old(pipeIn) >= 0 then -1 else old(pipeIn))
    {
      if pipeIn >= 0 { pipeIn := -1; }
    }

    method ClosePipes()
      modifies this`pipeIn, this`pipeOut
      ensures View() == old(View()).(pipeIn := if old(pipeIn) >= 0 then -1 else old(pipeIn),
                                     pipeOut := if old(pipeOut) >= 0 then -1 else old(pipeOut))
    {
      if pipeIn >= 0 { pipeIn := -1; }
      if pipeOut >= 0 { pipeOut := -1; }
    }
  }

  class Server {
    const servers: seq<ServerConfig>
    const maxBodyCeiling: nat
    const page: (nat, int, bool, Message, Moment) -> string     // makeErrorResponse
    const route: (nat, Message, Moment) -> Routed         // handleRequest
    const finish: (Message, string, Moment) -> string     // the text built in finishCgi
    var listenFds: map<int, nat>
    var clients: map<int, Client>
    var cgiReadFds: map<int, Client>
    var cgiWriteFds: map<int, Client>
    ghost var closed: seq<Conn>

    ghost function Config(): Site { Site(servers, maxBodyCeiling, page, route, finish) }

    /** The objects that hold the connections. */
    ghost function Objects(): set<object>
      reads this
    {
      (set fd | fd in clients :: clients[fd] as object) + (set fd | fd in clients :: clients[fd].request as object)
    }

    ghost function View(): State
      reads this, Objects()
    {
      State(listenFds, map fd | fd in clients :: clients[fd].View(), FdsOf(cgiReadFds), FdsOf(cgiWriteFds), closed)
    }

    static ghost function FdsOf(table: map<int, Client>): map<int, int> { map fd | fd in table :: table[fd].fd }

    /** Every client object stands under its own fd and has its own parser; the CGI
        tables name live client objects. */
    ghost predicate Owned()
      reads this
    {
      && (forall fd :: fd in clients ==> clients[fd].fd == fd)
      && (forall a, b :: a in clients && b in clients && a != b ==> clients[a].request != clients[b].request)
      && (forall fd :: fd in cgiReadFds ==> Live(cgiReadFds[fd]))
      && (forall fd :: fd in cgiWriteFds ==> Live(cgiWriteFds[fd]))
    }

    ghost predicate Live(c: Client)
      reads this
    {
      c.fd in clients && clients[c.fd] == c
    }

    ghost predicate Valid()
      reads this, Objects()
    {
      Configured() && Owned() && Consistent(View())
    }

    ghost predicate Configured()
      reads this`listenFds
    {
      && servers != [] && IsCeiling(maxBodyCeiling, servers)
      && (forall fd :: fd in listenFds ==> listenFds[fd] < |servers|)
    }

    /** init(), given the sockets opened, one for each server block. */
    constructor (servers: seq<ServerConfig>, sockets: seq<int>, page: (nat, int, bool, Message, Moment) -> string,
                 route: (nat, Message, Moment) -> Routed, finish: (Message, string, Moment) -> string)
      requires servers != [] && |sockets| == |servers|
      ensures Valid() && View() == Start(listenFds) && this.servers == servers
      ensures listenFds.Keys == (set fd | fd in sockets)
      ensures forall fd :: fd in listenFds ==> listenFds[fd] < |servers| && sockets[listenFds[fd]] == fd
    {
      var ceiling := Ceiling(servers);
      this.servers, maxBodyCeiling := servers, ceiling;
      this.page, this.route, this.finish := page, route, finish;
      clients, cgiReadFds, cgiWriteFds := map[], map[], map[];
      closed := [];
      listenFds := map[];
      new;
      for i := 0 to |sockets|
        invariant listenFds.Keys == (set fd | fd in sockets[..i])
        invariant forall fd :: fd in listenFds ==> listenFds[fd] < i && sockets[listenFds[fd]] == fd
        invariant clients == map[] && cgiReadFds == map[] && cgiWriteFds == map[] && closed == []
      {
        listenFds := listenFds[sockets[i] := i];
      }
      assert sockets[..|sockets|] == sockets;
    }

    // ----- one client -----

    /** startCgiForClient, the setup having succeeded with these pipe ends. */
    method StartCgiForClient(client: Client, writefd: int, readfd: int)
      requires Live(client) && Owned()
      requires client.state == Reading && writefd >= 0 && readfd >= 0
      modifies this`cgiReadFds, this`cgiWriteFds, client
      ensures Owned()
      ensures client.View() == Launch(old(client.View()), writefd, readfd)
      ensures cgiReadFds == old(cgiReadFds)[readfd := client]
      ensures cgiWriteFds == if client.pipeIn >= 0 then old(cgiWriteFds)[writefd := client] else old(cgiWriteFds)
    {
      client.pipeIn := writefd;
      client.pipeOut := readfd;
      var body := client.request.m.body;
      client.cgiBodyToWrite := body;
      client.cgiOutput := "";
      client.past := client.past.(piped := "", read := "");

      if body != "" && writefd >= 0 {
        client.state := CgiWriting;
        cgiWriteFds := cgiWriteFds[writefd := client];
      } else {
        client.CloseWritePipe();
      }

      if readfd >= 0 {
        cgiReadFds := cgiReadFds[readfd := client];
        client.state := CgiReading;
      }
    }

    /** The limit processRequest enforces: the location's, when it sets one, else
        the server's. */
    method BodyLimit(client: Client) returns (maxBody: nat)
      requires client.listenFd in listenFds && listenFds[client.listenFd] < |servers|
      ensures var m := client.request.m;
              maxBody == LimitIn(servers[ServerFor(servers, listenFds[client.listenFd], Header(m.headers, "host"))], m.path)
    {
      var host := client.request.GetHeader("host");
      var index := FindServer(servers, listenFds[client.listenFd], host);
      var srv := servers[index];
      var bodyLoc := FindLocation(srv.locations, client.request.m.path);
      maxBody := if bodyLoc.Some? && srv.locations[bodyLoc.value].clientMaxBodySize > 0
                 then srv.locations[bodyLoc.value].clientMaxBodySize
                 else srv.clientMaxBodySize;
    }

    /** processRequest: pick server and location, enforce the limit, then do what
        routing answers. */
    method ProcessRequest(client: Client, o: Oracle)
      requires Live(client) && Owned() && client.state == Reading
      requires client.listenFd in listenFds && listenFds[client.listenFd] < |servers|
      requires client.request.m.phase == Complete
      requires o.pipeIn >= 0 && o.pipeOut >= 0
      modifies this`cgiReadFds, this`cgiWriteFds, client
      ensures Owned()
      ensures client.View() == Process(Config(), listenFds[client.listenFd], old(client.View()), o)
      ensures Entered(client, old(cgiReadFds), old(cgiWriteFds))
    {
      ghost var c := client.View();
      client.keepAlive := client.request.m.keepAlive;
      var maxBody := BodyLimit(client);
      hide LimitIn, ServerFor, Header, Owned, Live, Entered;
      if |client.request.m.body| > maxBody {
        Refuse(client, 413, o);
        NotEntered(client);
        return;
      }

      HandleRequest(client, o);
    }

    /** handleRequest and what follows it: queue the response, or leave the client
        to its CGI program. */
    method HandleRequest(client: Client, o: Oracle)
      requires Live(client) && Owned() && client.state == Reading
      requires client.listenFd in listenFds
      requires o.pipeIn >= 0 && o.pipeOut >= 0
      modifies this`cgiReadFds, this`cgiWriteFds, client
      ensures Owned()
      ensures client.View() == match route(listenFds[client.listenFd], client.request.m, o.moment)
                               case Immediate(response) => Queue(old(client.View()), response, Made("", o.moment))
                               case StartCgi => Launch(old(client.View()), o.pipeIn, o.pipeOut)
      ensures Entered(client, old(cgiReadFds), old(cgiWriteFds))
    {
      match route(listenFds[client.listenFd], client.request.m, o.moment) {
        case Immediate(response) =>
          client.SetSendBuffer(response, Made("", o.moment));
          client.state := Sending;
        case StartCgi =>
          StartCgiForClient(client, o.pipeIn, o.pipeOut);
      }
    }

    /** The CGI tables have gained the pipes of the program the client waits for. */
    ghost predicate Entered(client: Client, readFds: map<int, Client>, writeFds: map<int, Client>)
      reads this, client
    {
      && cgiReadFds == (if client.state == CgiReading then readFds[client.pipeOut := client] else readFds)
      && cgiWriteFds == (if client.state == CgiReading && client.pipeIn >= 0 then writeFds[client.pipeIn := client] else writeFds)
    }

    /** feedAndProcess; `hangs` where feed does not return (see HttpParser.Spins). */
    method FeedAndProcess(client: Client, data: string, o: Oracle) returns (hangs: bool)
      requires Live(client) && Owned() && client.state == Reading
      requires client.listenFd in listenFds && listenFds[client.listenFd] < |servers|
      requires o.pipeIn >= 0 && o.pipeOut >= 0
      modifies this`cgiReadFds, this`cgiWriteFds, client, client.request
      ensures Owned()
      ensures client.View() == FeedConn(Config(), listenFds[client.listenFd], old(client.View()), data, o)
      ensures Entered(client, old(cgiReadFds), old(cgiWriteFds))
      ensures hangs <==> Spins(HttpParser.Feed(old(client.request.View()), data, maxBodyCeiling))
    {
      ghost var c := client.View();
      hide HttpParser.Feed, Run, Spins;
      var ok;
      ok, hangs := client.request.Feed(data, maxBodyCeiling);
      NotDoneSpinning(client.request.View());
      client.past := client.past.(received := client.past.received + data);
      hide Client.View, Process, Owned, Live, Entered;
      if hangs {
        NotEntered(client);
        return;
      }

      if !ok || client.request.m.phase == Error {
        NoteRequest(client, o.moment);
        RefusesErrors(Config(), listenFds[client.listenFd], client.View(), o);
        var errCode := client.request.m.errorCode;
        if errCode == 0 { errCode := 400; }
        Refuse(client, errCode, o);
        NotEntered(client);
        return;
      }

      if client.request.m.phase == Complete {
        NoteRequest(client, o.moment);
        ProcessRequest(client, o);
      } else {
        NotEntered(client);
      }
    }

    lemma NotEntered(client: Client)
      ensures client.state != CgiReading ==> Entered(client, cgiReadFds, cgiWriteFds)
    {
    }

    static lemma RefusesErrors(site: Site, default: nat, c: Conn, o: Oracle)
      requires default < |site.servers| && c.request.m.phase == Error
      ensures var code := if c.request.m.errorCode == 0 then 400 else c.request.m.errorCode;
              Process(site, default, c, o)
              == Queue(c.(keepAlive := false), site.page(default, code, c.keepAlive, c.request.m, o.moment), Made("", o.moment))
    {
    }

    /** The parser has ended with a request. */
    ghost method NoteRequest(client: Client, moment: Moment)
      modifies client`past
      ensures client.View() == Asked(old(client.View()), moment) && client.state == old(client.state)
    {
      var m := client.request.m;
      client.past := client.past.(requests := client.past.requests + [m], asked := client.past.asked + [moment]);
    }

    /** The server's own error response, after which the connection is closed. */
    method Refuse(client: Client, code: int, o: Oracle)
      requires client.listenFd in listenFds
      modifies client
      ensures client.state == Sending
      ensures client.View() == Queue(old(client.View()).(keepAlive := false),
                                     page(listenFds[client.listenFd], code, old(client.keepAlive), client.request.m, o.moment),
                                     Made("", o.moment))
    {
      var text := page(listenFds[client.listenFd], code, client.keepAlive, client.request.m, o.moment);
      client.SetSendBuffer(text, Made("", o.moment));
      client.state := Sending;
      client.keepAlive := false;
    }

    static lemma NotDoneSpinning(p: Parser)
      ensures Spins(p) ==> !Done(p.m)
    {
      hide ChunkSize;
    }

    // ----- the handlers -----

    /** If only this client has changed, and the tables as it asks, the whole state
        is the old one with the client registered anew. */
    twostate lemma OnlyClientChanged(client: Client)
      requires old(Owned()) && old(Live(client)) && clients == old(clients)
      requires listenFds == old(listenFds) && closed == old(closed)
      requires forall fd :: fd in clients && fd != client.fd ==> clients[fd].View() == old(clients[fd].View())
      ensures View() == Put(old(View()), client.View()).(cgiReadFds := FdsOf(cgiReadFds), cgiWriteFds := FdsOf(cgiWriteFds))
      ensures Entered(client, old(cgiReadFds), old(cgiWriteFds)) ==> View() == Register(old(View()), client.View())
      ensures cgiReadFds == old(cgiReadFds) && cgiWriteFds == old(cgiWriteFds) ==> View() == Put(old(View()), client.View())
    {
      var v, w := View().clients, old(View()).clients[client.fd := client.View()];
      forall fd | fd in clients ensures v[fd] == w[fd] {
        if fd != client.fd { assert clients[fd].View() == old(clients[fd].View()); }
      }
      assert v.Keys == w.Keys;
      assert v == w;
      ReadFdsOf(client);
      hide Owned, Client.View;
    }

    /** What Entered says about the tables of fds. */
    twostate lemma ReadFdsOf(client: Client)
      ensures Entered(client, old(cgiReadFds), old(cgiWriteFds)) ==>
                && FdsOf(cgiReadFds) == (if client.state == CgiReading then old(FdsOf(cgiReadFds))[client.pipeOut := client.fd]
                                         else old(FdsOf(cgiReadFds)))
                && FdsOf(cgiWriteFds) == (if client.state == CgiReading && client.pipeIn >= 0
                                          then old(FdsOf(cgiWriteFds))[client.pipeIn := client.fd]
                                          else old(FdsOf(cgiWriteFds)))
    {
    }

    method AcceptClient(listenFd: int, clientFd: int)
      requires Valid() && listenFd in listenFds && (clientFd < 0 || Unused(View(), clientFd))
      modifies this`clients
      ensures Valid() && View() == Accept(old(View()), listenFd, clientFd)
      ensures fresh(Objects() - old(Objects()))
    {
      AcceptEnters(View(), listenFd, clientFd);
      if clientFd < 0 { return; }
      NotAClient(clientFd);
      hide *;
      var client := new Client(clientFd, listenFd);
      clients := clients[clientFd := client];
      ClientAccepted(client);
    }

    /** After the new client has been put into the table. */
    twostate lemma ClientAccepted(new client: Client)
      requires old(Valid()) && client.fd >= 0 && Unused(old(View()), client.fd) && client.listenFd in listenFds
      requires fresh(client) && fresh(client.request) && clients == old(clients)[client.fd := client]
      requires client.fd !in old(clients)
      requires listenFds == old(listenFds) && closed == old(closed)
      requires cgiReadFds == old(cgiReadFds) && cgiWriteFds == old(cgiWriteFds)
      requires forall fd :: fd in old(clients) ==> clients[fd].View() == old(clients[fd].View())
      requires client.View() == NewConn(client.fd, client.listenFd)
      ensures Valid() && View() == Accept(old(View()), client.listenFd, client.fd)
      ensures fresh(Objects() - old(Objects()))
    {
      assert old(Owned()) && Consistent(old(View())) && old(View()).listenFds == listenFds;
      hide *;
      AcceptKeeps(old(View()), client.listenFd, client.fd);
      AcceptEnters(old(View()), client.listenFd, client.fd);
      ClientAdded(client);
      ClientOwned(client);
      ClientObjects(client);
      StillValid();
    }

    static lemma AcceptEnters(s: State, listenFd: int, fd: int)
      ensures fd < 0 ==> Accept(s, listenFd, fd) == s
      ensures fd >= 0 ==> Accept(s, listenFd, fd) == Put(s, NewConn(fd, listenFd))
    {
    }

    lemma NotAClient(fd: int)
      requires Unused(View(), fd)
      ensures fd !in clients
    {
    }

    twostate lemma StillValid()
      requires old(Valid()) && Owned() && Consistent(View()) && listenFds == old(listenFds)
      ensures Valid()
    {
    }

    twostate lemma ClientObjects(new client: Client)
      requires fresh(client) && fresh(client.request) && clients == old(clients)[client.fd := client]
      ensures fresh(Objects() - old(Objects()))
    {
    }

    twostate lemma ClientAdded(new client: Client)
      requires old(Owned()) && client.fd !in old(clients) && fresh(client) && fresh(client.request)
      requires clients == old(clients)[client.fd := client]
      requires listenFds == old(listenFds) && closed == old(closed)
      requires cgiReadFds == old(cgiReadFds) && cgiWriteFds == old(cgiWriteFds)
      requires forall fd :: fd in old(clients) ==> clients[fd].View() == old(clients[fd].View())
      ensures View() == Put(old(View()), client.View())
    {
      var v, w := View().clients, old(View()).clients[client.fd := client.View()];
      assert v.Keys == w.Keys;
      forall fd | fd in v ensures v[fd] == w[fd] {
        if fd != client.fd { assert clients[fd].View() == old(clients[fd].View()); }
      }
      assert v == w;
      hide Client.View, Owned, FdsOf;
      SameFds();
    }

    twostate lemma SameFds()
      requires cgiReadFds == old(cgiReadFds) && cgiWriteFds == old(cgiWriteFds)
      ensures FdsOf(cgiReadFds) == old(FdsOf(cgiReadFds)) && FdsOf(cgiWriteFds) == old(FdsOf(cgiWriteFds))
    {
    }

    twostate lemma ClientOwned(new client: Client)
      requires old(Owned()) && client.fd !in old(clients) && fresh(client) && fresh(client.request)
      requires clients == old(clients)[client.fd := client]
      requires cgiReadFds == old(cgiReadFds) && cgiWriteFds == old(cgiWriteFds)
      ensures Owned()
    {
    }

    method CloseClient(fd: int)
      requires Valid()
      modifies this, if fd in clients then {clients[fd]} else {}
      ensures Valid() && View() == Close(old(View()), fd)
      ensures Objects() <= old(Objects())
    {
      CloseKeeps(View(), fd);
      hide Consistent, Close;
      if fd !in clients {
        assert View() == Close(View(), fd) by { NoClientToClose(View(), fd); }
        return;
      }
      var client := clients[fd];
      Forget(client);
      OthersSeen(client);
      OthersOwned(client);
      hide Owned, View;
    }

    /** closeClient for a client that is there: drop its pipes, then the client. */
    method Forget(client: Client)
      modifies this, client
      ensures clients == old(clients) - {client.fd} && listenFds == old(listenFds)
      ensures closed == old(closed) + [old(client.View())]
      ensures cgiWriteFds == if old(client.pipeIn) >= 0 then old(cgiWriteFds) - {old(client.pipeIn)} else old(cgiWriteFds)
      ensures cgiReadFds == if old(client.pipeOut) >= 0 then old(cgiReadFds) - {old(client.pipeOut)} else old(cgiReadFds)
    {
      ghost var before := client.View();
      var cgiWrite := client.pipeIn;
      var cgiRead := client.pipeOut;
      if cgiWrite >= 0 { cgiWriteFds := cgiWriteFds - {cgiWrite}; }
      if cgiRead >= 0 { cgiReadFds := cgiReadFds - {cgiRead}; }
      client.ClosePipes();
      clients := clients - {client.fd};
      closed := closed + [before];
    }

    static lemma NoClientToClose(s: State, fd: int)
      requires fd !in s.clients
      ensures Close(s, fd) == s
    {
    }

    twostate lemma OthersSeen(client: Client)
      requires old(Owned()) && old(Live(client))
      requires clients == old(clients) - {client.fd} && listenFds == old(listenFds)
      requires closed == old(closed) + [old(client.View())]
      requires cgiWriteFds == if old(client.pipeIn) >= 0 then old(cgiWriteFds) - {old(client.pipeIn)} else old(cgiWriteFds)
      requires cgiReadFds == if old(client.pipeOut) >= 0 then old(cgiReadFds) - {old(client.pipeOut)} else old(cgiReadFds)
      requires forall fd :: fd in clients ==> clients[fd].View() == old(clients[fd].View())
      ensures View() == Close(old(View()), client.fd)
    {
      var v, w := View().clients, old(View()).clients - {client.fd};
      assert v.Keys == w.Keys;
      forall fd | fd in v ensures v[fd] == w[fd] { assert clients[fd].View() == old(clients[fd].View()); }
      assert v == w;
      hide Owned, Client.View, FdsOf;
      if old(client.pipeIn) >= 0 { WithoutFd(old(cgiWriteFds), old(client.pipeIn)); }
      if old(client.pipeOut) >= 0 { WithoutFd(old(cgiReadFds), old(client.pipeOut)); }
    }

    /** Without the client, and with its entries gone, the tables are owned as before. */
    twostate lemma OthersOwned(client: Client)
      requires old(Owned()) && old(Live(client)) && Consistent(old(View()))
      requires clients == old(clients) - {client.fd}
      requires cgiWriteFds == if old(client.pipeIn) >= 0 then old(cgiWriteFds) - {old(client.pipeIn)} else old(cgiWriteFds)
      requires cgiReadFds == if old(client.pipeOut) >= 0 then old(cgiReadFds) - {old(client.pipeOut)} else old(cgiReadFds)
      ensures Owned()
    {
      var s := old(View());
      assert s.clients[client.fd] == old(client.View());
      forall fd | fd in cgiReadFds ensures Live(cgiReadFds[fd]) {
        assert old(Live(cgiReadFds[fd])) && ReadEntry(s, fd);
      }
      forall fd | fd in cgiWriteFds ensures Live(cgiWriteFds[fd]) {
        assert old(Live(cgiWriteFds[fd])) && WriteEntry(s, fd);
      }
    }

    /** FeedAndProcess, seen from the whole state. */
    method FeedClient(client: Client, data: string, o: Oracle) returns (hangs: bool)
      requires Owned() && Live(client) && client.state == Reading
      requires client.listenFd in listenFds && listenFds[client.listenFd] < |servers|
      requires o.pipeIn >= 0 && o.pipeOut >= 0
      modifies this`cgiReadFds, this`cgiWriteFds, client, client.request
      ensures Owned()
      ensures View() == Register(old(View()), FeedConn(Config(), listenFds[client.listenFd], old(client.View()), data, o))
      ensures hangs <==> Spins(HttpParser.Feed(old(client.View()).request, data, maxBodyCeiling))
    {
      hangs := FeedAndProcess(client, data, o);
      OnlyClientChanged(client);
      hide Owned, View, Client.View, FeedConn, Register, HttpParser.Feed, Spins;
    }

    method ReadClient(fd: int, data: string, o: Oracle) returns (hangs: bool)
      requires Valid() && fd in clients && clients[fd].state == Reading && FreshPipes(View(), o)
      modifies this, clients[fd], clients[fd].request
      ensures Valid() && View() == Read(Config(), old(View()), fd, data, o)
      ensures Objects() <= old(Objects())
      ensures hangs <==> ReadHangs(Config(), old(clients[fd].View()), data)
    {
      var client := clients[fd];
      hide *;
      if data == "" {
        hangs := false;
        NothingRead(client, o);
        CloseClient(fd);
      } else {
        hangs := FeedRead(client, data, o);
      }
    }

    /** readClient with bytes read. */
    method FeedRead(client: Client, data: string, o: Oracle) returns (hangs: bool)
      requires Valid() && client.fd in clients && clients[client.fd] == client
      requires client.state == Reading && FreshPipes(View(), o) && data != ""
      modifies this, client, client.request
      ensures Valid() && View() == Read(Config(), old(View()), client.fd, data, o)
      ensures Objects() <= old(Objects())
      ensures hangs <==> ReadHangs(Config(), old(client.View()), data)
    {
      ghost var s, c := View(), client.View();
      ClientFacts(client, o);
      hide *;
      hangs := FeedClient(client, data, o);
      DataRead(client, s, c, data, o);
      SameObjects();
    }

    lemma NothingRead(client: Client, o: Oracle)
      requires client.fd in clients && clients[client.fd] == client && Config().servers != []
      ensures Read(Config(), View(), client.fd, "", o) == Close(View(), client.fd)
      ensures !ReadHangs(Config(), client.View(), "")
    {
    }

    /** After readClient has fed a client. */
    lemma DataRead(client: Client, s: State, c: Conn, data: string, o: Oracle)
      requires Configured() && Owned() && Consistent(s) && FreshPipes(s, o)
      requires client.fd in s.clients && s.clients[client.fd] == c && c.state == Reading && data != ""
      requires DefaultServer(Config(), s, c) < |servers|
      requires View() == Register(s, FeedConn(Config(), DefaultServer(Config(), s, c), c, data, o))
      ensures Valid() && View() == Read(Config(), s, client.fd, data, o)
      ensures ReadHangs(Config(), c, data) <==> Spins(HttpParser.Feed(c.request, data, maxBodyCeiling))
    {
      ReadIs(Config(), s, client.fd, data, o);
      ReadKeeps(Config(), s, client.fd, data, o);
      hide Consistent, FeedConn, Register, Read, View, Owned;
    }

    /** What a valid server knows about one of its clients. */
    lemma ClientFacts(client: Client, o: Oracle)
      requires Valid() && client.fd in clients && clients[client.fd] == client && FreshPipes(View(), o)
      ensures Configured() && Owned() && Live(client) && Consistent(View()) && servers != []
      ensures Config().servers == servers && Config().ceiling == maxBodyCeiling
      ensures client.fd in View().clients && View().clients[client.fd] == client.View()
      ensures client.View().state == client.state && client.View().fd == client.fd
      ensures client.listenFd in listenFds && listenFds[client.listenFd] < |servers|
      ensures DefaultServer(Config(), View(), client.View()) == listenFds[client.listenFd]
      ensures o.pipeIn >= 0 && o.pipeOut >= 0
    {
      assert View().clients[client.fd] == client.View();
      assert Placed(View(), client.fd);
    }

    static lemma ReadIs(site: Site, s: State, fd: int, data: string, o: Oracle)
      requires site.servers != [] && fd in s.clients
      ensures data == "" ==> Read(site, s, fd, data, o) == Close(s, fd)
      ensures data != "" ==>
                var c := s.clients[fd];
                && Read(site, s, fd, data, o) == Register(s, FeedConn(site, DefaultServer(site, s, c), c, data, o))
                && (ReadHangs(site, c, data) <==> Spins(HttpParser.Feed(c.request, data, site.ceiling)))
      ensures data == "" ==> !ReadHangs(site, s.clients[fd], data)
    {
      hide HttpParser.Feed, Spins;
    }

    twostate lemma SameObjects()
      requires clients == old(clients)
      ensures Objects() == old(Objects())
    {
    }

    /** writeClient, the part that sends. */
    method SendPending(client: Client, n: int)
      requires Valid() && Live(client) && n > 0
      modifies client
      ensures Valid() && View() == Put(old(View()), SendSome(old(client.View()), n))
      ensures client.View() == SendSome(old(client.View()), n)
    {
      PutKeeps(View(), SendSome(client.View(), n)) by { assert Placed(View(), client.fd); }
      client.ConsumeSendBuffer(n);
      OnlyClientChanged(client);
      hide Consistent, View, Client.View, SendSome;
    }

    /** writeClient with nothing left to send. */
    method FinishSending(client: Client, o: Oracle) returns (hangs: bool)
      requires Valid() && Live(client) && FreshPipes(View(), o)
      modifies this, client, client.request
      ensures Valid() && View() == AllSent(Config(), old(View()), old(client.View()), o)
      ensures Objects() <= old(Objects())
      ensures hangs <==> NextHangs(Config(), old(client.View()))
    {
      ghost var s, c := View(), client.View();
      AllSentKeeps(Config(), s, c, o);
      assert s.clients[client.fd] == c;
      hide Consistent, FeedConn, HttpParser.Feed, Spins, View, Close;
      if client.keepAlive && client.state == Sending {
        hangs := NextRequest(client, o);
      } else {
        hangs := false;
        CloseClient(client.fd);
      }
    }

    method NextRequest(client: Client, o: Oracle) returns (hangs: bool)
      requires Owned() && Live(client) && client.state == Sending
      requires client.listenFd in listenFds && listenFds[client.listenFd] < |servers|
      requires o.pipeIn >= 0 && o.pipeOut >= 0
      modifies this`cgiReadFds, this`cgiWriteFds, client, client.request
      ensures Owned()
      ensures View() == Register(old(View()),
                FeedConn(Config(), listenFds[client.listenFd], Renewed(old(client.View())), "", o))
      ensures hangs <==> Spins(HttpParser.Feed(Renewed(old(client.View())).request, "", maxBodyCeiling))
    {
      ghost var s, e := View(), Renewed(client.View());
      hide *;
      Renew(client);
      hangs := FeedClient(client, "", o);
      FeedConnFd(Config(), listenFds[client.listenFd], e, "", o);
      PutThenRegister(s, e, FeedConn(Config(), listenFds[client.listenFd], e, "", o));
    }

    /** reset() and back to reading. */
    method Renew(client: Client)
      requires Owned() && Live(client)
      modifies client, client.request
      ensures Owned() && Live(client) && client.state == Reading
      ensures client.View() == Renewed(old(client.View())) && View() == Put(old(View()), client.View())
    {
      client.request.Reset();
      client.state := Reading;
      OnlyClientChanged(client);
      hide View;
    }

    static lemma FeedConnFd(site: Site, default: nat, c: Conn, data: string, o: Oracle)
      requires default < |site.servers|
      ensures FeedConn(site, default, c, data, o).fd == c.fd
    {
      hide HttpParser.Feed, Decide;
    }

    static lemma PutThenRegister(s: State, c: Conn, d: Conn)
      requires c.fd == d.fd
      ensures Register(Put(s, c), d) == Register(s, d)
    {
      assert s.clients[c.fd := c][d.fd := d] == s.clients[d.fd := d];
    }

    method WriteClient(fd: int, n: int, o: Oracle) returns (hangs: bool)
      requires Valid() && fd in clients && FreshPipes(View(), o)
      modifies this, clients[fd], clients[fd].request
      ensures Valid() && View() == Write(Config(), old(View()), fd, n, o)
      ensures Objects() <= old(Objects())
      ensures hangs <==> WriteHangs(Config(), old(clients[fd].View()), n)
    {
      var client := clients[fd];
      ghost var s, c := View(), client.View();
      assert s.clients[fd] == c && Live(client);
      assert Put(s, c) == s by { assert s.clients[fd := c] == s.clients; }
      SentHangs(Config(), c, n);
      hide Consistent, HttpParser.Feed, Spins, View, Owned, AllSent, Close, WriteHangs, NextHangs;
      if client.sendBuffer != "" {
        if n <= 0 {
          CloseClient(fd);
          return false;
        }
        SameUnused(s, SendSome(c, n), o);
        SendPending(client, n);
      }

      if client.sendBuffer != "" { return false; }
      hangs := FinishSending(client, o);
    }

    static lemma SentHangs(site: Site, c: Conn, n: int)
      ensures c.sendBuffer == "" ==> (WriteHangs(site, c, n) <==> NextHangs(site, c))
      ensures c.sendBuffer != "" && n <= 0 ==> !WriteHangs(site, c, n)
      ensures c.sendBuffer != "" && n > 0 ==>
                var d := SendSome(c, n); WriteHangs(site, c, n) <==> d.sendBuffer == "" && NextHangs(site, d)
    {
      hide HttpParser.Feed, Spins;
    }

    static lemma WithoutFd(table: map<int, Client>, fd: int)
      ensures FdsOf(table - {fd}) == FdsOf(table) - {fd}
    {
    }

    /** Stop feeding the CGI program: forget the descriptor and close it. */
    method StopWriting(fd: int, client: Client)
      requires Owned() && Live(client) && client.pipeIn >= 0
      modifies this`cgiWriteFds, client
      ensures Owned() && View() == Unplug(old(View()), fd, old(client.View()))
    {
      WithoutFd(cgiWriteFds, fd);
      assert client.View().fd == client.fd && client.View().pipeIn >= 0;
      assert View().cgiReadFds == FdsOf(cgiReadFds) && View().cgiWriteFds == FdsOf(cgiWriteFds);
      hide FdsOf, Client.View, View;
      cgiWriteFds := cgiWriteFds - {fd};
      client.CloseWritePipe();
      OnlyClientChanged(client);
    }

    method WriteCgi(fd: int, n: int)
      requires Valid() && fd in cgiWriteFds
      modifies this`cgiWriteFds, cgiWriteFds[fd]
      ensures Valid() && View() == ServerModel.WriteCgi(old(View()), fd, n)
    {
      var client := cgiWriteFds[fd];
      ghost var s, c := View(), client.View();
      assert s.cgiWriteFds[fd] == client.fd && s.clients[client.fd] == c && Live(client);
      assert WriteEntry(s, fd);
      WriteCgiKeeps(s, fd, n);
      hide Consistent, View, Owned;
      if client.cgiBodyToWrite == "" {
        StopWriting(fd, client);
        return;
      }
      if n <= 0 {
        StopWriting(fd, client);
        return;
      }
      PipeMore(client, n);
      if client.cgiBodyToWrite == "" {
        StopWriting(fd, client);
        PutThenUnplug(s, fd, PipeSome(c, n));
      }
    }

    static lemma PutThenUnplug(s: State, fd: int, c: Conn)
      ensures Unplug(Put(s, c), fd, c) == Unplug(s, fd, c)
    {
      assert s.clients[c.fd := c][c.fd := c.(pipeIn := -1)] == s.clients[c.fd := c.(pipeIn := -1)];
    }

    method PipeMore(client: Client, n: int)
      requires Owned() && Live(client) && n > 0
      modifies client
      ensures Owned() && View() == Put(old(View()), PipeSome(old(client.View()), n))
      ensures client.View() == PipeSome(old(client.View()), n)
    {
      client.ConsumeCgiBody(n);
      OnlyClientChanged(client);
      hide View, Client.View, PipeSome;
    }

    /** The new tables are consistent exactly unless the program's input was still
        registered when its output ended. */
    method ReadCgi(fd: int, data: string, moment: Moment)
      requires Valid() && fd in cgiReadFds
      modifies this`cgiReadFds, cgiReadFds[fd]
      ensures View() == ServerModel.ReadCgi(Config(), old(View()), fd, data, moment)
      ensures Valid() <==> !(data == "" && old(cgiReadFds[fd].pipeIn) >= 0)
      ensures clients == old(clients)
    {
      var client := cgiReadFds[fd];
      ghost var s, c := View(), client.View();
      assert s.cgiReadFds[fd] == client.fd && s.clients[client.fd] == c && Live(client);
      assert ReadEntry(s, fd) && Placed(s, client.fd);
      ReadCgiKeepsIff(Config(), s, fd, data, moment);
      hide Consistent, View, Client.View, FdsOf;
      if data != "" {
        CollectOutput(client, data);
      } else {
        EndOutput(fd, client, moment);
      }
    }

    method CollectOutput(client: Client, data: string)
      requires Owned() && Live(client)
      modifies client
      ensures Owned() && View() == Put(old(View()), Collect(old(client.View()), data))
    {
      client.cgiOutput := client.cgiOutput + data;
      client.past := client.past.(read := client.past.read + data);
      OnlyClientChanged(client);
      hide View, Owned;
    }

    /** readCgi at the end of the output: close both pipes, leave the write entry. */
    method EndOutput(fd: int, client: Client, moment: Moment)
      requires Owned() && Live(client) && fd in cgiReadFds
      requires client.pipeIn >= -1 && client.pipeOut >= -1
      modifies this`cgiReadFds, client
      ensures Owned() && clients == old(clients)
      ensures View() == Put(old(View()), Finished(Config(), old(client.View()), moment))
                          .(cgiReadFds := old(View()).cgiReadFds - {fd})
    {
      WithoutFd(cgiReadFds, fd);
      assert client.View().fd == client.fd;
      assert View().cgiReadFds == FdsOf(cgiReadFds) && View().cgiWriteFds == FdsOf(cgiWriteFds);
      hide FdsOf, Client.View, View, Finished;
      cgiReadFds := cgiReadFds - {fd};
      CloseAndFinish(client, moment);
      OnlyClientChanged(client);
    }

    method CloseAndFinish(client: Client, moment: Moment)
      requires client.pipeIn >= -1 && client.pipeOut >= -1
      modifies client
      ensures client.View() == Finished(Config(), old(client.View()), moment)
    {
      client.ClosePipes();
      FinishCgi(client, moment);
    }

    /** finishCgi. */
    method FinishCgi(client: Client, moment: Moment)
      modifies client
      ensures var text := finish(old(client.View()).request.m, old(client.cgiOutput), moment);
              client.View() == Queue(old(client.View()), text, Made(old(client.past).read, moment))
    {
      client.SetSendBuffer(finish(client.request.m, client.cgiOutput, moment), Made(client.past.read, moment));
      client.state := Sending;
    }

    /** checkTimeouts, given the descriptors found expired. */
    method CheckTimeouts(toClose: seq<int>)
      requires Valid()
      modifies this, Objects()
      ensures Valid() && View() == CloseAll(old(View()), toClose)
    {
      ghost var s := View();
      ghost var objects := Objects();
      var i := 0;
      assert toClose[0..] == toClose;
      hide Consistent, View, Close;
      while i < |toClose|
        invariant i <= |toClose| && Valid() && Objects() <= objects
        invariant CloseAll(View(), toClose[i..]) == CloseAll(s, toClose)
      {
        assert toClose[i..][1..] == toClose[i + 1..];
        CloseClient(toClose[i]);
        i := i + 1;
      }
    }

    // ----- the loop -----

    /** The body of the loop in run(): one step of the model, after which the tables
        are consistent again unless a CGI program ended its output early. `hangs`
        where the code has come to the looping case of feed and stays there. */
    method HandleReady(fd: int, input: bool, output: bool, io: Io) returns (hangs: bool)
      requires Valid() && FreshEvent(View(), Ready(fd, input, output, io))
      modifies this, Objects()
      ensures View() == Dispatch(Config(), old(View()), Ready(fd, input, output, io))
      ensures Valid() <==> !EarlyEof(old(View()), Ready(fd, input, output, io))
      ensures hangs <==> Hangs(Config(), old(View()), Ready(fd, input, output, io))
    {
      hangs := false;
      ghost var s := View();
      assert fd in clients ==> s.clients[fd] == clients[fd].View();
      assert fd in cgiReadFds ==> Live(cgiReadFds[fd]) && s.cgiReadFds[fd] == cgiReadFds[fd].fd;
      hide Consistent, HttpParser.Feed, Spins, View, Owned;
      hide Accept, Read, Write, ServerModel.WriteCgi, ServerModel.ReadCgi;
      if fd in listenFds {
        AcceptClient(fd, io.newFd);
      } else if fd in cgiWriteFds {
        WriteCgi(fd, io.count);
      } else if fd in cgiReadFds {
        ReadCgi(fd, io.data, io.oracle.moment);
      } else if fd in clients {
        if input {
          if clients[fd].state == Reading {
            hangs := ReadClient(fd, io.data, io.oracle);
          } else {
            hangs := WriteClient(fd, io.count, io.oracle);
          }
        } else if output {
          hangs := WriteClient(fd, io.count, io.oracle);
        }
      }
    }
  }
}
