/** The run that breaks the tables: a CGI program ends its output before it has been
    given the whole body of its request. */
module ServerEarlyEof {
  import opened HttpParser
  import opened HttpEncode
  import opened Routing
  import opened ServerModel
  import opened ServerTables
  import opened ServerLimits

  const LISTEN := 3
  const CLIENT := 4
  const PIPE_IN := 5
  const PIPE_OUT := 6

  function Spare(moment: Moment): Oracle { Oracle(7, 8, moment) }

  /** A client is accepted, its request is read, and the program's output ends. */
  function Arrival(moment: Moment): Event { Ready(LISTEN, true, false, Io(CLIENT, "", 0, Spare(moment))) }

  function Asking(text: string, moment: Moment): Event {
    Ready(CLIENT, true, false, Io(-1, text, 0, Oracle(PIPE_IN, PIPE_OUT, moment)))
  }

  function Ending(moment: Moment): Event { Ready(PIPE_OUT, true, false, Io(-1, "", 0, Spare(moment))) }

  predicate SentToCgi(site: Site, default: nat, r: Request, moment: Moment) {
    && default < |site.servers| && Good(r) && BodyOf(r.framing) != ""
    && site.route(default, Meaning(r, site.ceiling), moment) == StartCgi
  }

  // ----- step by step -----

  function Accepted(default: nat): State { Put(Start(map[LISTEN := default]), NewConn(CLIENT, LISTEN)) }

  lemma ClientAccepted(site: Site, default: nat, moment: Moment)
    requires site.servers != []
    ensures FreshEvent(Start(map[LISTEN := default]), Arrival(moment))
    ensures Dispatch(site, Start(map[LISTEN := default]), Arrival(moment)) == Accepted(default)
    ensures Consistent(Accepted(default))
  {
  }

  /** The program's pipes are entered, and the write end is open. */
  predicate Waiting(default: nat, s: State) {
    && s.listenFds == map[LISTEN := default] && s.clients.Keys == {CLIENT}
    && s.cgiReadFds == map[PIPE_OUT := CLIENT] && s.cgiWriteFds == map[PIPE_IN := CLIENT]
    && s.clients[CLIENT].pipeIn == PIPE_IN
  }

  lemma ConnWaits(site: Site, default: nat, r: Request, o: Oracle)
    requires IsCeiling(site.ceiling, site.servers) && SentToCgi(site, default, r, o.moment)
    requires |BodyOf(r.framing)| <= LimitFor(site, default, r)
    ensures var d := FeedConn(site, default, NewConn(CLIENT, LISTEN), Encode(r), o);
            d.fd == CLIENT && d.state == CgiReading && d.pipeIn == o.pipeIn && d.pipeOut == o.pipeOut
  {
    var c := NewConn(CLIENT, LISTEN);
    assert Encode(r) + "" == Encode(r);
    hide FeedConn, Encode, Good, BodyOf, LimitFor, IsCeiling, Meaning;
    AnsweredWithinLimit(site, default, c, r, "", o);
    FedFd(site, default, c, Encode(r), o);
  }

  lemma FedFd(site: Site, default: nat, c: Conn, data: string, o: Oracle)
    requires default < |site.servers|
    ensures FeedConn(site, default, c, data, o).fd == c.fd
  {
    hide Feed, Decide;
  }

  lemma EncodeNotEmpty(r: Request)
    ensures Encode(r) != ""
  {
    hide RequestLineText, FieldsText, BodyText, AllFields;
  }

  lemma AskedIsRead(site: Site, default: nat, text: string, moment: Moment)
    requires default < |site.servers| && text != ""
    ensures Dispatch(site, Accepted(default), Asking(text, moment))
            == Register(Accepted(default),
                        FeedConn(site, default, NewConn(CLIENT, LISTEN), text, Oracle(PIPE_IN, PIPE_OUT, moment)))
  {
    var c, s := NewConn(CLIENT, LISTEN), Accepted(default);
    hide FeedConn, Register;
    assert s.clients == map[CLIENT := c] && DefaultServer(site, s, c) == default;
  }

  lemma RegisteredWaits(default: nat, d: Conn)
    requires d.fd == CLIENT && d.state == CgiReading && d.pipeIn == PIPE_IN && d.pipeOut == PIPE_OUT
    ensures Waiting(default, Register(Accepted(default), d))
  {
  }

  lemma ProgramStarted(site: Site, default: nat, r: Request, moment: Moment) returns (s: State)
    requires IsCeiling(site.ceiling, site.servers) && SentToCgi(site, default, r, moment)
    requires |BodyOf(r.framing)| <= LimitFor(site, default, r)
    ensures s == Dispatch(site, Accepted(default), Asking(Encode(r), moment)) && Waiting(default, s)
  {
    hide *;
    var o := Oracle(PIPE_IN, PIPE_OUT, moment);
    EncodeNotEmpty(r);
    assert default < |site.servers| by { SentMeansServer(site, default, r, moment); }
    AskedIsRead(site, default, Encode(r), moment);
    ConnWaits(site, default, r, o);
    s := Register(Accepted(default), FeedConn(site, default, NewConn(CLIENT, LISTEN), Encode(r), o));
    RegisteredWaits(default, FeedConn(site, default, NewConn(CLIENT, LISTEN), Encode(r), o));
  }

  lemma SentMeansServer(site: Site, default: nat, r: Request, moment: Moment)
    requires SentToCgi(site, default, r, moment)
    ensures default < |site.servers| && site.servers != []
  {
  }

  lemma FreshOnAccepted(default: nat, text: string, moment: Moment)
    ensures FreshEvent(Accepted(default), Asking(text, moment))
    ensures !EarlyEof(Accepted(default), Asking(text, moment))
  {
  }

  lemma EndsEarly(default: nat, s: State, moment: Moment)
    requires Waiting(default, s)
    ensures FreshEvent(s, Ending(moment)) && EarlyEof(s, Ending(moment))
  {
  }

  // ----- the run -----

  lemma ThreeEvents(site: Site, s: State, a: Event, b: Event, c: Event)
    requires site.servers != []
    ensures var s1 := Dispatch(site, s, a);
            var s2 := Dispatch(site, s1, b);
            && RunAll(site, s, [a, b, c]) == Dispatch(site, s2, c)
            && (FreshEvent(s, a) && FreshEvent(s1, b) && FreshEvent(s2, c) ==> FreshRun(site, s, [a, b, c]))
            && (EarlyEof(s2, c) ==> !NoEarlyEof(site, s, [a, b, c]))
  {
    var es := [a, b, c];
    hide Dispatch, EarlyEof, FreshEvent;
    RunOneMore(site, s, es, 0);
    RunOneMore(site, s, es, 1);
    RunOneMore(site, s, es, 2);
    assert es[..0] == [] && es[..3] == es;
    assert RunAll(site, s, es[..2]) == Dispatch(site, Dispatch(site, s, a), b) && es[2] == c;
  }

  /** For any site and any request with a body within its limit that routing sends to a
      CGI program, a run with fresh descriptors in which that program's output ends
      before the body is written leaves the tables inconsistent. */
  lemma EarlyEofBreaksTables(site: Site, default: nat, r: Request, moment: Moment)
    requires IsCeiling(site.ceiling, site.servers) && SentToCgi(site, default, r, moment)
    requires |BodyOf(r.framing)| <= LimitFor(site, default, r)
    ensures site.servers != []
    ensures var s, es := Start(map[LISTEN := default]), [Arrival(moment), Asking(Encode(r), moment), Ending(moment)];
            FreshRun(site, s, es) && !NoEarlyEof(site, s, es) && !Consistent(RunAll(site, s, es))
  {
    hide *;
    SentMeansServer(site, default, r, moment);
    ClientAccepted(site, default, moment);
    FreshOnAccepted(default, Encode(r), moment);
    var t := ProgramStarted(site, default, r, moment);
    EndsEarly(default, t, moment);
    ThreeEvents(site, Start(map[LISTEN := default]), Arrival(moment), Asking(Encode(r), moment), Ending(moment));
    StepKeepsTablesIff(site, Accepted(default), Asking(Encode(r), moment));
    StepKeepsTablesIff(site, t, Ending(moment));
  }

  // ----- there is one -----

  const SERVER := ServerConfig("", 80, [], 1, map[], [])
  const UPLOAD := Request("POST", "/", "HTTP/1.1", [], Sized("1", "a"))

  /** One server block, and everything routed to a CGI program. */
  function AllCgi(): Site {
    Site([SERVER], DEFAULT_BODY_LIMIT, (d, code, flag, m, t) => "", (d, m, t) => StartCgi, (m, output, t) => "")
  }

  lemma UploadIsGood()
    ensures Good(UPLOAD) && BodyOf(UPLOAD.framing) == "a"
  {
    assert "1"[..0] == "";
  }

  lemma UploadLimit()
    ensures IsCeiling(DEFAULT_BODY_LIMIT, [SERVER]) && LimitFor(AllCgi(), 0, UPLOAD) == 1
  {
    assert Location(SERVER.locations, UriPath(UPLOAD.uri)).None?;
    hide UriPath, FieldsOf;
  }

  /** So the condition on early ends of output cannot be dropped. */
  lemma EarlyEofHappens() returns (site: Site, listenFds: map<int, nat>, es: seq<Event>)
    ensures site.servers != [] && FreshRun(site, Start(listenFds), es) && !NoEarlyEof(site, Start(listenFds), es)
    ensures !Consistent(RunAll(site, Start(listenFds), es))
  {
    site, listenFds := AllCgi(), map[LISTEN := 0];
    es := [Arrival(0), Asking(Encode(UPLOAD), 0), Ending(0)];
    UploadIsGood();
    UploadLimit();
    assert SentToCgi(site, 0, UPLOAD, 0) by { hide Good, BodyOf, Meaning; }
    hide SentToCgi, Encode, Consistent, RunAll, FreshRun, NoEarlyEof, BodyOf, LimitFor, Arrival, Asking, Ending;
    EarlyEofBreaksTables(site, 0, UPLOAD, 0);
  }
}
