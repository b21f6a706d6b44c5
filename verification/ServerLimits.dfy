/** The two-stage body limit: the parser is given the largest configured limit, and
    the exact one is enforced once the request is read. Together they act as one. */
module ServerLimits {
  import opened HttpParser
  import opened HttpEncode
  import opened HttpInvariants
  import opened HttpReadings
  import opened Routing
  import opened ServerModel
  import opened Wrappers

  function FieldsOf(r: Request): map<string, string> { HeaderMap(AllFields(r), map[]) }

  /** The limit of the location, else of the server, that will serve the request. */
  ghost function LimitFor(site: Site, default: nat, r: Request): nat
    requires default < |site.servers|
  {
    LimitIn(site.servers[ServerFor(site.servers, default, Header(FieldsOf(r), "host"))], UriPath(r.uri))
  }

  /** Which limit applies: that of the longest location covering the decoded path of the
      target, if it sets one, and else that of the server block which answers to the Host
      field. */
  lemma LimitApplies(site: Site, default: nat, r: Request, index: nat, pieces: seq<string>, path: string, query: string)
    requires default < |site.servers| && IsServerFor(site.servers, default, LastValue(AllFields(r), "host"), index)
    requires IsTarget(r.uri, pieces, path, query)
    ensures var srv, locs := site.servers[index], site.servers[index].locations;
            && (NoneCovers(locs, path) ==> LimitFor(site, default, r) == srv.clientMaxBodySize)
            && forall i: nat :: IsBest(locs, path, i) ==>
                 LimitFor(site, default, r)
                 == if locs[i].clientMaxBodySize > 0 then locs[i].clientMaxBodySize else srv.clientMaxBodySize
  {
    FieldNames();
    HeadersMean(AllFields(r), "host");
    TargetRead(r.uri, pieces, path, query);
    var host := LastValue(AllFields(r), "host");
    assert LimitFor(site, default, r) == LimitIn(site.servers[ServerFor(site.servers, default, host)], path);
    OneServerFor(site.servers, default, host, index, ServerFor(site.servers, default, host));
    hide LimitFor, IsTarget, LastValue, AllFields, UriPath, UriQuery, ServerFor, HeaderMap, IsBest, Covers, NoneCovers, IsServerFor;
    var srv := site.servers[index];
    forall i: nat | IsBest(srv.locations, path, i) ensures Location(srv.locations, path) == Some(i) {
      BestIsUnique(srv.locations, path, i);
    }
    if NoneCovers(srv.locations, path) { NoLocation(srv.locations, path); }
  }

  lemma NoLocation(locs: seq<LocationConfig>, path: string)
    requires NoneCovers(locs, path)
    ensures Location(locs, path).None?
  {
    hide Covers;
  }

  /** The server itself answers 413 exactly when the body exceeds the limit that
      applies; otherwise it goes on to handle the request. Either coding, any
      configuration, any bytes behind the request. */
  lemma TwoStagesAreOne(site: Site, default: nat, r: Request, rest: string)
    requires IsCeiling(site.ceiling, site.servers) && default < |site.servers|
    requires Good(r)
    ensures var m := Run(Parser(Blank(site.ceiling), Encode(r) + rest)).m;
            && Done(m)
            && Decide(site, default, m) == if |BodyOf(r.framing)| > LimitFor(site, default, r) then Refuse(413) else Handle
  {
    var index := ServerFor(site.servers, default, Header(FieldsOf(r), "host"));
    CeilingDominates(site.ceiling, site.servers, index, UriPath(r.uri));
    hide Encode, HeaderMap, Run, Good, BodyOf, LimitIn, ServerFor, IsCeiling;
    if |BodyOf(r.framing)| > site.ceiling {
      ExceedsLimit(r, site.ceiling, CRLF, rest);
    } else {
      ReadsBack(r, site.ceiling, CRLF, rest);
    }
  }

  /** On a connection that waits for a request: over the limit the 413 page is queued
      and the connection will be closed; within it, routing answers the request. */
  lemma AnsweredWithinLimit(site: Site, default: nat, c: Conn, r: Request, rest: string, o: Oracle)
    requires IsCeiling(site.ceiling, site.servers) && default < |site.servers| && Good(r)
    requires WithLimit(c.request, site.ceiling) == Parser(Blank(site.ceiling), "")
    ensures var d := FeedConn(site, default, c, Encode(r) + rest, o);
            if |BodyOf(r.framing)| > LimitFor(site, default, r) then
              var flag := if d.request.m.phase == Error then c.keepAlive else d.request.m.keepAlive;
              d.sendBuffer == site.page(default, 413, flag, d.request.m, o.moment) && d.state == Sending && !d.keepAlive
            else
              match site.route(default, Meaning(r, site.ceiling), o.moment)
              case Immediate(response) =>
                d.sendBuffer == response && d.state == Sending && (d.keepAlive <==> AsksToStay(AllFields(r), r.version))
              case StartCgi =>
                && d.cgiBody == BodyOf(r.framing) && d.state == CgiReading && d.pipeOut == o.pipeOut
                && d.cgiOutput == "" && d.past.piped == "" && d.past.read == ""
                && (d.keepAlive <==> AsksToStay(AllFields(r), r.version))
                && d.pipeIn == if BodyOf(r.framing) != "" then o.pipeIn else -1
  {
    var text := Encode(r) + rest;
    assert Append(WithLimit(c.request, site.ceiling), text) == Parser(Blank(site.ceiling), text) by {
      assert "" + text == text;
    }
    MeaningStays(r, site.ceiling);
    hide Encode, HeaderMap, Run, Good, BodyOf, LimitFor, Decide, IsCeiling, Meaning, AsksToStay, AllFields;
    TwoStagesAreOne(site, default, r, rest);
    if |BodyOf(r.framing)| <= LimitFor(site, default, r) { ReadWithinLimit(site, default, r, rest); }
  }

  /** A request that cannot be read is answered with the page for its error code, and the
      connection will be closed. */
  lemma UnreadableAnswered(site: Site, default: nat, c: Conn, data: string, o: Oracle)
    requires default < |site.servers| && FlagsOk(c.request.m)
    requires Feed(c.request, data, site.ceiling).m.phase == Error
    ensures var m, d := Feed(c.request, data, site.ceiling).m, FeedConn(site, default, c, data, o);
            && m.errorCode in [400, 413, 501] && d.sendBuffer == site.page(default, m.errorCode, c.keepAlive, m, o.moment)
            && d.state == Sending && !d.keepAlive
  {
    var p := Append(WithLimit(c.request, site.ceiling), data);
    RunKeepsFlags(p);
    hide Run;
  }

  lemma ReadWithinLimit(site: Site, default: nat, r: Request, rest: string)
    requires IsCeiling(site.ceiling, site.servers) && default < |site.servers| && Good(r)
    requires |BodyOf(r.framing)| <= LimitFor(site, default, r)
    ensures Run(Parser(Blank(site.ceiling), Encode(r) + rest)).m == Meaning(r, site.ceiling)
    ensures Meaning(r, site.ceiling).body == BodyOf(r.framing)
  {
    var index := ServerFor(site.servers, default, Header(FieldsOf(r), "host"));
    CeilingDominates(site.ceiling, site.servers, index, UriPath(r.uri));
    hide Encode, Run, Good, BodyOf, IsCeiling;
    ReadsBack(r, site.ceiling, CRLF, rest);
  }
}
