/** The configuration records of webserv/src/Config.hpp, and how the server picks
    the server block, the location and the body limit of a request. */
module Routing {
  import opened HttpParser
  import opened Wrappers

  datatype LocationConfig = LocationConfig(
    path: string, root: string, index: string, methods: seq<string>, autoindex: bool,
    uploadPath: string, redirect: string, redirectCode: int,
    cgiExtensions: map<string, string>, clientMaxBodySize: nat)

  datatype ServerConfig = ServerConfig(
    host: string, port: int, serverNames: seq<string>, clientMaxBodySize: nat,
    errorPages: map<int, string>, locations: seq<LocationConfig>)

  // ----- locations -----

  predicate StartsWith(s: string, prefix: string) {
    |prefix| <= |s| && s[..|prefix|] == prefix
  }

  /** locPath is a prefix of the path that ends at a segment boundary. */
  predicate Covers(locPath: string, path: string) {
    && locPath != "" && StartsWith(path, locPath)
    && (locPath == "/" || |path| == |locPath| || path[|locPath|] == '/' || locPath[|locPath| - 1] == '/')
  }

  /** A location covers its own path and everything below it; one written with a slash
      at its end, and the root, everything that goes on behind the slash. A path that
      merely begins with the same letters is not covered. */
  lemma CoversMeans(locPath: string, path: string)
    ensures Covers(locPath, path)
            <==> locPath != "" && exists below: string :: path == locPath + below
                                                    && (below == "" || below[0] == '/' || locPath[|locPath| - 1] == '/')
  {
    if Covers(locPath, path) {
      var below := path[|locPath|..];
      assert path == locPath + below;
      assert below != "" ==> below[0] == path[|locPath|];
    }
    if below: string :| locPath != "" && path == locPath + below && (below == "" || below[0] == '/' || locPath[|locPath| - 1] == '/') {
      assert path[..|locPath|] == locPath;
      assert below != "" ==> path[|locPath|] == below[0];
    }
  }

  /** i is the first of the longest covering paths. */
  predicate IsBest(locs: seq<LocationConfig>, path: string, i: nat) {
    && i < |locs| && Covers(locs[i].path, path)
    && (forall j :: 0 <= j < |locs| && Covers(locs[j].path, path) ==> |locs[j].path| <= |locs[i].path|)
    && (forall j :: 0 <= j < i && Covers(locs[j].path, path) ==> |locs[j].path| < |locs[i].path|)
  }

  predicate NoneCovers(locs: seq<LocationConfig>, path: string) {
    forall j :: 0 <= j < |locs| ==> !Covers(locs[j].path, path)
  }

  /** findLocation; the result is an index, None for the null pointer. */
  method FindLocation(locs: seq<LocationConfig>, path: string) returns (best: Option<nat>)
    ensures best.Some? ==> IsBest(locs, path, best.value)
    ensures best.None? <==> NoneCovers(locs, path)
    ensures best == Location(locs, path)
  {
    best := None;
    var bestLen := 0;
    for i := 0 to |locs|
      invariant best.Some? ==> IsBest(locs[..i], path, best.value) && bestLen == |locs[best.value].path|
      invariant best.None? ==> NoneCovers(locs[..i], path) && bestLen == 0
    {
      var locPath := locs[i].path;
      assert locs[..i + 1] == locs[..i] + [locs[i]];
      if StartsWith(path, locPath) {
        if |locPath| > bestLen &&
           (locPath == "/" || |path| == |locPath| || path[|locPath|] == '/' || locPath[|locPath| - 1] == '/') {
          bestLen := |locPath|;
          best := Some(i);
        }
      }
    }
    assert locs[..|locs|] == locs;
    if best.Some? { BestIsUnique(locs, path, best.value); }
  }

  /** The location the server serves a path from. */
  ghost function Location(locs: seq<LocationConfig>, path: string): (r: Option<nat>)
    ensures r.Some? ==> IsBest(locs, path, r.value)
  {
    if i: nat :| IsBest(locs, path, i) then Some(i) else None
  }

  lemma BestIsUnique(locs: seq<LocationConfig>, path: string, i: nat)
    requires IsBest(locs, path, i)
    ensures Location(locs, path) == Some(i)
  {
    var r := Location(locs, path);
    assert r.Some? && IsBest(locs, path, r.value);
    assert Covers(locs[r.value].path, path) && Covers(locs[i].path, path);
  }

  predicate DistinctPaths(locs: seq<LocationConfig>) {
    forall i, j :: 0 <= i < j < |locs| ==> locs[i].path != locs[j].path
  }

  /** With distinct paths, reordering the location blocks changes nothing. */
  lemma ChoiceIgnoresOrder(locs: seq<LocationConfig>, other: seq<LocationConfig>, path: string)
    requires multiset(locs) == multiset(other) && DistinctPaths(locs)
    ensures Location(locs, path).None? <==> Location(other, path).None?
    ensures Location(locs, path).Some? ==>
              locs[Location(locs, path).value] == other[Location(other, path).value]
  {
    CoveredToo(locs, other, path);
    CoveredToo(other, locs, path);
    var r, q := Location(locs, path), Location(other, path);
    if r.Some? {
      var a, b := locs[r.value], other[q.value];
      assert a in multiset(other) && b in multiset(locs);
      var i: nat :| i < |locs| && locs[i] == b;
      assert Covers(locs[i].path, path);
      var j: nat :| j < |other| && other[j] == a;
      assert Covers(other[j].path, path);
      assert a.path == path[..|a.path|] == b.path;
    }
  }

  lemma CoveredToo(locs: seq<LocationConfig>, other: seq<LocationConfig>, path: string)
    requires multiset(locs) == multiset(other)
    ensures Location(locs, path).Some? ==> Location(other, path).Some?
  {
    var best := FindBest(other, path);
    if Location(locs, path).Some? {
      var a := locs[Location(locs, path).value];
      assert a in multiset(other);
      var j: nat :| j < |other| && other[j] == a;
      assert Covers(other[j].path, path);
    }
  }

  /** Some location is best unless none covers the path. */
  lemma {:induction false} FindBest(locs: seq<LocationConfig>, path: string) returns (best: Option<nat>)
    ensures best == Location(locs, path)
    ensures best.None? ==> NoneCovers(locs, path)
    decreases |locs|
  {
    if locs == [] {
      best := None;
    } else {
      var n := |locs| - 1;
      best := FindBest(locs[..n], path);
      assert forall j :: 0 <= j < n ==> locs[..n][j] == locs[j];
      if Covers(locs[n].path, path) && (best.None? || |locs[n].path| > |locs[best.value].path|) {
        best := Some(n);
      }
      if best.Some? { BestIsUnique(locs, path, best.value); }
    }
  }

  // ----- servers -----

  /** std::string::rfind of one character. */
  function RFind(s: string, c: char): (r: nat)
    ensures r <= |s|
    ensures r < |s| ==> s[r] == c && c !in s[r + 1..]
    ensures r == |s| ==> c !in s
  {
    if s == [] then 0
    else if s[|s| - 1] == c then |s| - 1
    else
      var r := RFind(s[..|s| - 1], c);
      if r == |s| - 1 then |s| else r
  }

  /** The Host field without its port. */
  function HostName(host: string): string { host[..RFind(host, ':')] }

  /** A name with a port behind it, or without one, is read as the name; only the last
      colon separates. */
  lemma HostNameRead(name: string, port: string)
    requires ':' !in port
    ensures HostName(name + ":" + port) == name && (':' !in name ==> HostName(name) == name)
  {
    var host := name + ":" + port;
    hide RFind;
    assert host[|name|] == ':' && host[..|name|] == name;
    assert forall i :: |name| < i < |host| ==> host[i] == port[i - |name| - 1];
    assert name[..|name|] == name;
  }

  predicate Answers(srv: ServerConfig, port: int, name: string) {
    srv.port == port && name in srv.serverNames
  }

  /** The first server block on the listening port that has the host's name, else
      the one the listening socket was opened for. */
  ghost predicate IsServerFor(servers: seq<ServerConfig>, default: nat, host: string, r: nat) {
    && default < |servers| && r < |servers|
    && var name, port := HostName(host), servers[default].port;
       if name == "" || forall i :: 0 <= i < |servers| ==> servers[i].port != port || name !in servers[i].serverNames
       then r == default
       else
         && servers[r].port == port && name in servers[r].serverNames
         && forall i :: 0 <= i < r ==> servers[i].port != port || name !in servers[i].serverNames
  }

  /** There is one such server block. */
  lemma OneServerFor(servers: seq<ServerConfig>, default: nat, host: string, r: nat, q: nat)
    requires IsServerFor(servers, default, host, r) && IsServerFor(servers, default, host, q)
    ensures r == q
  {
    hide HostName, Answers;
  }

  /** The first block from i on that answers to the name, else the default. */
  function FirstAnswering(servers: seq<ServerConfig>, port: int, name: string, i: nat, default: nat): (r: nat)
    requires default < |servers| && i <= |servers|
    ensures r < |servers|
    ensures (forall k :: i <= k < |servers| ==> !Answers(servers[k], port, name)) ==> r == default
    ensures (exists k :: i <= k < |servers| && Answers(servers[k], port, name)) ==>
              i <= r && Answers(servers[r], port, name) && forall k :: i <= k < r ==> !Answers(servers[k], port, name)
    decreases |servers| - i
  {
    if i == |servers| then default
    else if Answers(servers[i], port, name) then i
    else FirstAnswering(servers, port, name, i + 1, default)
  }

  function ServerFor(servers: seq<ServerConfig>, default: nat, host: string): (r: nat)
    requires default < |servers|
    ensures IsServerFor(servers, default, host, r)
  {
    if HostName(host) == "" then default
    else FirstAnswering(servers, servers[default].port, HostName(host), 0, default)
  }

  method FindServer(servers: seq<ServerConfig>, default: nat, host: string) returns (r: nat)
    requires default < |servers|
    ensures r == ServerFor(servers, default, host)
  {
    var hostName := host;
    var colon := RFind(hostName, ':');
    if colon != |hostName| { hostName := hostName[..colon]; }
    assert hostName == HostName(host);
    if hostName == "" { return default; }

    var port := servers[default].port;
    for i := 0 to |servers|
      invariant forall k :: 0 <= k < i ==> !Answers(servers[k], port, hostName)
    {
      if servers[i].port == port {
        var names := servers[i].serverNames;
        for j := 0 to |names|
          invariant hostName !in names[..j]
        {
          if names[j] == hostName {
            assert names[j] in names;
            return i;
          }
          assert names[..j + 1] == names[..j] + [names[j]];
        }
        assert names[..|names|] == names;
      }
    }
    r := default;
  }

  // ----- body limits -----

  /** The limit of the location that will serve the path, else of its server. */
  ghost function LimitIn(srv: ServerConfig, path: string): nat {
    match Location(srv.locations, path)
    case Some(i) => if srv.locations[i].clientMaxBodySize > 0 then srv.locations[i].clientMaxBodySize
                    else srv.clientMaxBodySize
    case None => srv.clientMaxBodySize
  }

  predicate Dominates(ceiling: nat, srv: ServerConfig) {
    && srv.clientMaxBodySize <= ceiling
    && forall j :: 0 <= j < |srv.locations| ==> srv.locations[j].clientMaxBodySize <= ceiling
  }

  /** The least bound of the default limit and of every configured one. */
  predicate IsCeiling(ceiling: nat, servers: seq<ServerConfig>) {
    && DEFAULT_BODY_LIMIT <= ceiling
    && (forall i :: 0 <= i < |servers| ==> Dominates(ceiling, servers[i]))
    && (ceiling == DEFAULT_BODY_LIMIT || exists i :: 0 <= i < |servers| && Configures(servers[i], ceiling))
  }

  predicate Configures(srv: ServerConfig, limit: nat) {
    srv.clientMaxBodySize == limit || exists j :: 0 <= j < |srv.locations| && srv.locations[j].clientMaxBodySize == limit
  }

  /** The loop at the start of Server::init. */
  method Ceiling(servers: seq<ServerConfig>) returns (ceiling: nat)
    ensures IsCeiling(ceiling, servers)
  {
    ceiling := DEFAULT_BODY_LIMIT;
    for i := 0 to |servers|
      invariant IsCeiling(ceiling, servers[..i])
    {
      ghost var before := ceiling;
      if servers[i].clientMaxBodySize > ceiling {
        ceiling := servers[i].clientMaxBodySize;
      }
      for j := 0 to |servers[i].locations|
        invariant before <= ceiling && servers[i].clientMaxBodySize <= ceiling
        invariant forall k :: 0 <= k < j ==> servers[i].locations[k].clientMaxBodySize <= ceiling
        invariant ceiling == before || Configures(servers[i], ceiling)
      {
        if servers[i].locations[j].clientMaxBodySize > ceiling {
          ceiling := servers[i].locations[j].clientMaxBodySize;
        }
      }
      OneMoreServer(before, ceiling, servers[..i], servers[i]);
      assert servers[..i + 1] == servers[..i] + [servers[i]];
    }
    assert servers[..|servers|] == servers;
  }

  lemma OneMoreServer(before: nat, ceiling: nat, servers: seq<ServerConfig>, srv: ServerConfig)
    requires IsCeiling(before, servers) && before <= ceiling && Dominates(ceiling, srv)
    requires ceiling == before || Configures(srv, ceiling)
    ensures IsCeiling(ceiling, servers + [srv])
  {
    var all := servers + [srv];
    assert all[|servers|] == srv;
    forall i | 0 <= i < |all| ensures Dominates(ceiling, all[i]) {
      if i < |servers| { assert all[i] == servers[i] && Dominates(before, servers[i]); }
    }
    if ceiling == before && ceiling != DEFAULT_BODY_LIMIT {
      var i :| 0 <= i < |servers| && Configures(servers[i], ceiling);
      assert all[i] == servers[i];
    }
  }

  lemma CeilingDominates(ceiling: nat, servers: seq<ServerConfig>, i: nat, path: string)
    requires IsCeiling(ceiling, servers) && i < |servers|
    ensures LimitIn(servers[i], path) <= ceiling
  {
    assert Dominates(ceiling, servers[i]);
  }
}
