/** The parser of webserv/src/Config.cpp: one cursor runs over the tokens and fills
    the records of server and location blocks. */
module ConfigParser {
  import opened Text
  import opened Wrappers
  import opened HttpParser
  import opened Routing
  import opened ConfigTokens

  const NEW_LOCATION := LocationConfig("", "", "", [], false, "", "", 0, map[], 0)
  const NEW_SERVER := ServerConfig("0.0.0.0", 80, [], DEFAULT_BODY_LIMIT, map[], [])

  // ----- the cursor -----

  /** Past a semicolon, if one is there. */
  function PastSemicolon(ts: seq<string>, i: nat): (r: nat)
    ensures i <= |ts| ==> i <= r <= |ts|
  {
    if i < |ts| && ts[i] == ";" then i + 1 else i
  }

  /** The first semicolon or closing brace from i on. */
  function ArgsEnd(ts: seq<string>, i: nat): (r: nat)
    requires i <= |ts|
    ensures i <= r <= |ts|
    ensures r < |ts| ==> ts[r] == ";" || ts[r] == "}"
    ensures forall k :: i <= k < r ==> ts[k] != ";" && ts[k] != "}"
    decreases |ts| - i
  {
    if i == |ts| || ts[i] == ";" || ts[i] == "}" then i else ArgsEnd(ts, i + 1)
  }

  /** parseBodySize: a number and an optional suffix, in size_t. */
  function BodySize(s: string): nat {
    if s == "" then 0
    else
      var num, last := ToSize(Strtol(s, 10)), s[|s| - 1];
      if last == 'k' || last == 'K' then num * 1024 % SIZE_RANGE
      else if last == 'm' || last == 'M' then num * (1024 * 1024) % SIZE_RANGE
      else if last == 'g' || last == 'G' then num * (1024 * 1024 * 1024) % SIZE_RANGE
      else num
  }

  // ----- directives -----

  predicate IsMethodsKey(key: string) { key == "methods" || key == "allow_methods" || key == "limit_except" }

  /** A record and the cursor behind what was read into it; None for false. */
  type Reading<T> = Option<(T, nat)>

  /** The directive of a location block whose key stands at i. */
  function LocationDirective(ts: seq<string>, i: nat, loc: LocationConfig): (r: Reading<LocationConfig>)
    requires i < |ts|
    ensures r.Some? ==> i < r.value.1 <= |ts|
  {
    var key, a := ts[i], i + 1;
    if IsMethodsKey(key) then
      Some((loc.(methods := loc.methods + ts[a..ArgsEnd(ts, a)]), PastSemicolon(ts, ArgsEnd(ts, a))))
    else if key == ";" then Some((loc, a))
    else if key == "return" then (if a == |ts| then None else Some(Return(ts, a, loc)))
    else if key == "cgi" then
      if a + 1 >= |ts| then None
      else Some((loc.(cgiExtensions := loc.cgiExtensions[ts[a] := ts[a + 1]]), PastSemicolon(ts, a + 2)))
    else if IsLocationSetting(key) then
      (if a == |ts| then None else Some((LocationSetting(key, ts[a], loc), PastSemicolon(ts, a + 1))))
    else Some((loc, PastSemicolon(ts, ArgsEnd(ts, a))))
  }

  predicate IsLocationSetting(key: string) {
    key == "root" || key == "index" || key == "autoindex" || key == "upload_path" || key == "client_max_body_size"
  }

  /** The directives with one argument. */
  function LocationSetting(key: string, arg: string, loc: LocationConfig): LocationConfig {
    if key == "root" then loc.(root := arg)
    else if key == "index" then loc.(index := arg)
    else if key == "autoindex" then loc.(autoindex := arg == "on")
    else if key == "upload_path" then loc.(uploadPath := arg)
    else loc.(clientMaxBodySize := BodySize(arg))
  }

  /** return code url; or return url; */
  function Return(ts: seq<string>, a: nat, loc: LocationConfig): (r: (LocationConfig, nat))
    requires a < |ts|
    ensures a < r.1 <= |ts|
  {
    var code := Atoi(ts[a]);
    if 100 <= code < 600 && a + 1 < |ts| && ts[a + 1] != ";" then
      (loc.(redirectCode := code, redirect := ts[a + 1]), PastSemicolon(ts, a + 2))
    else (loc.(redirectCode := 302, redirect := ts[a]), PastSemicolon(ts, a + 1))
  }

  /** The block of a location, from behind its opening brace. */
  function LocationBlock(ts: seq<string>, i: nat, loc: LocationConfig): (r: Reading<LocationConfig>)
    requires i <= |ts|
    ensures r.Some? ==> i <= r.value.1 <= |ts|
    decreases |ts| - i
  {
    if i == |ts| then Some((loc, i))
    else if ts[i] == "}" then Some((loc, i + 1))
    else
      var d := LocationDirective(ts, i, loc);
      if d.None? then None else LocationBlock(ts, d.value.1, d.value.0)
  }

  /** listen host:port; or listen port; */
  function Listen(arg: string, srv: ServerConfig): ServerConfig {
    var colon := RFind(arg, ':');
    if colon < |arg| then srv.(host := arg[..colon], port := Atoi(arg[colon + 1..]))
    else srv.(port := Atoi(arg))
  }

  function ServerDirective(ts: seq<string>, i: nat, srv: ServerConfig): (r: Reading<ServerConfig>)
    requires i < |ts|
    ensures r.Some? ==> i < r.value.1 <= |ts|
  {
    var key, a := ts[i], i + 1;
    if key == "listen" then
      (if a == |ts| then None else Some((Listen(ts[a], srv), PastSemicolon(ts, a + 1))))
    else if key == "server_name" then
      Some((srv.(serverNames := srv.serverNames + ts[a..ArgsEnd(ts, a)]), PastSemicolon(ts, ArgsEnd(ts, a))))
    else if key == "client_max_body_size" then
      (if a == |ts| then None else Some((srv.(clientMaxBodySize := BodySize(ts[a])), PastSemicolon(ts, a + 1))))
    else if key == "error_page" then
      if a + 1 >= |ts| then None
      else Some((srv.(errorPages := srv.errorPages[Atoi(ts[a]) := ts[a + 1]]), PastSemicolon(ts, a + 2)))
    else if key == "location" then
      if a + 1 >= |ts| || ts[a + 1] != "{" then None
      else
        var l := LocationBlock(ts, a + 2, NEW_LOCATION.(path := ts[a]));
        if l.None? then None else Some((srv.(locations := srv.locations + [l.value.0]), l.value.1))
    else if key == ";" then Some((srv, a))
    else Some((srv, PastSemicolon(ts, ArgsEnd(ts, a))))
  }

  function ServerBlock(ts: seq<string>, i: nat, srv: ServerConfig): (r: Reading<ServerConfig>)
    requires i <= |ts|
    ensures r.Some? ==> i <= r.value.1 <= |ts|
    decreases |ts| - i
  {
    if i == |ts| then Some((srv, i))
    else if ts[i] == "}" then Some((srv, i + 1))
    else
      var d := ServerDirective(ts, i, srv);
      if d.None? then None else ServerBlock(ts, d.value.1, d.value.0)
  }

  /** Whether parsing from i on succeeds, and the servers it leaves behind. */
  function Blocks(ts: seq<string>, i: nat, servers: seq<ServerConfig>): (bool, seq<ServerConfig>)
    requires i <= |ts|
    decreases |ts| - i
  {
    if i == |ts| then (servers != [], servers)
    else if ts[i] != "server" || i + 1 == |ts| || ts[i + 1] != "{" then (false, servers)
    else
      var b := ServerBlock(ts, i + 2, NEW_SERVER);
      if b.None? then (false, servers) else Blocks(ts, b.value.1, servers + [b.value.0])
  }

  // ----- the object -----

  method SkipSemicolon(ts: seq<string>, i: nat) returns (r: nat)
    ensures r == PastSemicolon(ts, i)
  {
    r := i;
    if r < |ts| && ts[r] == ";" { r := r + 1; }
  }

  method SkipArgs(ts: seq<string>, start: nat) returns (i: nat)
    requires start <= |ts|
    ensures i == ArgsEnd(ts, start)
  {
    i := start;
    while i < |ts| && ts[i] != ";" && ts[i] != "}"
      invariant start <= i <= |ts| && ArgsEnd(ts, start) == ArgsEnd(ts, i)
    {
      i := i + 1;
    }
  }

  method TakeArgs(ts: seq<string>, start: nat) returns (args: seq<string>, i: nat)
    requires start <= |ts|
    ensures i == ArgsEnd(ts, start) && args == ts[start..i]
  {
    i := start;
    args := [];
    while i < |ts| && ts[i] != ";" && ts[i] != "}"
      invariant start <= i <= |ts| && ArgsEnd(ts, start) == ArgsEnd(ts, i)
      invariant args == ts[start..i]
    {
      args := args + [ts[i]];
      i := i + 1;
    }
  }

  class Config {
    var servers: seq<ServerConfig>

    constructor ()
      ensures servers == []
    {
      servers := [];
    }

    /** One round of the loop in parseLocation; false where it returns false. */
    method ParseLocationDirective(ts: seq<string>, i: nat, loc: LocationConfig)
      returns (ok: bool, r: LocationConfig, next: nat)
      requires i < |ts|
      ensures LocationDirective(ts, i, loc) == if ok then Some((r, next)) else None
    {
      r := loc;
      next := i;
      var key := ts[next];
      next := next + 1;
      if key == "root" || key == "index" || key == "autoindex" || key == "upload_path" || key == "client_max_body_size" {
        if next >= |ts| { return false, r, next; }
        if key == "root" {
          r := r.(root := ts[next]);
        } else if key == "index" {
          r := r.(index := ts[next]);
        } else if key == "autoindex" {
          r := r.(autoindex := ts[next] == "on");
        } else if key == "upload_path" {
          r := r.(uploadPath := ts[next]);
        } else {
          r := r.(clientMaxBodySize := BodySize(ts[next]));
        }
        next := next + 1;
      } else if key == "methods" || key == "allow_methods" || key == "limit_except" {
        var args;
        args, next := TakeArgs(ts, next);
        r := r.(methods := r.methods + args);
      } else if key == "return" {
        if next >= |ts| { return false, r, next; }
        var first := ts[next];
        next := next + 1;
        var code := Atoi(first);
        if code >= 100 && code < 600 && next < |ts| && ts[next] != ";" {
          r := r.(redirectCode := code, redirect := ts[next]);
          next := next + 1;
        } else {
          r := r.(redirectCode := 302, redirect := first);
        }
      } else if key == "cgi" {
        if next + 1 >= |ts| { return false, r, next; }
        r := r.(cgiExtensions := r.cgiExtensions[ts[next] := ts[next + 1]]);
        next := next + 2;
      } else if key == ";" {
        return true, r, next;
      } else {
        next := SkipArgs(ts, next);
      }
      next := SkipSemicolon(ts, next);
      ok := true;
    }

    method ParseLocation(ts: seq<string>, i: nat, loc: LocationConfig)
      returns (ok: bool, r: LocationConfig, next: nat)
      requires i <= |ts|
      ensures LocationBlock(ts, i, loc) == if ok then Some((r, next)) else None
    {
      r := loc;
      next := i;
      ok := true;
      hide LocationDirective;
      while next < |ts| && ts[next] != "}"
        invariant i <= next <= |ts| && LocationBlock(ts, next, r) == LocationBlock(ts, i, loc)
        decreases |ts| - next
      {
        ok, r, next := ParseLocationDirective(ts, next, r);
        if !ok { return; }
      }
      if next < |ts| && ts[next] == "}" { next := next + 1; }
      ok := true;
    }

    method ParseServerDirective(ts: seq<string>, i: nat, srv: ServerConfig)
      returns (ok: bool, r: ServerConfig, next: nat)
      requires i < |ts|
      ensures ServerDirective(ts, i, srv) == if ok then Some((r, next)) else None
    {
      hide LocationBlock, BodySize, Atoi;
      r := srv;
      next := i;
      var key := ts[next];
      next := next + 1;
      if key == "listen" {
        if next >= |ts| { return false, r, next; }
        var val := ts[next];
        var colon := RFind(val, ':');
        if colon != |val| {
          r := r.(host := val[..colon], port := Atoi(val[colon + 1..]));
        } else {
          r := r.(port := Atoi(val));
        }
        next := SkipSemicolon(ts, next + 1);
      } else if key == "server_name" {
        var args;
        args, next := TakeArgs(ts, next);
        r := r.(serverNames := r.serverNames + args);
        next := SkipSemicolon(ts, next);
      } else if key == "client_max_body_size" {
        if next >= |ts| { return false, r, next; }
        r := r.(clientMaxBodySize := BodySize(ts[next]));
        next := SkipSemicolon(ts, next + 1);
      } else if key == "error_page" {
        if next + 1 >= |ts| { return false, r, next; }
        r := r.(errorPages := r.errorPages[Atoi(ts[next]) := ts[next + 1]]);
        next := SkipSemicolon(ts, next + 2);
      } else if key == "location" {
        if next >= |ts| { return false, r, next; }
        var loc := NEW_LOCATION.(path := ts[next]);
        next := next + 1;
        if next >= |ts| || ts[next] != "{" { return false, r, next; }
        ok, loc, next := ParseLocation(ts, next + 1, loc);
        if !ok { return; }
        r := r.(locations := r.locations + [loc]);
      } else if key != ";" {
        next := SkipArgs(ts, next);
        next := SkipSemicolon(ts, next);
      }
      ok := true;
    }

    method ParseServer(ts: seq<string>, i: nat) returns (ok: bool, next: nat)
      requires i <= |ts|
      modifies this
      ensures match ServerBlock(ts, i, NEW_SERVER)
              case None => !ok && servers == old(servers)
              case Some((srv, n)) => ok && next == n && servers == old(servers) + [srv]
    {
      var srv := NEW_SERVER;
      next := i;
      hide ServerDirective;
      while next < |ts| && ts[next] != "}"
        invariant i <= next <= |ts| && ServerBlock(ts, next, srv) == ServerBlock(ts, i, NEW_SERVER)
        invariant servers == old(servers)
        decreases |ts| - next
      {
        ok, srv, next := ParseServerDirective(ts, next, srv);
        if !ok { return; }
      }
      if next < |ts| && ts[next] == "}" { next := next + 1; }
      servers := servers + [srv];
      ok := true;
    }

    /** parse(), given the content of the file. */
    method Parse(content: string) returns (ok: bool)
      modifies this
      ensures (ok, servers) == Blocks(Tokens(content), 0, old(servers))
    {
      var tokens := Tokenize(content);
      hide Tokens, ServerBlock;
      var i := 0;
      while i < |tokens|
        invariant i <= |tokens| && Blocks(tokens, i, servers) == Blocks(tokens, 0, old(servers))
        decreases |tokens| - i
      {
        if tokens[i] == "server" {
          i := i + 1;
          if i >= |tokens| || tokens[i] != "{" { return false; }
          i := i + 1;
          var parsed;
          parsed, i := ParseServer(tokens, i);
          if !parsed { return false; }
        } else {
          return false;
        }
      }
      ok := servers != [];
    }
  }
}
