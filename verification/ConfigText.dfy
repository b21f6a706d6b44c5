/** The configuration language: what its directives mean, and the proof that the
    parser reads any list of well-formed blocks so, in particular the canonical
    text of any representable configuration back to that configuration. */
module ConfigText {
  import opened Text
  import opened Wrappers
  import opened Routing
  import opened ConfigTokens
  import opened ConfigParser

  /** A directive: its key and its arguments. A block item is one, or a location. */
  datatype Directive = Directive(key: string, args: seq<string>)
  datatype Directives = NoDirectives | Directives(first: Directive, others: Directives)
  datatype Item = Simple(d: Directive) | Location(path: string, ds: Directives)
  datatype Items = NoItems | Items(first: Item, others: Items)
  datatype ServerTexts = NoServers | ServerTexts(first: Items, others: ServerTexts)

  // ----- tokens of blocks -----

  function DirectiveTokens(d: Directive): seq<string> { [d.key] + (d.args + [";"]) }

  /** The directives and the closing brace of their block. */
  function LocationTokens(ds: Directives): seq<string> {
    match ds
    case NoDirectives => ["}"]
    case Directives(d, others) => DirectiveTokens(d) + LocationTokens(others)
  }

  function ItemTokens(item: Item): seq<string> {
    match item
    case Simple(d) => DirectiveTokens(d)
    case Location(path, ds) => ["location", path, "{"] + LocationTokens(ds)
  }

  function ServerTokens(items: Items): seq<string> {
    match items
    case NoItems => ["}"]
    case Items(item, others) => ItemTokens(item) + ServerTokens(others)
  }

  function FileTokens(blocks: ServerTexts): seq<string> {
    match blocks
    case NoServers => []
    case ServerTexts(items, others) => ["server", "{"] + (ServerTokens(items) + FileTokens(others))
  }

  // ----- what directives mean -----

  predicate IsArg(t: string) { t != ";" && t != "}" }

  predicate AreArgs(d: Directive) {
    IsArg(d.key) && forall k :: 0 <= k < |d.args| ==> IsArg(d.args[k])
  }

  predicate IsCode(s: string) { 100 <= Atoi(s) < 600 }

  /** The right number of arguments for the key; unknown keys take any. */
  predicate GoodInLocation(d: Directive) {
    && AreArgs(d)
    && (IsLocationSetting(d.key) ==> |d.args| == 1)
    && (d.key == "cgi" ==> |d.args| == 2)
    && (d.key == "return" ==> |d.args| == 1 || (|d.args| == 2 && IsCode(d.args[0])))
  }

  function InLocation(d: Directive, loc: LocationConfig): LocationConfig
    requires GoodInLocation(d)
  {
    var key, args := d.key, d.args;
    if IsMethodsKey(key) then loc.(methods := loc.methods + args)
    else if IsLocationSetting(key) then LocationSetting(key, args[0], loc)
    else if key == "cgi" then loc.(cgiExtensions := loc.cgiExtensions[args[0] := args[1]])
    else if key == "return" && |args| == 2 then loc.(redirectCode := Atoi(args[0]), redirect := args[1])
    else if key == "return" then loc.(redirectCode := 302, redirect := args[0])
    else loc
  }

  predicate AllGoodInLocation(ds: Directives) {
    ds.Directives? ==> GoodInLocation(ds.first) && AllGoodInLocation(ds.others)
  }

  function AllInLocation(ds: Directives, loc: LocationConfig): LocationConfig
    requires AllGoodInLocation(ds)
  {
    match ds
    case NoDirectives => loc
    case Directives(d, others) => AllInLocation(others, InLocation(d, loc))
  }

  predicate GoodItem(item: Item) {
    match item
    case Location(path, ds) => AllGoodInLocation(ds)
    case Simple(d) =>
      && AreArgs(d) && d.key != "location"
      && (d.key == "listen" || d.key == "client_max_body_size" ==> |d.args| == 1)
      && (d.key == "error_page" ==> |d.args| == 2)
  }

  function InServer(item: Item, srv: ServerConfig): ServerConfig
    requires GoodItem(item)
  {
    match item
    case Location(path, ds) => srv.(locations := srv.locations + [AllInLocation(ds, NEW_LOCATION.(path := path))])
    case Simple(Directive(key, args)) =>
      if key == "listen" then Listen(args[0], srv)
      else if key == "server_name" then srv.(serverNames := srv.serverNames + args)
      else if key == "client_max_body_size" then srv.(clientMaxBodySize := BodySize(args[0]))
      else if key == "error_page" then srv.(errorPages := srv.errorPages[Atoi(args[0]) := args[1]])
      else srv
  }

  predicate AllGood(items: Items) {
    items.Items? ==> GoodItem(items.first) && AllGood(items.others)
  }

  function AllInServer(items: Items, srv: ServerConfig): ServerConfig
    requires AllGood(items)
  {
    match items
    case NoItems => srv
    case Items(item, others) => AllInServer(others, InServer(item, srv))
  }

  predicate AllGoodServers(blocks: ServerTexts) {
    blocks.ServerTexts? ==> AllGood(blocks.first) && AllGoodServers(blocks.others)
  }

  function Meant(blocks: ServerTexts): seq<ServerConfig>
    requires AllGoodServers(blocks)
  {
    match blocks
    case NoServers => []
    case ServerTexts(items, others) => [AllInServer(items, NEW_SERVER)] + Meant(others)
  }

  // ----- the parser reads them so -----

  /** The words stand in the tokens from i on. */
  predicate At(ts: seq<string>, i: nat, words: seq<string>) {
    i + |words| <= |ts| && ts[i..i + |words|] == words
  }

  lemma AtSplit(ts: seq<string>, i: nat, a: seq<string>, b: seq<string>)
    requires At(ts, i, a + b)
    ensures At(ts, i, a) && At(ts, i + |a|, b)
    ensures forall k :: 0 <= k < |a| ==> ts[i + k] == a[k]
  {
    var w := ts[i..i + |a| + |b|];
    assert w[..|a|] == a && w[|a|..] == b;
    assert ts[i..i + |a|] == w[..|a|];
    assert ts[i + |a|..i + |a| + |b|] == w[|a|..];
    assert forall k :: 0 <= k < |a| ==> w[k] == ts[i + k];
  }

  lemma OneAt(ts: seq<string>, i: nat, t: string)
    requires At(ts, i, [t])
    ensures i < |ts| && ts[i] == t
  {
    assert ts[i] == ts[i..i + 1][0];
  }

  lemma {:induction false} ArgsEndAt(ts: seq<string>, i: nat, j: nat)
    requires i <= j < |ts| && ts[j] == ";"
    requires forall k :: i <= k < j ==> IsArg(ts[k])
    ensures ArgsEnd(ts, i) == j
    decreases j - i
  {
    if i < j { ArgsEndAt(ts, i + 1, j); }
  }

  /** A directive at i: its key, its arguments and its semicolon. */
  lemma DirectiveAt(ts: seq<string>, i: nat, d: Directive)
    requires At(ts, i, DirectiveTokens(d)) && AreArgs(d)
    ensures i + 1 + |d.args| < |ts| && ts[i] == d.key && ts[i + 1 + |d.args|] == ";"
    ensures forall k :: 0 <= k < |d.args| ==> ts[i + 1 + k] == d.args[k]
    ensures ArgsEnd(ts, i + 1) == i + 1 + |d.args| && ts[i + 1..i + 1 + |d.args|] == d.args
  {
    var j := i + 1 + |d.args|;
    AtSplit(ts, i, [d.key], d.args + [";"]);
    OneAt(ts, i, d.key);
    AtSplit(ts, i + 1, d.args, [";"]);
    OneAt(ts, j, ";");
    forall k | i + 1 <= k < j ensures IsArg(ts[k]) { assert ts[i + 1 + (k - i - 1)] == d.args[k - i - 1]; }
    ArgsEndAt(ts, i + 1, j);
  }

  lemma LocationDirectiveRead(ts: seq<string>, i: nat, d: Directive, loc: LocationConfig)
    requires At(ts, i, DirectiveTokens(d)) && GoodInLocation(d)
    ensures i < |ts| && IsArg(ts[i])
    ensures LocationDirective(ts, i, loc) == Some((InLocation(d, loc), i + |DirectiveTokens(d)|))
  {
    DirectiveAt(ts, i, d);
    assert |d.args| > 0 ==> ts[i + 1 + 0] == d.args[0];
    assert |d.args| > 1 ==> ts[i + 1 + 1] == d.args[1];
    hide Atoi, BodySize, ArgsEnd, At;
  }

  lemma LocationGoesOn(ts: seq<string>, i: nat, loc: LocationConfig, next: LocationConfig, j: nat)
    requires i < |ts| && IsArg(ts[i]) && LocationDirective(ts, i, loc) == Some((next, j))
    ensures j <= |ts| && LocationBlock(ts, i, loc) == LocationBlock(ts, j, next)
  {
    hide LocationDirective;
  }

  /** The first directive of the rest of a block is read, and the others stand behind it. */
  lemma LocationStep(ts: seq<string>, i: nat, ds: Directives, loc: LocationConfig) returns (j: nat)
    requires At(ts, i, LocationTokens(ds)) && AllGoodInLocation(ds) && ds.Directives?
    ensures j + |LocationTokens(ds.others)| == i + |LocationTokens(ds)| && j <= |ts|
    ensures At(ts, j, LocationTokens(ds.others))
    ensures LocationBlock(ts, i, loc) == LocationBlock(ts, j, InLocation(ds.first, loc))
  {
    var words := DirectiveTokens(ds.first);
    j := i + |words|;
    assert LocationTokens(ds) == words + LocationTokens(ds.others);
    hide *;
    AtSplit(ts, i, words, LocationTokens(ds.others));
    LocationDirectiveRead(ts, i, ds.first, loc);
    LocationGoesOn(ts, i, loc, InLocation(ds.first, loc), j);
  }

  lemma {:induction false} LocationBlockRead(ts: seq<string>, i: nat, ds: Directives, loc: LocationConfig)
    requires At(ts, i, LocationTokens(ds)) && AllGoodInLocation(ds)
    ensures LocationBlock(ts, i, loc) == Some((AllInLocation(ds, loc), i + |LocationTokens(ds)|))
    decreases ds
  {
    if ds.NoDirectives? {
      OneAt(ts, i, "}");
    } else {
      var next := InLocation(ds.first, loc);
      assert AllInLocation(ds, loc) == AllInLocation(ds.others, next);
      hide *;
      var j := LocationStep(ts, i, ds, loc);
      LocationBlockRead(ts, j, ds.others, next);
    }
  }

  lemma SimpleRead(ts: seq<string>, i: nat, d: Directive, srv: ServerConfig)
    requires At(ts, i, DirectiveTokens(d)) && GoodItem(Simple(d))
    ensures i < |ts| && IsArg(ts[i])
    ensures ServerDirective(ts, i, srv) == Some((InServer(Simple(d), srv), i + |DirectiveTokens(d)|))
  {
    DirectiveAt(ts, i, d);
    assert |d.args| > 0 ==> ts[i + 1 + 0] == d.args[0];
    assert |d.args| > 1 ==> ts[i + 1 + 1] == d.args[1];
    hide Atoi, BodySize, ArgsEnd, At, Listen;
  }

  lemma LocationFollows(ts: seq<string>, i: nat, path: string, srv: ServerConfig, loc: LocationConfig, j: nat)
    requires i + 2 < |ts| && ts[i] == "location" && ts[i + 1] == path && ts[i + 2] == "{"
    requires LocationBlock(ts, i + 3, NEW_LOCATION.(path := path)) == Some((loc, j))
    ensures ServerDirective(ts, i, srv) == Some((srv.(locations := srv.locations + [loc]), j))
  {
    hide LocationBlock;
  }

  lemma LocationOpens(ts: seq<string>, i: nat, path: string, rest: seq<string>)
    requires At(ts, i, ["location", path, "{"] + rest)
    ensures i + 2 < |ts| && ts[i] == "location" && ts[i + 1] == path && ts[i + 2] == "{"
    ensures At(ts, i + 3, rest)
  {
    AtSplit(ts, i, ["location", path, "{"], rest);
    assert ts[i + 0] == "location";
  }

  lemma LocationRead(ts: seq<string>, i: nat, path: string, ds: Directives, srv: ServerConfig)
    returns (loc: LocationConfig)
    requires At(ts, i, ["location", path, "{"] + LocationTokens(ds)) && AllGoodInLocation(ds)
    ensures i < |ts| && ts[i] == "location"
    ensures loc == AllInLocation(ds, NEW_LOCATION.(path := path))
    ensures ServerDirective(ts, i, srv) ==
            Some((srv.(locations := srv.locations + [loc]), i + 3 + |LocationTokens(ds)|))
  {
    hide *;
    loc := AllInLocation(ds, NEW_LOCATION.(path := path));
    LocationOpens(ts, i, path, LocationTokens(ds));
    LocationBlockRead(ts, i + 3, ds, NEW_LOCATION.(path := path));
    LocationFollows(ts, i, path, srv, loc, i + 3 + |LocationTokens(ds)|);
  }

  lemma ItemRead(ts: seq<string>, i: nat, item: Item, srv: ServerConfig)
    requires At(ts, i, ItemTokens(item)) && GoodItem(item)
    ensures i < |ts| && IsArg(ts[i])
    ensures ServerDirective(ts, i, srv) == Some((InServer(item, srv), i + |ItemTokens(item)|))
  {
    match item
    case Simple(d) =>
      hide ServerDirective, InServer, DirectiveTokens, At;
      SimpleRead(ts, i, d, srv);
    case Location(path, ds) =>
      hide ServerDirective, LocationTokens, AllInLocation, AllGoodInLocation, At;
      var loc := LocationRead(ts, i, path, ds, srv);
  }

  lemma ServerGoesOn(ts: seq<string>, i: nat, srv: ServerConfig, next: ServerConfig, j: nat)
    requires i < |ts| && IsArg(ts[i]) && ServerDirective(ts, i, srv) == Some((next, j))
    ensures j <= |ts| && ServerBlock(ts, i, srv) == ServerBlock(ts, j, next)
  {
    hide ServerDirective;
  }

  lemma ServerStep(ts: seq<string>, i: nat, items: Items, srv: ServerConfig) returns (j: nat)
    requires At(ts, i, ServerTokens(items)) && AllGood(items) && items.Items?
    ensures j + |ServerTokens(items.others)| == i + |ServerTokens(items)| && j <= |ts|
    ensures At(ts, j, ServerTokens(items.others))
    ensures ServerBlock(ts, i, srv) == ServerBlock(ts, j, InServer(items.first, srv))
  {
    var words := ItemTokens(items.first);
    j := i + |words|;
    assert ServerTokens(items) == words + ServerTokens(items.others);
    hide *;
    AtSplit(ts, i, words, ServerTokens(items.others));
    ItemRead(ts, i, items.first, srv);
    ServerGoesOn(ts, i, srv, InServer(items.first, srv), j);
  }

  lemma {:induction false} ServerBlockRead(ts: seq<string>, i: nat, items: Items, srv: ServerConfig)
    requires At(ts, i, ServerTokens(items)) && AllGood(items)
    ensures ServerBlock(ts, i, srv) == Some((AllInServer(items, srv), i + |ServerTokens(items)|))
    decreases items
  {
    if items.NoItems? {
      OneAt(ts, i, "}");
    } else {
      var next := InServer(items.first, srv);
      assert AllInServer(items, srv) == AllInServer(items.others, next);
      hide *;
      var j := ServerStep(ts, i, items, srv);
      ServerBlockRead(ts, j, items.others, next);
    }
  }

  lemma OpeningAt(ts: seq<string>, i: nat, rest: seq<string>)
    requires At(ts, i, ["server", "{"] + rest)
    ensures i + 1 < |ts| && ts[i] == "server" && ts[i + 1] == "{" && At(ts, i + 2, rest)
  {
    AtSplit(ts, i, ["server", "{"], rest);
    assert ts[i + 0] == "server";
  }

  lemma BlocksGoOn(ts: seq<string>, i: nat, servers: seq<ServerConfig>, srv: ServerConfig, j: nat)
    requires i + 1 < |ts| && ts[i] == "server" && ts[i + 1] == "{"
    requires ServerBlock(ts, i + 2, NEW_SERVER) == Some((srv, j))
    ensures j <= |ts| && Blocks(ts, i, servers) == Blocks(ts, j, servers + [srv])
  {
    hide ServerBlock;
  }

  lemma BlocksStep(ts: seq<string>, i: nat, items: Items, rest: seq<string>, servers: seq<ServerConfig>)
    returns (j: nat)
    requires At(ts, i, ["server", "{"] + (ServerTokens(items) + rest)) && AllGood(items)
    ensures j == i + 2 + |ServerTokens(items)| && At(ts, j, rest) && j <= |ts|
    ensures Blocks(ts, i, servers) == Blocks(ts, j, servers + [AllInServer(items, NEW_SERVER)])
  {
    hide *;
    var a := ServerTokens(items);
    j := i + 2 + |a|;
    OpeningAt(ts, i, a + rest);
    AtSplit(ts, i + 2, a, rest);
    ServerBlockRead(ts, i + 2, items, NEW_SERVER);
    BlocksGoOn(ts, i, servers, AllInServer(items, NEW_SERVER), j);
  }

  lemma {:induction false} BlocksRead(ts: seq<string>, i: nat, blocks: ServerTexts, servers: seq<ServerConfig>)
    requires At(ts, i, FileTokens(blocks)) && i + |FileTokens(blocks)| == |ts|
    requires AllGoodServers(blocks)
    ensures Blocks(ts, i, servers) == (servers + Meant(blocks) != [], servers + Meant(blocks))
    decreases blocks
  {
    if blocks.NoServers? {
      assert servers + [] == servers;
    } else {
      var a, b := ServerTokens(blocks.first), FileTokens(blocks.others);
      var srv := AllInServer(blocks.first, NEW_SERVER);
      assert FileTokens(blocks) == ["server", "{"] + (a + b);
      assert Meant(blocks) == [srv] + Meant(blocks.others);
      hide *;
      var j := BlocksStep(ts, i, blocks.first, b, servers);
      BlocksRead(ts, j, blocks.others, servers + [srv]);
      Regroup(servers, srv, Meant(blocks.others));
    }
  }

  lemma Regroup(a: seq<ServerConfig>, b: ServerConfig, c: seq<ServerConfig>)
    ensures (a + [b]) + c == a + ([b] + c)
  {
  }

  predicate AllPlain(ts: seq<string>) { forall k :: 0 <= k < |ts| ==> IsPlain(ts[k]) }

  /** Tokenizing and parsing the text of well-formed blocks gives what they mean:
      any directives, in any order, repeated or unknown. */
  lemma BlocksRoundTrip(blocks: ServerTexts)
    requires blocks.ServerTexts? && AllGoodServers(blocks) && AllPlain(FileTokens(blocks))
    ensures Blocks(Tokens(Spelled(FileTokens(blocks))), 0, []) == (true, Meant(blocks))
  {
    var ts := FileTokens(blocks);
    assert Meant(blocks) != [];
    TokensOfSpelled(ts);
    assert At(ts, 0, ts) by { assert ts[0..|ts|] == ts; }
    hide *;
    BlocksRead(ts, 0, blocks, []);
    assert [] + Meant(blocks) == Meant(blocks);
  }
}
