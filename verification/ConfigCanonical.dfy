/** The canonical text of a configuration, and the proof that parsing it gives the
    configuration back. */
module ConfigCanonical {
  import opened Text
  import opened Routing
  import opened ConfigTokens
  import opened ConfigParser
  import opened ConfigText

  const INT_RANGE: nat := 0x8000_0000

  // ----- numbers -----

  lemma DecimalIsBare(n: nat)
    ensures IsBare(Decimal(n))
  {
    DecimalNumber(n);
    DigitsAreBare(Decimal(n));
  }

  predicate IsSuffix(c: char) { c == 'k' || c == 'K' || c == 'm' || c == 'M' || c == 'g' || c == 'G' }

  lemma DigitsAreBare(s: string)
    requires IsDigits(s, 10)
    ensures IsBare(s) && forall i :: 0 <= i < |s| ==> s[i] != ':' && !IsSuffix(s[i])
  {
    assert forall c: char :: IsDigit(c, 10) ==> !EndsWord(c) && !IsQuote(c) && c != ':' && !IsSuffix(c);
    assert forall i :: 0 <= i < |s| ==> IsDigit(s[i], 10);
  }

  lemma NoSuffix(s: string)
    requires s != "" && !IsSuffix(s[|s| - 1])
    ensures BodySize(s) == ToSize(Strtol(s, 10))
  {
    hide Strtol;
  }

  lemma DecimalReads(n: nat)
    requires n <= LONG_MAX
    ensures BodySize(Decimal(n)) == n && (n < INT_RANGE ==> Atoi(Decimal(n)) == n)
  {
    DecimalNumber(n);
    DigitsAreBare(Decimal(n));
    StrtolNumber(Decimal(n), 10);
    NoSuffix(Decimal(n));
    hide NumberOf, Decimal, IsDigits, Strtol, IsBare, IsSuffix, BodySize;
  }

  /** A suffix multiplies, in size_t. */
  lemma SuffixReads(n: nat, suffix: char, unit: nat)
    requires n <= LONG_MAX
    requires ((suffix == 'k' || suffix == 'K') && unit == 1024) || ((suffix == 'm' || suffix == 'M') && unit == 1024 * 1024)
             || ((suffix == 'g' || suffix == 'G') && unit == 1024 * 1024 * 1024)
    ensures BodySize(Decimal(n) + [suffix]) == n * unit % SIZE_RANGE
  {
    DecimalNumber(n);
    assert !IsDigit(suffix, 10);
    StrtolPrefix(Decimal(n), [suffix]);
    hide Decimal, NumberOf, Strtol, IsDigits;
  }

  // ----- location blocks -----

  predicate BareOrEmpty(s: string) { s == "" || IsBare(s) }

  predicate AllBare(ts: seq<string>) { forall k :: 0 <= k < |ts| ==> IsBare(ts[k]) }

  /** What can be written without quotes. */
  predicate LocationWritable(loc: LocationConfig) {
    && IsBare(loc.path) && BareOrEmpty(loc.root) && BareOrEmpty(loc.index) && BareOrEmpty(loc.uploadPath)
    && AllBare(loc.methods) && loc.clientMaxBodySize <= LONG_MAX
    && (if loc.redirectCode == 0 then loc.redirect == "" else 100 <= loc.redirectCode < 600 && IsBare(loc.redirect))
    && forall k <- loc.cgiExtensions :: IsBare(k) && IsBare(loc.cgiExtensions[k])
  }

  function Setting(key: string, value: string, rest: Directives): Directives {
    if value == "" then rest else Directives(Directive(key, [value]), rest)
  }

  function Redirect(code: int, url: string, rest: Directives): Directives {
    if code <= 0 then rest else Directives(Directive("return", [Decimal(code), url]), rest)
  }

  ghost function CgiDirectives(m: map<string, string>): Directives {
    if m == map[] then NoDirectives
    else
      var k :| k in m;
      Directives(Directive("cgi", [k, m[k]]), CgiDirectives(m - {k}))
  }

  ghost function PolicyText(loc: LocationConfig): Directives
    requires LocationWritable(loc)
  {
    Setting("autoindex", if loc.autoindex then "on" else "off",
      Setting("client_max_body_size", Decimal(loc.clientMaxBodySize),
        Directives(Directive("methods", loc.methods),
          Redirect(loc.redirectCode, loc.redirect, CgiDirectives(loc.cgiExtensions)))))
  }

  ghost function LocationText(loc: LocationConfig): Directives
    requires LocationWritable(loc)
  {
    Setting("root", loc.root, Setting("index", loc.index,
      Setting("upload_path", loc.uploadPath, PolicyText(loc))))
  }

  /** The directives can be written, and read from one record they give the other. */
  predicate Sets(ds: Directives, from: LocationConfig, to: LocationConfig) {
    AllGoodInLocation(ds) && AllPlain(LocationTokens(ds)) && AllInLocation(ds, from) == to
  }

  lemma PlainDirective(key: string, args: seq<string>)
    requires IsBare(key) && AllBare(args)
    ensures AllPlain(DirectiveTokens(Directive(key, args))) && AreArgs(Directive(key, args))
  {
    assert forall t: string :: IsBare(t) ==> IsPlain(t) && IsArg(t) by {
      assert forall t: string :: t == ";" || t == "}" ==> EndsWord(t[0]);
    }
    hide IsBare;
  }

  lemma SetsMore(d: Directive, ds: Directives, from: LocationConfig, to: LocationConfig)
    requires GoodInLocation(d) && AllPlain(DirectiveTokens(d)) && Sets(ds, InLocation(d, from), to)
    ensures Sets(Directives(d, ds), from, to)
  {
    hide GoodInLocation, InLocation, DirectiveTokens, IsPlain;
  }

  lemma SettingSets(key: string, value: string, ds: Directives, from: LocationConfig, to: LocationConfig)
    requires IsBare(key) && IsLocationSetting(key) && BareOrEmpty(value)
    requires Sets(ds, if value == "" then from else LocationSetting(key, value, from), to)
    ensures Sets(Setting(key, value, ds), from, to)
  {
    if value != "" {
      var d := Directive(key, [value]);
      assert Setting(key, value, ds) == Directives(d, ds);
      PlainDirective(key, [value]);
      assert GoodInLocation(d) && InLocation(d, from) == LocationSetting(key, value, from) by {
        hide LocationSetting, IsBare;
      }
      hide *;
      SetsMore(d, ds, from, to);
    }
  }

  lemma RedirectMeans(code: int, url: string, from: LocationConfig)
    requires 100 <= code < 600 && IsBare(url)
    ensures var d := Directive("return", [Decimal(code), url]);
            && GoodInLocation(d) && AllPlain(DirectiveTokens(d))
            && InLocation(d, from) == from.(redirectCode := code, redirect := url)
  {
    assert IsBare("return");
    DecimalIsBare(code);
    DecimalReads(code);
    hide *;
    BothBare(Decimal(code), url);
    PlainDirective("return", [Decimal(code), url]);
    RedirectRecorded([Decimal(code), url], from);
  }

  lemma RedirectRecorded(args: seq<string>, from: LocationConfig)
    requires |args| == 2 && AreArgs(Directive("return", args)) && 100 <= Atoi(args[0]) < 600
    ensures GoodInLocation(Directive("return", args))
    ensures InLocation(Directive("return", args), from) == from.(redirectCode := Atoi(args[0]), redirect := args[1])
  {
    hide AreArgs, Atoi, BodySize;
  }

  lemma RedirectSets(code: int, url: string, ds: Directives, from: LocationConfig, to: LocationConfig)
    requires if code == 0 then url == "" else 100 <= code < 600 && IsBare(url)
    requires from.redirectCode == 0 && from.redirect == ""
    requires Sets(ds, from.(redirectCode := code, redirect := url), to)
    ensures Sets(Redirect(code, url, ds), from, to)
  {
    if code != 0 {
      assert Redirect(code, url, ds) == Directives(Directive("return", [Decimal(code), url]), ds);
      hide *;
      RedirectMeans(code, url, from);
      SetsMore(Directive("return", [Decimal(code), url]), ds, from, to);
    }
  }

  lemma MethodsSet(methods: seq<string>, ds: Directives, from: LocationConfig, to: LocationConfig)
    requires AllBare(methods) && from.methods == [] && Sets(ds, from.(methods := methods), to)
    ensures Sets(Directives(Directive("methods", methods), ds), from, to)
  {
    PlainDirective("methods", methods);
    assert [] + methods == methods;
    hide IsBare, Sets, DirectiveTokens;
    SetsMore(Directive("methods", methods), ds, from, to);
  }

  lemma CgiMeans(key: string, value: string, from: LocationConfig)
    requires IsBare(key) && IsBare(value)
    ensures var d := Directive("cgi", [key, value]);
            && GoodInLocation(d) && AllPlain(DirectiveTokens(d))
            && InLocation(d, from) == from.(cgiExtensions := from.cgiExtensions[key := value])
  {
    PlainDirective("cgi", [key, value]);
    hide IsBare, DirectiveTokens;
  }

  lemma CgiFirst(m: map<string, string>) returns (k: string)
    requires m != map[]
    ensures k in m && CgiDirectives(m) == Directives(Directive("cgi", [k, m[k]]), CgiDirectives(m - {k}))
  {
    k :| k in m && CgiDirectives(m) == Directives(Directive("cgi", [k, m[k]]), CgiDirectives(m - {k}));
  }

  lemma EntryFirst<K, V>(all: map<K, V>, m: map<K, V>, k: K)
    requires k in m
    ensures all[k := m[k]] + (m - {k}) == all + m
  {
  }

  lemma {:induction false} CgiSet(m: map<string, string>, from: LocationConfig)
    requires forall k <- m :: IsBare(k) && IsBare(m[k])
    ensures Sets(CgiDirectives(m), from, from.(cgiExtensions := from.cgiExtensions + m))
    decreases |m|
  {
    if m == map[] {
      assert from.cgiExtensions + m == from.cgiExtensions;
    } else {
      hide *;
      var k := CgiFirst(m);
      EntryFirst(from.cgiExtensions, m, k);
      CgiMeans(k, m[k], from);
      Smaller(m, k);
      CgiSet(m - {k}, from.(cgiExtensions := from.cgiExtensions[k := m[k]]));
      SetsMore(Directive("cgi", [k, m[k]]), CgiDirectives(m - {k}), from, from.(cgiExtensions := from.cgiExtensions + m));
    }
  }

  lemma Smaller<K, V>(m: map<K, V>, k: K)
    requires k in m
    ensures |m - {k}| < |m| && forall j <- m - {k} :: j in m && (m - {k})[j] == m[j]
  {
    assert m.Keys == (m - {k}).Keys + {k};
  }

  lemma SettingsAre(value: string, loc: LocationConfig)
    ensures LocationSetting("root", value, loc) == loc.(root := value)
    ensures LocationSetting("index", value, loc) == loc.(index := value)
    ensures LocationSetting("upload_path", value, loc) == loc.(uploadPath := value)
    ensures LocationSetting("autoindex", value, loc) == loc.(autoindex := value == "on")
    ensures LocationSetting("client_max_body_size", value, loc) == loc.(clientMaxBodySize := BodySize(value))
    ensures IsLocationSetting("root") && IsLocationSetting("index") && IsLocationSetting("upload_path")
    ensures IsLocationSetting("autoindex") && IsLocationSetting("client_max_body_size")
  {
    hide BodySize;
  }

  lemma PathWordsAreBare()
    ensures IsBare("root") && IsBare("index") && IsBare("upload_path")
  {
  }

  lemma SwitchWordsAreBare()
    ensures IsBare("autoindex") && IsBare("on") && IsBare("off")
  {
  }

  lemma SizeWordIsBare()
    ensures IsBare("client_max_body_size")
  {
  }

  lemma PolicySets(loc: LocationConfig, from: LocationConfig)
    requires LocationWritable(loc)
    requires from == NEW_LOCATION.(path := loc.path, root := loc.root, index := loc.index, uploadPath := loc.uploadPath)
    ensures Sets(PolicyText(loc), from, loc)
  {
    var l1 := from.(autoindex := loc.autoindex);
    var l2 := l1.(clientMaxBodySize := loc.clientMaxBodySize);
    var l3 := l2.(methods := loc.methods);
    var l4 := l3.(redirectCode := loc.redirectCode, redirect := loc.redirect);
    var auto, size := if loc.autoindex then "on" else "off", Decimal(loc.clientMaxBodySize);
    var d4 := CgiDirectives(loc.cgiExtensions);
    var d3 := Redirect(loc.redirectCode, loc.redirect, d4);
    var d2 := Directives(Directive("methods", loc.methods), d3);
    var d1 := Setting("client_max_body_size", size, d2);
    assert PolicyText(loc) == Setting("autoindex", auto, d1);
    assert l4.(cgiExtensions := l4.cgiExtensions + loc.cgiExtensions) == loc by {
      assert map[] + loc.cgiExtensions == loc.cgiExtensions;
    }
    assert LocationWritable(loc);
    hide *;
    DecimalIsBare(loc.clientMaxBodySize);
    DecimalReads(loc.clientMaxBodySize);
    SwitchWordsAreBare();
    SizeWordIsBare();
    SettingsAre(auto, from);
    SettingsAre(size, l1);
    CgiSet(loc.cgiExtensions, l4);
    RedirectSets(loc.redirectCode, loc.redirect, d4, l3, loc);
    MethodsSet(loc.methods, d3, l2, loc);
    SettingSets("client_max_body_size", size, d2, l1, loc);
    SettingSets("autoindex", auto, d1, from, loc);
  }

  lemma LocationTextSets(loc: LocationConfig)
    requires LocationWritable(loc)
    ensures Sets(LocationText(loc), NEW_LOCATION.(path := loc.path), loc)
  {
    var l0 := NEW_LOCATION.(path := loc.path);
    var l1 := l0.(root := loc.root);
    var l2 := l1.(index := loc.index);
    var l3 := l2.(uploadPath := loc.uploadPath);
    var d3 := PolicyText(loc);
    var d2 := Setting("upload_path", loc.uploadPath, d3);
    var d1 := Setting("index", loc.index, d2);
    assert LocationText(loc) == Setting("root", loc.root, d1);
    hide Sets, Setting, PolicyText, LocationSetting, IsBare, IsLocationSetting;
    PolicySets(loc, l3);
    PathWordsAreBare();
    SettingsAre(loc.uploadPath, l2);
    SettingsAre(loc.index, l1);
    SettingsAre(loc.root, l0);
    SettingSets("upload_path", loc.uploadPath, d3, l2, loc);
    SettingSets("index", loc.index, d2, l1, loc);
    SettingSets("root", loc.root, d1, l0, loc);
  }

  // ----- server blocks -----

  /** A host may be empty: the argument of listen has its colon and port behind it. */
  predicate HostWritable(host: string) {
    (host == "" || !IsQuote(host[0])) && forall i :: 0 <= i < |host| ==> !EndsWord(host[i])
  }

  predicate ServerWritable(srv: ServerConfig) {
    && HostWritable(srv.host) && 0 <= srv.port < INT_RANGE
    && AllBare(srv.serverNames) && srv.clientMaxBodySize <= LONG_MAX
    && (forall code <- srv.errorPages :: 0 <= code < INT_RANGE && IsBare(srv.errorPages[code]))
    && forall k :: 0 <= k < |srv.locations| ==> LocationWritable(srv.locations[k])
  }

  ghost function LocationItems(locs: seq<LocationConfig>): Items
    requires forall k :: 0 <= k < |locs| ==> LocationWritable(locs[k])
  {
    if locs == [] then NoItems
    else Items(Location(locs[0].path, LocationText(locs[0])), LocationItems(locs[1..]))
  }

  ghost function PageItems(pages: map<int, string>, rest: Items): Items
    requires forall code <- pages :: code >= 0
  {
    if forall code: int :: code !in pages then rest
    else
      var code: int :| code in pages;
      Items(Simple(Directive("error_page", [Decimal(code), pages[code]])), PageItems(pages - {code}, rest))
  }

  /** The argument of listen: host and port, or, if a short form is wanted and the host is
      the one a server block starts with, the port alone. */
  function ListenText(host: string, port: nat, brief: bool): string {
    if brief && host == NEW_SERVER.host then Decimal(port) else host + ":" + Decimal(port)
  }

  ghost function ServerText(srv: ServerConfig, brief: bool): Items
    requires ServerWritable(srv)
  {
    Items(Simple(Directive("listen", [ListenText(srv.host, srv.port, brief)])),
      Items(Simple(Directive("server_name", srv.serverNames)),
        Items(Simple(Directive("client_max_body_size", [Decimal(srv.clientMaxBodySize)])),
          PageItems(srv.errorPages, LocationItems(srv.locations)))))
  }

  ghost function FileText(servers: seq<ServerConfig>, brief: bool): ServerTexts
    requires forall k :: 0 <= k < |servers| ==> ServerWritable(servers[k])
  {
    if servers == [] then NoServers else ServerTexts(ServerText(servers[0], brief), FileText(servers[1..], brief))
  }

  predicate Gives(items: Items, from: ServerConfig, to: ServerConfig) {
    AllGood(items) && AllPlain(ServerTokens(items)) && AllInServer(items, from) == to
  }

  lemma GivesMore(item: Item, items: Items, from: ServerConfig, to: ServerConfig)
    requires GoodItem(item) && AllPlain(ItemTokens(item)) && Gives(items, InServer(item, from), to)
    ensures Gives(Items(item, items), from, to)
  {
    hide GoodItem, InServer, ItemTokens, IsPlain;
  }

  lemma AllPlainTogether(a: seq<string>, b: seq<string>)
    requires AllPlain(a) && AllPlain(b)
    ensures AllPlain(a + b)
  {
    hide IsPlain;
  }

  lemma LocationItemMeans(loc: LocationConfig, from: ServerConfig)
    requires LocationWritable(loc)
    ensures var item := Location(loc.path, LocationText(loc));
            && GoodItem(item) && AllPlain(ItemTokens(item))
            && InServer(item, from) == from.(locations := from.locations + [loc])
  {
    var words := ["location", loc.path, "{"];
    assert AllPlain(words);
    LocationTextSets(loc);
    hide LocationText, LocationTokens, IsPlain, LocationWritable, AllInLocation, AllGoodInLocation;
    AllPlainTogether(words, LocationTokens(LocationText(loc)));
  }

  lemma LocationItemsStart(locs: seq<LocationConfig>)
    requires locs != [] && forall k :: 0 <= k < |locs| ==> LocationWritable(locs[k])
    ensures LocationWritable(locs[0]) && forall k :: 0 <= k < |locs[1..]| ==> LocationWritable(locs[1..][k])
    ensures LocationItems(locs) == Items(Location(locs[0].path, LocationText(locs[0])), LocationItems(locs[1..]))
    ensures forall before: seq<LocationConfig> :: (before + [locs[0]]) + locs[1..] == before + locs
  {
    hide LocationWritable, LocationText;
  }

  lemma {:induction false} LocationItemsGive(locs: seq<LocationConfig>, from: ServerConfig)
    requires forall k :: 0 <= k < |locs| ==> LocationWritable(locs[k])
    ensures Gives(LocationItems(locs), from, from.(locations := from.locations + locs))
    decreases |locs|
  {
    if locs == [] {
      assert from.locations + locs == from.locations;
    } else {
      hide *;
      LocationItemsStart(locs);
      LocationItemMeans(locs[0], from);
      LocationItemsGive(locs[1..], from.(locations := from.locations + [locs[0]]));
      GivesMore(Location(locs[0].path, LocationText(locs[0])), LocationItems(locs[1..]), from,
                from.(locations := from.locations + locs));
    }
  }

  lemma PageRecorded(args: seq<string>, from: ServerConfig)
    requires |args| == 2 && AreArgs(Directive("error_page", args))
    ensures GoodItem(Simple(Directive("error_page", args)))
    ensures InServer(Simple(Directive("error_page", args)), from) ==
            from.(errorPages := from.errorPages[Atoi(args[0]) := args[1]])
  {
    hide AreArgs, Atoi, BodySize, Listen;
  }

  lemma PageMeans(code: int, page: string, from: ServerConfig)
    requires 0 <= code < INT_RANGE && IsBare(page)
    ensures var item := Simple(Directive("error_page", [Decimal(code), page]));
            && GoodItem(item) && AllPlain(ItemTokens(item))
            && InServer(item, from) == from.(errorPages := from.errorPages[code := page])
  {
    assert IsBare("error_page");
    DecimalIsBare(code);
    DecimalReads(code);
    hide *;
    assert AllBare([Decimal(code), page]) by { BothBare(Decimal(code), page); }
    PlainDirective("error_page", [Decimal(code), page]);
    PageRecorded([Decimal(code), page], from);
    SimpleTokens(Directive("error_page", [Decimal(code), page]));
  }

  lemma SimpleTokens(d: Directive)
    ensures ItemTokens(Simple(d)) == DirectiveTokens(d)
  {
  }

  lemma BothBare(s: string, t: string)
    requires IsBare(s) && IsBare(t)
    ensures AllBare([s, t])
  {
    hide IsBare;
  }

  lemma PageFirst(pages: map<int, string>, rest: Items) returns (code: int)
    requires (exists code: int :: code in pages) && forall code <- pages :: code >= 0
    ensures code in pages
    ensures PageItems(pages, rest) ==
            Items(Simple(Directive("error_page", [Decimal(code), pages[code]])), PageItems(pages - {code}, rest))
  {
    code :| code in pages &&
      PageItems(pages, rest) ==
      Items(Simple(Directive("error_page", [Decimal(code), pages[code]])), PageItems(pages - {code}, rest));
  }

  lemma {:induction false} PagesGive(pages: map<int, string>, rest: Items, from: ServerConfig, to: ServerConfig)
    requires forall code <- pages :: 0 <= code < INT_RANGE && IsBare(pages[code])
    requires Gives(rest, from.(errorPages := from.errorPages + pages), to)
    ensures Gives(PageItems(pages, rest), from, to)
    decreases |pages|
  {
    if forall code: int :: code !in pages {
      assert from.errorPages + pages == from.errorPages;
    } else {
      hide *;
      var code := PageFirst(pages, rest);
      EntryFirst(from.errorPages, pages, code);
      PageMeans(code, pages[code], from);
      Smaller(pages, code);
      PagesGive(pages - {code}, rest, from.(errorPages := from.errorPages[code := pages[code]]), to);
      GivesMore(Simple(Directive("error_page", [Decimal(code), pages[code]])), PageItems(pages - {code}, rest), from, to);
    }
  }

  /** The last colon of the argument stands before the port. */
  lemma ListenAt(host: string, digits: string)
    requires forall i :: 0 <= i < |digits| ==> digits[i] != ':'
    ensures var arg := host + ":" + digits;
            && RFind(arg, ':') == |host| < |arg| && arg[..|host|] == host && arg[|host| + 1..] == digits
  {
    var arg := host + ":" + digits;
    hide RFind;
    assert arg[|host|] == ':';
    assert forall i :: |host| < i < |arg| ==> arg[i] == digits[i - |host| - 1];
    assert arg[..|host|] == host && arg[|host| + 1..] == digits;
  }

  lemma ListenIsBare(host: string, digits: string)
    requires HostWritable(host) && IsBare(digits)
    ensures IsBare(host + ":" + digits)
  {
    var arg := host + ":" + digits;
    assert forall i :: |host| < i < |arg| ==> arg[i] == digits[i - |host| - 1];
    assert forall i :: 0 <= i < |host| ==> arg[i] == host[i];
  }

  /** The last colon of the argument stands before the port. */
  lemma ListenReads(host: string, port: int, from: ServerConfig)
    requires HostWritable(host) && 0 <= port < INT_RANGE
    ensures Listen(host + ":" + Decimal(port), from) == from.(host := host, port := port)
    ensures IsBare(host + ":" + Decimal(port))
  {
    var digits := Decimal(port);
    var arg := host + ":" + digits;
    DecimalNumber(port);
    DecimalReads(port);
    DigitsAreBare(digits);
    ListenAt(host, digits);
    ListenIsBare(host, digits);
    hide Decimal, Atoi, IsDigits, NumberOf, BodySize, RFind, IsBare, HostWritable, IsSuffix;
  }

  lemma NamesMean(names: seq<string>, from: ServerConfig)
    requires AllBare(names) && from.serverNames == []
    ensures var item := Simple(Directive("server_name", names));
            && GoodItem(item) && AllPlain(ItemTokens(item))
            && InServer(item, from) == from.(serverNames := names)
  {
    PlainDirective("server_name", names);
    assert [] + names == names;
    hide IsBare, DirectiveTokens, AreArgs, Atoi, BodySize, Listen;
  }

  lemma ListenRecorded(arg: string, from: ServerConfig)
    requires IsBare(arg)
    ensures var item := Simple(Directive("listen", [arg]));
            && GoodItem(item) && AllPlain(ItemTokens(item)) && InServer(item, from) == Listen(arg, from)
  {
    assert AllBare([arg]) by { hide IsBare; }
    PlainDirective("listen", [arg]);
    hide IsBare, DirectiveTokens, AreArgs, Atoi, BodySize, Listen;
  }

  /** A port without a host is read as the port, and the host is left alone. */
  lemma PortReads(port: nat, from: ServerConfig)
    requires port < INT_RANGE
    ensures Listen(Decimal(port), from) == from.(port := port) && IsBare(Decimal(port))
  {
    DecimalNumber(port);
    DigitsAreBare(Decimal(port));
    DecimalReads(port);
    hide Decimal, Atoi, IsDigits, NumberOf, BodySize, IsBare, IsSuffix;
  }

  lemma ListenMeans(host: string, port: int, brief: bool, from: ServerConfig)
    requires HostWritable(host) && 0 <= port < INT_RANGE && from.host == NEW_SERVER.host
    ensures var item := Simple(Directive("listen", [ListenText(host, port, brief)]));
            && GoodItem(item) && AllPlain(ItemTokens(item))
            && InServer(item, from) == from.(host := host, port := port)
  {
    var arg := ListenText(host, port, brief);
    assert (arg == Decimal(port) && host == from.host) || arg == host + ":" + Decimal(port) by { hide Decimal; }
    hide *;
    ListenReads(host, port, from);
    PortReads(port, from);
    ListenRecorded(arg, from);
  }

  lemma SizeMeans(size: nat, from: ServerConfig)
    requires size <= LONG_MAX
    ensures var item := Simple(Directive("client_max_body_size", [Decimal(size)]));
            && GoodItem(item) && AllPlain(ItemTokens(item))
            && InServer(item, from) == from.(clientMaxBodySize := size)
  {
    SizeWordIsBare();
    DecimalIsBare(size);
    DecimalReads(size);
    hide IsBare, DirectiveTokens, AreArgs, Atoi, BodySize, Listen, Decimal, NumberOf, IsDigits;
    PlainDirective("client_max_body_size", [Decimal(size)]);
  }

  lemma ServerTextGives(srv: ServerConfig, brief: bool)
    requires ServerWritable(srv)
    ensures Gives(ServerText(srv, brief), NEW_SERVER, srv)
  {
    var s1 := NEW_SERVER.(host := srv.host, port := srv.port);
    var s2 := s1.(serverNames := srv.serverNames);
    var s3 := s2.(clientMaxBodySize := srv.clientMaxBodySize);
    var s4 := s3.(errorPages := srv.errorPages);
    var d1 := Simple(Directive("listen", [ListenText(srv.host, srv.port, brief)]));
    var d2 := Simple(Directive("server_name", srv.serverNames));
    var d3 := Simple(Directive("client_max_body_size", [Decimal(srv.clientMaxBodySize)]));
    var i4 := LocationItems(srv.locations);
    var i3 := PageItems(srv.errorPages, i4);
    assert ServerText(srv, brief) == Items(d1, Items(d2, Items(d3, i3)));
    assert [] + srv.locations == srv.locations && map[] + srv.errorPages == srv.errorPages;
    hide *;
    ListenMeans(srv.host, srv.port, brief, NEW_SERVER);
    NamesMean(srv.serverNames, s1);
    SizeMeans(srv.clientMaxBodySize, s2);
    LocationItemsGive(srv.locations, s4);
    PagesGive(srv.errorPages, i4, s3, srv);
    GivesMore(d3, i3, s2, srv);
    GivesMore(d2, Items(d3, i3), s1, srv);
    GivesMore(d1, Items(d2, Items(d3, i3)), NEW_SERVER, srv);
  }

  // ----- files -----

  lemma ServerTextsStart(servers: seq<ServerConfig>, brief: bool)
    requires servers != [] && forall k :: 0 <= k < |servers| ==> ServerWritable(servers[k])
    ensures ServerWritable(servers[0]) && forall k :: 0 <= k < |servers[1..]| ==> ServerWritable(servers[1..][k])
    ensures FileText(servers, brief) == ServerTexts(ServerText(servers[0], brief), FileText(servers[1..], brief))
    ensures [servers[0]] + servers[1..] == servers
  {
    hide ServerWritable, ServerText;
  }

  lemma FileTokensPlain(items: Items, others: ServerTexts)
    requires AllPlain(ServerTokens(items)) && AllPlain(FileTokens(others))
    ensures AllPlain(FileTokens(ServerTexts(items, others)))
  {
    var words := ["server", "{"];
    assert AllPlain(words);
    assert FileTokens(ServerTexts(items, others)) == words + (ServerTokens(items) + FileTokens(others));
    hide *;
    AllPlainTogether(ServerTokens(items), FileTokens(others));
    AllPlainTogether(words, ServerTokens(items) + FileTokens(others));
  }

  lemma FileTextMore(items: Items, others: ServerTexts, srv: ServerConfig, rest: seq<ServerConfig>)
    requires Gives(items, NEW_SERVER, srv)
    requires AllGoodServers(others) && AllPlain(FileTokens(others)) && Meant(others) == rest
    ensures var blocks := ServerTexts(items, others);
            AllGoodServers(blocks) && AllPlain(FileTokens(blocks)) && Meant(blocks) == [srv] + rest
  {
    FileTokensPlain(items, others);
    hide AllGood, AllPlain, AllInServer, FileTokens, ServerTokens;
  }

  lemma {:induction false} FileTextMeans(servers: seq<ServerConfig>, brief: bool)
    requires forall k :: 0 <= k < |servers| ==> ServerWritable(servers[k])
    ensures AllGoodServers(FileText(servers, brief)) && AllPlain(FileTokens(FileText(servers, brief)))
    ensures Meant(FileText(servers, brief)) == servers
    decreases |servers|
  {
    if servers != [] {
      hide *;
      ServerTextsStart(servers, brief);
      ServerTextGives(servers[0], brief);
      FileTextMeans(servers[1..], brief);
      FileTextMore(ServerText(servers[0], brief), FileText(servers[1..], brief), servers[0], servers[1..]);
    }
  }

  /** Tokenizing and parsing the canonical text of a configuration, in either form, gives
      it back. */
  lemma ConfigRoundTrip(servers: seq<ServerConfig>, brief: bool)
    requires servers != [] && forall k :: 0 <= k < |servers| ==> ServerWritable(servers[k])
    ensures Blocks(Tokens(Spelled(FileTokens(FileText(servers, brief)))), 0, []) == (true, servers)
  {
    ServerTextsStart(servers, brief);
    FileTextMeans(servers, brief);
    hide *;
    BlocksRoundTrip(FileText(servers, brief));
  }
}
