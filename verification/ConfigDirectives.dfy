/** What each directive of the configuration language does, in the terms of the
    configuration: ports, limits and codes are numbers here, written in decimal. With a
    semicolon behind it or without; and which files are refused. */
module ConfigDirectives {
  import opened Text
  import opened TextLaws
  import opened Wrappers
  import opened Routing
  import opened ConfigTokens
  import opened ConfigParser
  import opened ConfigText
  import opened ConfigCanonical

  // ----- sizes -----

  /** A number, and the letter of a unit behind it or none. */
  datatype Size = Size(number: nat, unit: string)

  predicate IsSize(s: Size) { s.number <= LONG_MAX && s.unit in ["", "k", "K", "m", "M", "g", "G"] }

  function SizeText(s: Size): string { Decimal(s.number) + s.unit }

  function UnitOf(unit: string): nat {
    if unit in ["k", "K"] then 1024
    else if unit in ["m", "M"] then 1024 * 1024
    else if unit in ["g", "G"] then 1024 * 1024 * 1024
    else 1
  }

  /** In size_t. */
  function Bytes(s: Size): nat { s.number * UnitOf(s.unit) % 0x1_0000_0000_0000_0000 }

  lemma UnitRead(n: nat, unit: char, bytes: nat)
    requires n <= LONG_MAX
    requires ((unit == 'k' || unit == 'K') && bytes == 1024) || ((unit == 'm' || unit == 'M') && bytes == 1024 * 1024)
             || ((unit == 'g' || unit == 'G') && bytes == 1024 * 1024 * 1024)
    ensures BodySize(Decimal(n) + [unit]) == n * bytes % 0x1_0000_0000_0000_0000
  {
    hide Decimal, BodySize;
    SuffixReads(n, unit, bytes);
  }

  lemma SizeRead(s: Size)
    requires IsSize(s)
    ensures BodySize(SizeText(s)) == Bytes(s)
  {
    hide Decimal, BodySize;
    var n := s.number;
    if s.unit == "" {
      DecimalReads(n);
      assert SizeText(s) == Decimal(n);
    } else if s.unit == "k" {
      UnitRead(n, 'k', 1024);
    } else if s.unit == "K" {
      UnitRead(n, 'K', 1024);
    } else if s.unit == "m" {
      UnitRead(n, 'm', 1024 * 1024);
    } else if s.unit == "M" {
      UnitRead(n, 'M', 1024 * 1024);
    } else if s.unit == "g" {
      UnitRead(n, 'g', 1024 * 1024 * 1024);
    } else {
      UnitRead(n, 'G', 1024 * 1024 * 1024);
    }
  }

  /** Any text as a size: the number it begins with, as strtol takes it, cast to size_t,
      times the unit of its last byte; nothing for an empty one. */
  lemma AnySize(space: string, sign: string, digits: string, tail: string)
    requires IsNumeral(space, sign, "", digits, tail, 10)
    ensures var text := space + (sign + ("" + digits + tail));
            && (text == "" ==> BodySize(text) == 0)
            && (text != "" ==>
                  var n := Clamped(if sign == "-" then -(NumberOf(digits, 10) as int) else NumberOf(digits, 10));
                  BodySize(text) == (if n < 0 then n + 0x1_0000_0000_0000_0000 else n) * UnitOf([text[|text| - 1]]) % 0x1_0000_0000_0000_0000)
  {
    var text := space + (sign + ("" + digits + tail));
    if text != "" {
      var n := Clamped(if sign == "-" then -(NumberOf(digits, 10) as int) else NumberOf(digits, 10));
      hide IsNumeral, NumberOf, Strtol;
      StrtolReads(space, sign, "", digits, tail, 10);
      UnitApplies(text, n);
    }
  }

  lemma UnitApplies(text: string, n: int)
    requires text != "" && Strtol(text, 10) == n && -LONG_MAX - 1 <= n <= LONG_MAX
    ensures BodySize(text) == (if n < 0 then n + 0x1_0000_0000_0000_0000 else n) * UnitOf([text[|text| - 1]]) % 0x1_0000_0000_0000_0000
  {
    hide Strtol;
    var last := text[|text| - 1];
    assert UnitOf([last]) == if last == 'k' || last == 'K' then 1024 else if last == 'm' || last == 'M' then 1024 * 1024
                             else if last == 'g' || last == 'G' then 1024 * 1024 * 1024 else 1;
  }

  // ----- the directives of a server block -----

  datatype ServerEntry =
    | ListenPort(port: nat)
    | HostPort(host: string, port: nat)
    | Names(names: seq<string>)
    | BodyLimit(size: Size)
    | ErrorPage(code: nat, page: string)
    | Other(key: string, args: seq<string>)
    | Stray

  predicate KnownInServer(key: string) {
    key == "listen" || key == "server_name" || key == "client_max_body_size" || key == "error_page"
    || key == "location" || key == ";" || key == "}"
  }

  predicate AllArgs(args: seq<string>) { forall k :: 0 <= k < |args| ==> args[k] != ";" && args[k] != "}" }

  predicate IsServerEntry(e: ServerEntry) {
    match e
    case ListenPort(port) => port < 0x8000_0000
    case HostPort(host, port) => port < 0x8000_0000
    case Names(names) => AllArgs(names)
    case BodyLimit(size) => IsSize(size)
    case ErrorPage(code, page) => code < 0x8000_0000
    case Other(key, args) => !KnownInServer(key) && AllArgs(args)
    case Stray => true
  }

  function ServerWords(e: ServerEntry): seq<string> {
    match e
    case ListenPort(port) => ["listen", Decimal(port)]
    case HostPort(host, port) => ["listen", host + ":" + Decimal(port)]
    case Names(names) => ["server_name"] + names
    case BodyLimit(size) => ["client_max_body_size", SizeText(size)]
    case ErrorPage(code, page) => ["error_page", Decimal(code), page]
    case Other(key, args) => [key] + args
    case Stray => [";"]
  }

  function ServerEffect(e: ServerEntry, srv: ServerConfig): ServerConfig {
    match e
    case ListenPort(port) => srv.(port := port)
    case HostPort(host, port) => srv.(host := host, port := port)
    case Names(names) => srv.(serverNames := srv.serverNames + names)
    case BodyLimit(size) => srv.(clientMaxBodySize := Bytes(size))
    case ErrorPage(code, page) => srv.(errorPages := srv.errorPages[code := page])
    case Other(_, _) => srv
    case Stray => srv
  }

  /** A semicolon ends every directive but a stray one; only where names or arguments of
      any number are listed can it not be left out, except before the closing brace. */
  predicate Closed(list: bool, ts: seq<string>, i: nat, j: nat) {
    || (i < |ts| && ts[i] == ";" && j == i + 1)
    || (j == i && (i == |ts| || (i < |ts| && (ts[i] == "}" || (!list && ts[i] != ";")))))
  }

  predicate IsList(e: ServerEntry) { e.Names? || e.Other? }

  lemma WordsAt(ts: seq<string>, i: nat, words: seq<string>, k: nat)
    requires At(ts, i, words) && k < |words|
    ensures i + k < |ts| && ts[i + k] == words[k]
  {
    assert ts[i..i + |words|][k] == words[k];
  }

  /** The first three words, where they stand. */
  predicate Stands(ts: seq<string>, i: nat, words: seq<string>) {
    && words != [] && i + |words| <= |ts| && ts[i] == words[0]
    && (|words| > 1 ==> ts[i + 1] == words[1]) && (|words| > 2 ==> ts[i + 2] == words[2])
  }

  lemma StandsAt(ts: seq<string>, i: nat, words: seq<string>)
    requires At(ts, i, words) && words != []
    ensures Stands(ts, i, words)
  {
    WordsAt(ts, i, words, 0);
    if |words| > 1 { WordsAt(ts, i, words, 1); }
    if |words| > 2 { WordsAt(ts, i, words, 2); }
  }

  lemma {:induction false} ListEnd(ts: seq<string>, i: nat, j: nat)
    requires i <= j <= |ts| && (forall k :: i <= k < j ==> ts[k] != ";" && ts[k] != "}")
    requires j == |ts| || ts[j] == ";" || ts[j] == "}"
    ensures ArgsEnd(ts, i) == j
    decreases j - i
  {
    if i < j { ListEnd(ts, i + 1, j); }
  }

  lemma ListAt(ts: seq<string>, i: nat, key: string, args: seq<string>, j: nat)
    requires At(ts, i, [key] + args) && AllArgs(args) && Closed(true, ts, i + 1 + |args|, j)
    ensures i + 1 + |args| <= |ts| && ts[i] == key
    ensures ArgsEnd(ts, i + 1) == i + 1 + |args| && ts[i + 1..i + 1 + |args|] == args
    ensures PastSemicolon(ts, i + 1 + |args|) == j
  {
    var words := [key] + args;
    WordsAt(ts, i, words, 0);
    forall k | 0 <= k < |args| ensures ts[i + 1 + k] == args[k] { WordsAt(ts, i, words, k + 1); }
    forall k | i + 1 <= k < i + 1 + |args| ensures ts[k] != ";" && ts[k] != "}" { assert ts[i + 1 + (k - i - 1)] == args[k - i - 1]; }
    ListEnd(ts, i + 1, i + 1 + |args|);
  }

  lemma AnyHost(host: string, port: nat, from: ServerConfig)
    requires port < 0x8000_0000
    ensures Listen(host + ":" + Decimal(port), from) == from.(host := host, port := port)
  {
    DecimalNumber(port);
    DigitsAreBare(Decimal(port));
    DecimalReads(port);
    ListenAt(host, Decimal(port));
    hide Decimal, Atoi, IsDigits, NumberOf, BodySize, IsBare, IsSuffix, RFind;
  }

  lemma NamesRead(ts: seq<string>, i: nat, names: seq<string>, srv: ServerConfig, j: nat)
    requires At(ts, i, ["server_name"] + names) && AllArgs(names) && Closed(true, ts, i + 1 + |names|, j)
    ensures i < |ts| && ts[i] == "server_name"
    ensures ServerDirective(ts, i, srv) == Some((srv.(serverNames := srv.serverNames + names), j))
  {
    ListAt(ts, i, "server_name", names, j);
    hide At, AllArgs, ArgsEnd, PastSemicolon, LocationBlock, Atoi, BodySize, Listen, Closed;
  }

  lemma OtherRead(ts: seq<string>, i: nat, key: string, args: seq<string>, srv: ServerConfig, j: nat)
    requires !KnownInServer(key) && At(ts, i, [key] + args) && AllArgs(args) && Closed(true, ts, i + 1 + |args|, j)
    ensures i < |ts| && ts[i] == key && ServerDirective(ts, i, srv) == Some((srv, j))
  {
    ListAt(ts, i, key, args, j);
    hide At, AllArgs, ArgsEnd, PastSemicolon, LocationBlock, Atoi, BodySize, Listen, Closed;
  }

  lemma ServerListRead(ts: seq<string>, i: nat, e: ServerEntry, srv: ServerConfig, j: nat)
    requires IsServerEntry(e) && IsList(e) && At(ts, i, ServerWords(e)) && Closed(true, ts, i + |ServerWords(e)|, j)
    ensures i < |ts| && ts[i] != "}" && ServerDirective(ts, i, srv) == Some((ServerEffect(e, srv), j))
  {
    hide At, AllArgs, Closed, ServerDirective;
    if e.Names? { NamesRead(ts, i, e.names, srv, j); } else { OtherRead(ts, i, e.key, e.args, srv, j); }
  }

  /** One directive of a server block is read with its effect, and the cursor goes behind
      it and its semicolon. */
  lemma ServerEntryRead(ts: seq<string>, i: nat, e: ServerEntry, srv: ServerConfig, j: nat)
    requires IsServerEntry(e) && At(ts, i, ServerWords(e))
    requires if e.Stray? then j == i + 1 else Closed(IsList(e), ts, i + |ServerWords(e)|, j)
    ensures i <= j <= |ts| && ServerBlock(ts, i, srv) == ServerBlock(ts, j, ServerEffect(e, srv))
  {
    if IsList(e) {
      ServerListRead(ts, i, e, srv, j);
    } else {
      StandsAt(ts, i, ServerWords(e));
      ServerSettingRead(ts, i, e, srv, j);
    }
    hide ServerDirective, ServerEffect, ServerWords, Closed;
  }

  lemma ServerSettingRead(ts: seq<string>, i: nat, e: ServerEntry, srv: ServerConfig, j: nat)
    requires IsServerEntry(e) && Stands(ts, i, ServerWords(e)) && !IsList(e)
    requires if e.Stray? then j == i + 1 else Closed(false, ts, i + |ServerWords(e)|, j)
    ensures i < |ts| && ts[i] != "}" && ServerDirective(ts, i, srv) == Some((ServerEffect(e, srv), j))
  {
    hide ArgsEnd, LocationBlock, Atoi, BodySize, Listen, Bytes, SizeText, Decimal, IsSize;
    match e
    case ListenPort(port) => PortReads(port, srv);
    case HostPort(host, port) => AnyHost(host, port, srv);
    case BodyLimit(size) => SizeRead(size);
    case ErrorPage(code, page) => DecimalReads(code);
    case Stray =>
  }

  function EntryTokens(e: ServerEntry): seq<string> { if e.Stray? then [";"] else ServerWords(e) + [";"] }

  function EntriesTokens(es: seq<ServerEntry>): seq<string> {
    if es == [] then ["}"] else EntryTokens(es[0]) + EntriesTokens(es[1..])
  }

  function AllEffects(es: seq<ServerEntry>, srv: ServerConfig): ServerConfig {
    if es == [] then srv else AllEffects(es[1..], ServerEffect(es[0], srv))
  }

  lemma SemicolonCloses(list: bool, ts: seq<string>, i: nat)
    requires At(ts, i, [";"])
    ensures Closed(list, ts, i, i + 1)
  {
    WordsAt(ts, i, [";"], 0);
  }

  lemma EntrySplits(ts: seq<string>, i: nat, e: ServerEntry)
    requires At(ts, i, EntryTokens(e))
    ensures At(ts, i, ServerWords(e))
    ensures if e.Stray? then |EntryTokens(e)| == 1
            else |EntryTokens(e)| == |ServerWords(e)| + 1 && At(ts, i + |ServerWords(e)|, [";"])
  {
    hide At;
    if e.Stray? { assert EntryTokens(e) == ServerWords(e); } else { AtSplit(ts, i, ServerWords(e), [";"]); }
    hide ServerWords;
  }

  lemma EntryThere(ts: seq<string>, i: nat, e: ServerEntry, rest: seq<string>, srv: ServerConfig)
    requires IsServerEntry(e) && At(ts, i, EntryTokens(e) + rest)
    ensures var j := i + |EntryTokens(e)|;
            j <= |ts| && At(ts, j, rest) && ServerBlock(ts, i, srv) == ServerBlock(ts, j, ServerEffect(e, srv))
  {
    hide *;
    AtSplit(ts, i, EntryTokens(e), rest);
    EntrySplits(ts, i, e);
    if !e.Stray? { SemicolonCloses(IsList(e), ts, i + |ServerWords(e)|); }
    ServerEntryRead(ts, i, e, srv, i + |EntryTokens(e)|);
  }

  predicate AreEntries(es: seq<ServerEntry>) { forall k :: 0 <= k < |es| ==> IsServerEntry(es[k]) }

  lemma EntriesUnfold(es: seq<ServerEntry>, srv: ServerConfig)
    requires es != [] && AreEntries(es)
    ensures IsServerEntry(es[0]) && AreEntries(es[1..])
    ensures EntriesTokens(es) == EntryTokens(es[0]) + EntriesTokens(es[1..])
    ensures AllEffects(es, srv) == AllEffects(es[1..], ServerEffect(es[0], srv))
  {
    hide IsServerEntry, EntryTokens, ServerEffect;
  }

  lemma EntriesEnd(ts: seq<string>, i: nat, srv: ServerConfig)
    requires At(ts, i, EntriesTokens([]))
    ensures i <= |ts| && ServerBlock(ts, i, srv) == Some((AllEffects([], srv), i + |EntriesTokens([])|))
  {
    WordsAt(ts, i, ["}"], 0);
    hide ServerBlock, At;
    BlocksEnd(ts, i, srv, NEW_LOCATION);
  }

  lemma {:induction false} EntriesRead(ts: seq<string>, i: nat, es: seq<ServerEntry>, srv: ServerConfig)
    requires AreEntries(es) && At(ts, i, EntriesTokens(es))
    ensures i <= |ts| && ServerBlock(ts, i, srv) == Some((AllEffects(es, srv), i + |EntriesTokens(es)|))
    decreases |es|
  {
    hide *;
    if es == [] {
      EntriesEnd(ts, i, srv);
    } else {
      EntriesUnfold(es, srv);
      EntryThere(ts, i, es[0], EntriesTokens(es[1..]), srv);
      EntriesRead(ts, i + |EntryTokens(es[0])|, es[1..], ServerEffect(es[0], srv));
    }
  }

  lemma OneBlock(body: seq<string>)
    ensures var ts := ["server", "{"] + body;
            At(ts, 2, body) && |ts| == 2 + |body| && ts[0] == "server" && ts[1] == "{"
  {
    var ts := ["server", "{"] + body;
    assert ts[2..2 + |body|] == body;
  }

  /** A file of one server block is read as the effects of its directives, one after the
      other, on a server block as it starts. */
  lemma ServerFileRead(es: seq<ServerEntry>)
    requires AreEntries(es)
    ensures Blocks(["server", "{"] + EntriesTokens(es), 0, []) == (true, [AllEffects(es, NEW_SERVER)])
  {
    hide *;
    var ts := ["server", "{"] + EntriesTokens(es);
    OneBlock(EntriesTokens(es));
    EntriesRead(ts, 2, es, NEW_SERVER);
    BlocksGoOn(ts, 0, [], AllEffects(es, NEW_SERVER), |ts|);
    Refused(ts, 0, NEW_SERVER, NEW_LOCATION, [] + [AllEffects(es, NEW_SERVER)]);
    assert [] + [AllEffects(es, NEW_SERVER)] == [AllEffects(es, NEW_SERVER)];
  }

  // ----- the directives of a location block -----

  datatype LocationEntry =
    | Root(dir: string)
    | Index(file: string)
    | UploadPath(dir: string)
    | Autoindex(value: string)
    | LocationLimit(size: Size)
    | Methods(key: string, methods: seq<string>)
    | ReturnCode(code: nat, url: string)
    | ReturnUrl(url: string)
    | Cgi(extension: string, interpreter: string)
    | OtherEntry(key: string, args: seq<string>)
    | StrayEntry

  predicate IsMethodsWord(key: string) { key == "methods" || key == "allow_methods" || key == "limit_except" }

  predicate KnownInLocation(key: string) {
    key == "root" || key == "index" || key == "upload_path" || key == "autoindex" || key == "client_max_body_size"
    || IsMethodsWord(key) || key == "return" || key == "cgi" || key == ";" || key == "}"
  }

  predicate IsLocationEntry(e: LocationEntry) {
    match e
    case LocationLimit(size) => IsSize(size)
    case Methods(key, methods) => IsMethodsWord(key) && AllArgs(methods)
    case ReturnCode(code, url) => 100 <= code < 600 && url != ";"
    case OtherEntry(key, args) => !KnownInLocation(key) && AllArgs(args)
    case _ => true
  }

  function LocationWords(e: LocationEntry): seq<string> {
    match e
    case Root(dir) => ["root", dir]
    case Index(file) => ["index", file]
    case UploadPath(dir) => ["upload_path", dir]
    case Autoindex(value) => ["autoindex", value]
    case LocationLimit(size) => ["client_max_body_size", SizeText(size)]
    case Methods(key, methods) => [key] + methods
    case ReturnCode(code, url) => ["return", Decimal(code), url]
    case ReturnUrl(url) => ["return", url]
    case Cgi(extension, interpreter) => ["cgi", extension, interpreter]
    case OtherEntry(key, args) => [key] + args
    case StrayEntry => [";"]
  }

  function LocationEffect(e: LocationEntry, loc: LocationConfig): LocationConfig {
    match e
    case Root(dir) => loc.(root := dir)
    case Index(file) => loc.(index := file)
    case UploadPath(dir) => loc.(uploadPath := dir)
    case Autoindex(value) => loc.(autoindex := value == "on")
    case LocationLimit(size) => loc.(clientMaxBodySize := Bytes(size))
    case Methods(_, methods) => loc.(methods := loc.methods + methods)
    case ReturnCode(code, url) => loc.(redirectCode := code, redirect := url)
    case ReturnUrl(url) => loc.(redirectCode := 302, redirect := url)
    case Cgi(extension, interpreter) => loc.(cgiExtensions := loc.cgiExtensions[extension := interpreter])
    case OtherEntry(_, _) => loc
    case StrayEntry => loc
  }

  predicate IsLocationList(e: LocationEntry) { e.Methods? || e.OtherEntry? }

  /** What a lone argument of return is: no status code, or one with nothing behind it but
      the semicolon or the end. */
  predicate LoneReturn(e: LocationEntry, ts: seq<string>, i: nat) {
    e.ReturnUrl? ==> !(100 <= Atoi(e.url) < 600) || i == |ts| || (i < |ts| && ts[i] == ";")
  }

  lemma MethodsRead(ts: seq<string>, i: nat, key: string, methods: seq<string>, loc: LocationConfig, j: nat)
    requires IsMethodsWord(key) && At(ts, i, [key] + methods) && AllArgs(methods) && Closed(true, ts, i + 1 + |methods|, j)
    ensures i < |ts| && ts[i] == key
    ensures LocationDirective(ts, i, loc) == Some((loc.(methods := loc.methods + methods), j))
  {
    ListAt(ts, i, key, methods, j);
    hide At, AllArgs, ArgsEnd, PastSemicolon, Atoi, BodySize, Closed;
  }

  lemma OtherEntryRead(ts: seq<string>, i: nat, key: string, args: seq<string>, loc: LocationConfig, j: nat)
    requires !KnownInLocation(key) && At(ts, i, [key] + args) && AllArgs(args) && Closed(true, ts, i + 1 + |args|, j)
    ensures i < |ts| && ts[i] == key && LocationDirective(ts, i, loc) == Some((loc, j))
  {
    ListAt(ts, i, key, args, j);
    hide At, AllArgs, ArgsEnd, PastSemicolon, Atoi, BodySize, Closed;
  }

  lemma LocationListRead(ts: seq<string>, i: nat, e: LocationEntry, loc: LocationConfig, j: nat)
    requires IsLocationEntry(e) && IsLocationList(e) && At(ts, i, LocationWords(e))
    requires Closed(true, ts, i + |LocationWords(e)|, j)
    ensures i < |ts| && ts[i] != "}" && LocationDirective(ts, i, loc) == Some((LocationEffect(e, loc), j))
  {
    hide At, AllArgs, Closed, LocationDirective;
    if e.Methods? { MethodsRead(ts, i, e.key, e.methods, loc, j); } else { OtherEntryRead(ts, i, e.key, e.args, loc, j); }
  }

  lemma LocationSettingRead(ts: seq<string>, i: nat, e: LocationEntry, loc: LocationConfig, j: nat)
    requires IsLocationEntry(e) && Stands(ts, i, LocationWords(e)) && !IsLocationList(e)
    requires LoneReturn(e, ts, i + |LocationWords(e)|)
    requires if e.StrayEntry? then j == i + 1 else Closed(false, ts, i + |LocationWords(e)|, j)
    ensures i < |ts| && ts[i] != "}" && LocationDirective(ts, i, loc) == Some((LocationEffect(e, loc), j))
  {
    hide ArgsEnd, Atoi, BodySize, Bytes, SizeText, Decimal, IsSize;
    match e
    case LocationLimit(size) => SizeRead(size);
    case ReturnCode(code, url) => DecimalReads(code);
    case _ =>
  }

  /** One directive of a location block is read with its effect: the three spellings of
      methods, return with and without a status code, any word but "on" for off. */
  lemma LocationEntryRead(ts: seq<string>, i: nat, e: LocationEntry, loc: LocationConfig, j: nat)
    requires IsLocationEntry(e) && At(ts, i, LocationWords(e)) && LoneReturn(e, ts, i + |LocationWords(e)|)
    requires if e.StrayEntry? then j == i + 1 else Closed(IsLocationList(e), ts, i + |LocationWords(e)|, j)
    ensures i <= j <= |ts| && LocationBlock(ts, i, loc) == LocationBlock(ts, j, LocationEffect(e, loc))
  {
    if IsLocationList(e) {
      LocationListRead(ts, i, e, loc, j);
    } else {
      StandsAt(ts, i, LocationWords(e));
      LocationSettingRead(ts, i, e, loc, j);
    }
    hide LocationDirective, LocationEffect, LocationWords, Closed, LoneReturn;
  }

  /** A block ends behind its brace, or with the file; a location is added to its server. */
  lemma BlocksEnd(ts: seq<string>, i: nat, srv: ServerConfig, loc: LocationConfig)
    requires i <= |ts|
    ensures i == |ts| ==> ServerBlock(ts, i, srv) == Some((srv, i)) && LocationBlock(ts, i, loc) == Some((loc, i))
    ensures i < |ts| && ts[i] == "}" ==> ServerBlock(ts, i, srv) == Some((srv, i + 1)) && LocationBlock(ts, i, loc) == Some((loc, i + 1))
    ensures At(ts, i, ["location", loc.path, "{"]) && loc == NEW_LOCATION.(path := loc.path) ==>
              i + 3 <= |ts| &&
              match LocationBlock(ts, i + 3, loc)
              case None => ServerBlock(ts, i, srv) == None
              case Some((l, j)) => ServerBlock(ts, i, srv) == ServerBlock(ts, j, srv.(locations := srv.locations + [l]))
  {
    if At(ts, i, ["location", loc.path, "{"]) {
      WordsAt(ts, i, ["location", loc.path, "{"], 0);
      WordsAt(ts, i, ["location", loc.path, "{"], 1);
      WordsAt(ts, i, ["location", loc.path, "{"], 2);
    }
    hide LocationDirective, ArgsEnd, Listen, Atoi, BodySize, At;
  }

  // ----- what is refused -----

  /** Directives whose arguments the file ends before, a location without its brace, and
      anything but a server block at the top are refused; so is a file without any. */
  lemma Refused(ts: seq<string>, i: nat, srv: ServerConfig, loc: LocationConfig, servers: seq<ServerConfig>)
    requires i < |ts|
    ensures i + 1 == |ts| && ts[i] in ["listen", "client_max_body_size", "location", "error_page"] ==> ServerBlock(ts, i, srv) == None
    ensures i + 2 == |ts| && ts[i] in ["error_page", "location"] ==> ServerBlock(ts, i, srv) == None
    ensures i + 2 < |ts| && ts[i] == "location" && ts[i + 2] != "{" ==> ServerBlock(ts, i, srv) == None
    ensures i + 1 == |ts| && ts[i] in ["root", "index", "upload_path", "autoindex", "client_max_body_size", "return", "cgi"] ==>
              LocationBlock(ts, i, loc) == None
    ensures i + 2 == |ts| && ts[i] == "cgi" ==> LocationBlock(ts, i, loc) == None
    ensures ts[i] != "server" || i + 1 == |ts| || ts[i + 1] != "{" ==> Blocks(ts, i, servers) == (false, servers)
    ensures ts[i] == "server" && i + 1 < |ts| && ts[i + 1] == "{" ==>
              match ServerBlock(ts, i + 2, NEW_SERVER)
              case None => Blocks(ts, i, servers) == (false, servers)
              case Some((s, j)) => Blocks(ts, i, servers) == Blocks(ts, j, servers + [s])
    ensures Blocks(ts, |ts|, servers) == (servers != [], servers)
  {
    hide ArgsEnd, Listen, Atoi, BodySize;
  }
}
