/** The tokenizer of webserv/src/Config.cpp. */
module ConfigTokens {
  import opened Text

  predicate IsDelimiter(c: char) { c == '{' || c == '}' || c == ';' }

  predicate IsQuote(c: char) { c == '"' || c == '\'' }

  predicate EndsWord(c: char) { IsSpace(c) || IsDelimiter(c) || c == '#' }

  /** The length of the unquoted token at the start of s. */
  function BareLength(s: string): (n: nat)
    ensures n <= |s|
    ensures n < |s| ==> EndsWord(s[n])
    ensures forall i :: 0 <= i < n ==> !EndsWord(s[i])
  {
    if s == "" || EndsWord(s[0]) then 0 else 1 + BareLength(s[1..])
  }

  /** The first token of s, if s starts with one, and the bytes up to the next. */
  datatype Lexeme = Skip(length: nat) | Token(text: string, length: nat)

  function FirstLexeme(s: string): (l: Lexeme)
    requires s != ""
    ensures 1 <= l.length <= |s|
  {
    if IsSpace(s[0]) then Skip(1)
    else if s[0] == '#' then Skip(Find(s, '\n'))
    else if IsDelimiter(s[0]) then Token([s[0]], 1)
    else if IsQuote(s[0]) then
      var n := Find(s[1..], s[0]);
      Token(s[1..1 + n], if 1 + n < |s| then n + 2 else n + 1)
    else Token(s[..BareLength(s)], BareLength(s))
  }

  function Tokens(s: string): seq<string>
    decreases |s|
  {
    if s == "" then []
    else
      match FirstLexeme(s)
      case Skip(n) => Tokens(s[n..])
      case Token(t, n) => [t] + Tokens(s[n..])
  }

  lemma TokensFrom(s: string, i: nat, j: nat)
    requires i < j <= |s| && FirstLexeme(s[i..]).length == j - i
    ensures FirstLexeme(s[i..]).Skip? ==> Tokens(s[i..]) == Tokens(s[j..])
    ensures FirstLexeme(s[i..]).Token? ==> Tokens(s[i..]) == [FirstLexeme(s[i..]).text] + Tokens(s[j..])
  {
    assert s[i..][j - i..] == s[j..];
    hide FirstLexeme;
  }

  lemma SpacesSkipped(s: string, i: nat, j: nat)
    requires i <= j <= |s| && forall k :: i <= k < j ==> IsSpace(s[k])
    ensures Tokens(s[i..]) == Tokens(s[j..])
    decreases j - i
  {
    if i < j {
      assert s[i..][0] == s[i];
      TokensFrom(s, i, i + 1);
      hide Tokens;
      SpacesSkipped(s, i + 1, j);
    }
  }

  /** The tokens found and those still to come are the tokens of the content. */
  ghost predicate UpTo(content: string, tokens: seq<string>, i: nat) {
    i <= |content| && tokens + Tokens(content[i..]) == Tokens(content)
  }

  lemma StartUp(content: string)
    ensures UpTo(content, [], 0)
  {
    assert content[0..] == content && [] + Tokens(content) == Tokens(content);
  }

  lemma Skipped(content: string, tokens: seq<string>, i: nat, j: nat)
    requires UpTo(content, tokens, i) && i < j <= |content| && FirstLexeme(content[i..]) == Skip(j - i)
    ensures UpTo(content, tokens, j)
  {
    hide Tokens, FirstLexeme;
    TokensFrom(content, i, j);
  }

  lemma Found(content: string, tokens: seq<string>, i: nat, t: string, j: nat)
    requires UpTo(content, tokens, i) && i < j <= |content| && FirstLexeme(content[i..]) == Token(t, j - i)
    ensures UpTo(content, tokens + [t], j)
  {
    hide Tokens, FirstLexeme;
    TokensFrom(content, i, j);
    Regroup(tokens, t, Tokens(content[j..]));
  }

  lemma Regroup(a: seq<string>, t: string, b: seq<string>)
    ensures (a + [t]) + b == a + ([t] + b)
  {
  }

  lemma NothingLeft(content: string, tokens: seq<string>, i: nat)
    requires UpTo(content, tokens, i) && i == |content|
    ensures tokens == Tokens(content)
  {
    assert content[i..] == "" && Tokens("") == [];
  }

  method Tokenize(content: string) returns (tokens: seq<string>)
    ensures tokens == Tokens(content)
  {
    tokens := [];
    var i := 0;
    StartUp(content);
    hide Tokens, FirstLexeme, UpTo;
    while i < |content|
      invariant 0 <= i <= |content| && UpTo(content, tokens, i)
      decreases |content| - i
    {
      i := SkipSpaces(content, tokens, i);
      if i >= |content| { break; }
      ghost var start := i;
      if content[i] == '#' {
        i := SkipComment(content, i);
        Skipped(content, tokens, start, i);
        continue;
      }
      var token;
      token, i := ReadToken(content, i);
      Found(content, tokens, start, token, i);
      tokens := tokens + [token];
    }
    NothingLeft(content, tokens, i);
  }

  method SkipSpaces(content: string, ghost tokens: seq<string>, start: nat) returns (i: nat)
    requires start < |content| && UpTo(content, tokens, start)
    ensures start <= i <= |content| && (i < |content| ==> !IsSpace(content[i]))
    ensures UpTo(content, tokens, i)
  {
    i := start;
    while i < |content| && IsSpace(content[i])
      invariant start <= i <= |content|
      invariant forall k :: start <= k < i ==> IsSpace(content[k])
    {
      i := i + 1;
    }
    SpacesSkipped(content, start, i);
  }

  method SkipComment(content: string, start: nat) returns (i: nat)
    requires start < |content| && content[start] == '#'
    ensures start < i <= |content|
    ensures FirstLexeme(content[start..]) == Skip(i - start)
  {
    i := start;
    while i < |content| && content[i] != '\n'
      invariant start <= i <= |content|
      invariant forall k :: start <= k < i ==> content[k] != '\n'
    {
      i := i + 1;
    }
    var s := content[start..];
    assert forall k :: 0 <= k < i - start ==> s[k] == content[start + k];
    assert i < |content| ==> s[i - start] == content[i];
    assert Find(s, '\n') == i - start;
  }

  method ReadToken(content: string, start: nat) returns (token: string, i: nat)
    requires start < |content| && !IsSpace(content[start]) && content[start] != '#'
    ensures start < i <= |content|
    ensures FirstLexeme(content[start..]) == Token(token, i - start)
  {
    assert content[start..][0] == content[start];
    if IsDelimiter(content[start]) {
      return [content[start]], start + 1;
    }
    if IsQuote(content[start]) {
      token, i := ReadQuoted(content, start);
    } else {
      token, i := ReadBare(content, start);
    }
  }

  /** Up to the matching quote, or to the end of the content without one. */
  method ReadQuoted(content: string, start: nat) returns (token: string, i: nat)
    requires start < |content| && IsQuote(content[start])
    ensures start < i <= |content|
    ensures FirstLexeme(content[start..]) == Token(token, i - start)
  {
    var quote := content[start];
    i := start + 1;
    token := "";
    while i < |content| && content[i] != quote
      invariant start < i <= |content|
      invariant token == content[start + 1..i] && quote !in token
    {
      assert content[start + 1..i + 1] == content[start + 1..i] + [content[i]];
      token := token + [content[i]];
      i := i + 1;
    }
    ghost var t := content[start..][1..];
    assert t == content[start + 1..];
    assert forall k :: 0 <= k < |token| ==> t[k] == token[k];
    assert i < |content| ==> t[|token|] == quote;
    assert Find(t, quote) == |token|;
    assert content[start..][1..1 + |token|] == token;
    if i < |content| { i := i + 1; }
  }

  method ReadBare(content: string, start: nat) returns (token: string, i: nat)
    requires start < |content| && !EndsWord(content[start]) && !IsQuote(content[start])
    ensures start < i <= |content|
    ensures FirstLexeme(content[start..]) == Token(token, i - start)
  {
    ghost var s := content[start..];
    i := start;
    token := "";
    while i < |content| && !IsSpace(content[i]) && !IsDelimiter(content[i]) && content[i] != '#'
      invariant start <= i <= |content|
      invariant token == content[start..i]
      invariant forall k :: start <= k < i ==> !EndsWord(content[k])
    {
      token := token + [content[i]];
      i := i + 1;
    }
    assert forall k :: 0 <= k < |token| ==> s[k] == token[k] && !EndsWord(s[k]);
    assert i < |content| ==> s[|token|] == content[i];
    assert BareLength(s) == |token|;
    assert s[..|token|] == token;
  }

  // ----- spelling tokens -----

  /** A token that can be written without quotes. */
  predicate IsBare(t: string) {
    t != "" && !IsQuote(t[0]) && forall i :: 0 <= i < |t| ==> !EndsWord(t[i])
  }

  predicate IsPlain(t: string) { IsBare(t) || t in ["{", "}", ";"] }

  /** The tokens, a blank behind each. */
  function Spelled(ts: seq<string>): string {
    if ts == [] then "" else ts[0] + " " + Spelled(ts[1..])
  }

  lemma PlainFirst(t: string, rest: string)
    requires IsPlain(t)
    ensures FirstLexeme(t + " " + rest) == Token(t, |t|)
    ensures (t + " " + rest)[|t|..] == " " + rest
  {
    var s := t + " " + rest;
    assert forall i :: 0 <= i < |t| ==> s[i] == t[i];
    assert s[|t|] == ' ';
    if IsBare(t) { assert BareLength(s) == |t|; }
    assert s[..|t|] == t;
    assert s == t + (" " + rest);
  }

  /** Tokenizing undoes spelling. */
  lemma {:induction false} TokensOfSpelled(ts: seq<string>)
    requires forall i :: 0 <= i < |ts| ==> IsPlain(ts[i])
    ensures Tokens(Spelled(ts)) == ts
    decreases |ts|
  {
    if ts != [] {
      PlainSpelled(ts[0], Spelled(ts[1..]));
      hide Tokens, IsPlain;
      TokensOfSpelled(ts[1..]);
      assert ts == [ts[0]] + ts[1..];
    }
  }

  lemma PlainSpelled(t: string, rest: string)
    requires IsPlain(t)
    ensures Tokens(t + " " + rest) == [t] + Tokens(rest)
  {
    PlainFirst(t, rest);
    BlankSkipped(rest);
    hide FirstLexeme, IsPlain;
  }

  lemma BlankSkipped(rest: string)
    ensures Tokens(" " + rest) == Tokens(rest)
  {
    assert (" " + rest)[1..] == rest;
  }

  // ----- every text -----

  predicate EndsToken(c: char) { c in ['{', '}', ';', '#', ' '] || 9 <= c as int <= 13 }

  lemma TokensUnfold(a: string, rest: string)
    requires a != "" && FirstLexeme(a + rest).length == |a|
    ensures var l := FirstLexeme(a + rest);
            Tokens(a + rest) == if l.Skip? then Tokens(rest) else [l.text] + Tokens(rest)
  {
    assert (a + rest)[|a|..] == rest;
    hide FirstLexeme;
  }

  /** White space separates, and nothing else comes of it. */
  lemma SpaceRead(c: char, rest: string)
    requires c == ' ' || 9 <= c as int <= 13
    ensures Tokens([c] + rest) == Tokens(rest)
  {
    TokensUnfold([c], rest);
  }

  /** A comment goes up to the end of its line, or of the file. */
  lemma CommentRead(text: string, rest: string)
    requires '\n' !in text
    ensures Tokens("#" + text + "\n" + rest) == Tokens(rest) && Tokens("#" + text) == []
  {
    var a := "#" + text;
    assert a + ("\n" + rest) == "#" + text + "\n" + rest && a + "" == a;
    FindBehind(a, "\n" + rest, '\n');
    FindBehind(a, "", '\n');
    TokensUnfold(a, "\n" + rest);
    TokensUnfold(a, "");
    SpaceRead('\n', rest);
    assert "\n" + rest == ['\n'] + rest;
  }

  /** A brace or a semicolon is a token of its own, whatever stands around it. */
  lemma DelimiterRead(c: char, rest: string)
    requires c in ['{', '}', ';']
    ensures Tokens([c] + rest) == [[c]] + Tokens(rest)
  {
    TokensUnfold([c], rest);
  }

  /** Between quotes of one kind everything is taken as it is, the other kind, blanks and
      braces included; without a second quote, up to the end of the file. */
  lemma QuotedRead(quote: char, text: string, rest: string)
    requires (quote == '"' || quote == '\'') && quote !in text
    ensures Tokens([quote] + text + [quote] + rest) == [text] + Tokens(rest) && Tokens([quote] + text) == [text]
  {
    var a, open := [quote] + text + [quote], [quote] + text;
    assert (a + rest)[1..] == text + ([quote] + rest) && open[1..] == text && text + "" == text && open + "" == open;
    FindBehind(text, [quote] + rest, quote);
    FindBehind(text, "", quote);
    assert (a + rest)[0] == quote && (a + rest)[1..1 + |text|] == text && open[1..1 + |text|] == text;
    TokensUnfold(a, rest);
    TokensUnfold(open, "");
  }

  /** A word goes up to white space, a brace, a semicolon or a comment. */
  lemma WordRead(word: string, rest: string)
    requires word != "" && word[0] != '"' && word[0] != '\''
    requires forall i :: 0 <= i < |word| ==> !EndsToken(word[i])
    requires rest == "" || EndsToken(rest[0])
    ensures Tokens(word + rest) == [word] + Tokens(rest)
  {
    var s := word + rest;
    assert forall i :: 0 <= i < |word| ==> s[i] == word[i] && !EndsWord(s[i]);
    assert rest != "" ==> s[|word|] == rest[0] && EndsWord(rest[0]);
    assert BareLength(s) == |word| && s[..|word|] == word;
    TokensUnfold(word, rest);
  }
}
