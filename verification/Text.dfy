/** The string functions of webserv/src/Utils.cpp, and the C library calls they
    and the parsers rest on. A string is a sequence of bytes; `npos` is |s|. */
module Text {

  const LONG_MAX: int := 0x7fff_ffff_ffff_ffff
  const SIZE_RANGE: int := 0x1_0000_0000_0000_0000

  // ----- searching -----

  /** std::string::find of one character. */
  function Find(s: string, c: char): (r: nat)
    ensures r <= |s|
    ensures r < |s| ==> s[r] == c
    ensures forall i :: 0 <= i < r ==> s[i] != c
  {
    if s == [] || s[0] == c then 0 else 1 + Find(s[1..], c)
  }

  predicate CrlfAt(s: string, i: nat) {
    i + 1 < |s| && s[i] == '\r' && s[i + 1] == '\n'
  }

  /** std::string::find of "\r\n". */
  function FindCrlf(s: string): (r: nat)
    ensures r <= |s|
    ensures r < |s| ==> CrlfAt(s, r)
    ensures forall i: nat :: i < r ==> !CrlfAt(s, i)
  {
    if s == [] || CrlfAt(s, 0) then 0
    else
      var r := 1 + FindCrlf(s[1..]);
      assert forall i: nat :: 0 < i < r ==> CrlfAt(s, i) == CrlfAt(s[1..], i - 1);
      assert r < |s| ==> CrlfAt(s[1..], r - 1);
      r
  }

  /** The line search every parser state uses: CRLF over the whole buffer first,
      and only if there is none a bare LF. */
  datatype Line = NoLine | Line(end: nat, width: nat)

  function FindLine(s: string): (l: Line)
    ensures l.Line? ==> 1 <= l.width <= 2 && l.end + l.width <= |s| && s[l.end + l.width - 1] == '\n'
    ensures l.NoLine? <==> '\n' !in s
  {
    var p := FindCrlf(s);
    if p < |s| then Line(p, 2)
    else
      var q := Find(s, '\n');
      if q < |s| then Line(q, 1) else NoLine
  }

  // ----- trimming, case, words -----

  predicate IsBlank(c: char) { c in " \t\r\n" }

  /** isspace in the C locale. */
  predicate IsSpace(c: char) { c in " \t\r\n" || c as int == 11 || c as int == 12 }

  function TrimStart(s: string): string {
    if s != [] && IsBlank(s[0]) then TrimStart(s[1..]) else s
  }

  function TrimEnd(s: string): string {
    if s != [] && IsBlank(s[|s| - 1]) then TrimEnd(s[..|s| - 1]) else s
  }

  function Trim(s: string): string { TrimEnd(TrimStart(s)) }

  function LowerChar(c: char): char {
    if 'A' <= c <= 'Z' then c - 'A' + 'a' else c
  }

  function Lower(s: string): string {
    seq(|s|, i requires 0 <= i < |s| => LowerChar(s[i]))
  }

  method ToLower(s: string) returns (r: string)
    ensures r == Lower(s)
  {
    r := s;
    for i := 0 to |s|
      invariant |r| == |s|
      invariant forall k :: 0 <= k < i ==> r[k] == LowerChar(s[k])
      invariant forall k :: i <= k < |s| ==> r[k] == s[k]
    {
      r := r[i := LowerChar(r[i])];
    }
  }

  /** The length of the word at the start of s. */
  function WordLength(s: string): (n: nat)
    ensures n <= |s|
    ensures n < |s| ==> IsSpace(s[n])
    ensures forall i :: 0 <= i < n ==> !IsSpace(s[i])
  {
    if s == [] || IsSpace(s[0]) then 0 else 1 + WordLength(s[1..])
  }

  /** The words that repeated `iss >> token` extracts. */
  function Words(s: string): seq<string>
    decreases |s|
  {
    if s == [] then []
    else if IsSpace(s[0]) then Words(s[1..])
    else [s[..WordLength(s)]] + Words(s[WordLength(s)..])
  }

  method SplitWhitespace(s: string) returns (words: seq<string>)
    ensures words == Words(s)
  {
    words := [];
    var rest := s;
    while rest != []
      invariant Words(s) == words + Words(rest)
      decreases |rest|
    {
      if IsSpace(rest[0]) {
        rest := rest[1..];
      } else {
        var n := WordLength(rest);
        words := words + [rest[..n]];
        rest := rest[n..];
      }
    }
  }

  predicate IsWord(w: string) {
    w != [] && forall i :: 0 <= i < |w| ==> !IsSpace(w[i])
  }

  /** A word followed by white space, or by nothing, is extracted whole. */
  lemma {:induction false} WordsOfWord(w: string, rest: string)
    requires IsWord(w)
    requires rest == [] || IsSpace(rest[0])
    ensures Words(w + rest) == [w] + Words(rest)
  {
    var s := w + rest;
    assert !IsSpace(s[0]) by { assert s[0] == w[0]; }
    assert forall i :: 0 <= i < |w| ==> s[i] == w[i];
    assert rest != [] ==> s[|w|] == rest[0];
    assert WordLength(s) == |w|;
    assert s[..|w|] == w && s[|w|..] == rest;
  }

  // ----- numbers -----

  /** The value of a hexadecimal digit, 16 for any other byte. */
  function DigitValue(c: char): (d: nat) {
    if '0' <= c <= '9' then c as int - '0' as int
    else if 'a' <= c <= 'f' then c as int - 'a' as int + 10
    else if 'A' <= c <= 'F' then c as int - 'A' as int + 10
    else 16
  }

  predicate IsDigit(c: char, base: nat) { DigitValue(c) < base }

  /** The digits at the start of s, accumulated onto acc. */
  function Accumulate(s: string, base: nat, acc: nat): nat {
    if s == [] || !IsDigit(s[0], base) then acc
    else Accumulate(s[1..], base, acc * base + DigitValue(s[0]))
  }

  function SkipSpace(s: string): string {
    if s != [] && IsSpace(s[0]) then SkipSpace(s[1..]) else s
  }

  /** strtol(s.c_str(), NULL, base) for base 10 or 16: the text up to the first NUL,
      leading white space, one sign, an optional 0x before hexadecimal digits,
      and saturation at the ends of a 64-bit long. atol is base 10. */
  function Strtol(s: string, base: nat): (n: int)
    ensures -LONG_MAX - 1 <= n <= LONG_MAX
  {
    var t := SkipSpace(s[..Find(s, '\0')]);
    var negative := t != [] && t[0] == '-';
    var u := if t != [] && (t[0] == '-' || t[0] == '+') then t[1..] else t;
    var v := if base == 16 && |u| > 2 && u[0] == '0' && (u[1] == 'x' || u[1] == 'X') && IsDigit(u[2], 16)
             then u[2..] else u;
    var n: int := Accumulate(v, base, 0);
    if negative then (if n > LONG_MAX then -LONG_MAX - 1 else -n)
    else (if n > LONG_MAX then LONG_MAX else n)
  }

  /** static_cast<size_t> of a long. */
  function ToSize(n: int): (r: nat)
    requires -LONG_MAX - 1 <= n <= LONG_MAX
    ensures r < SIZE_RANGE
  {
    if n < 0 then n + SIZE_RANGE else n
  }

  /** static_cast<int> of a long, as atoi does. */
  function ToInt(n: int): int {
    var low := n % 0x1_0000_0000;
    if low < 0x8000_0000 then low else low - 0x1_0000_0000
  }

  function Atoi(s: string): int { ToInt(Strtol(s, 10)) }

  predicate IsDigits(s: string, base: nat) {
    s != [] && forall i :: 0 <= i < |s| ==> IsDigit(s[i], base)
  }

  /** The number a digit string denotes, read from its last digit. */
  function NumberOf(s: string, base: nat): nat {
    if s == [] then 0 else NumberOf(s[..|s| - 1], base) * base + DigitValue(s[|s| - 1])
  }

  /** Accumulating digits from the left, up to a byte that is none, gives the
      number they denote. */
  lemma {:induction false} AccumulateNumber(done: string, s: string, tail: string, base: nat)
    requires forall i :: 0 <= i < |s| ==> IsDigit(s[i], base)
    requires tail == "" || !IsDigit(tail[0], base)
    ensures Accumulate(s + tail, base, NumberOf(done, base)) == NumberOf(done + s, base)
    decreases |s|
  {
    if s == [] {
      assert done + s == done && s + tail == tail;
    } else {
      var d := done + [s[0]];
      assert d[..|d| - 1] == done;
      assert done + s == d + s[1..];
      assert (s + tail)[1..] == s[1..] + tail;
      AccumulateNumber(d, s[1..], tail, base);
    }
  }

  /** A plain digit string has no NUL, white space, sign or 0x prefix to strip. */
  lemma DigitsArePlain(s: string, base: nat)
    requires base == 10 || base == 16
    requires IsDigits(s, base)
    ensures s[..Find(s, '\0')] == s && SkipSpace(s) == s
    ensures s[0] != '-' && s[0] != '+'
    ensures |s| > 2 ==> s[1] != 'x' && s[1] != 'X'
  {
    assert forall c: char :: IsDigit(c, base) ==> c != '\0' && c != '-' && c != '+' && !IsSpace(c) && c != 'x' && c != 'X';
    assert forall i :: 0 <= i < |s| ==> IsDigit(s[i], base);
  }

  /** strtol reads a plain digit string as the number it denotes, when it fits. */
  lemma StrtolNumber(s: string, base: nat)
    requires base == 10 || base == 16
    requires IsDigits(s, base)
    requires NumberOf(s, base) <= LONG_MAX
    ensures Strtol(s, base) == NumberOf(s, base)
  {
    DigitsArePlain(s, base);
    AccumulateNumber([], s, [], base);
    assert [] + s == s && s + [] == s;
  }

  lemma FindBehind(s: string, tail: string, c: char)
    requires c !in s
    ensures Find(s + tail, c) == |s| + Find(tail, c)
  {
    var r := Find(s + tail, c);
    assert forall i :: 0 <= i < |s| ==> (s + tail)[i] == s[i];
    assert forall i :: 0 <= i < |tail| ==> (s + tail)[|s| + i] == tail[i];
  }

  /** Decimal digits are read up to the first byte that is none. */
  lemma StrtolPrefix(s: string, tail: string)
    requires IsDigits(s, 10) && NumberOf(s, 10) <= LONG_MAX
    requires tail == "" || !IsDigit(tail[0], 10)
    ensures Strtol(s + tail, 10) == NumberOf(s, 10)
  {
    DigitsArePlain(s, 10);
    var t := tail[..Find(tail, '\0')];
    assert (s + tail)[..Find(s + tail, '\0')] == s + t by { PrefixBehind(s, tail); }
    assert (s + t)[0] == s[0] && !IsSpace(s[0]) by { assert SkipSpace(s) == s && IsDigit(s[0], 10); }
    AccumulateNumber([], s, t, 10);
    assert [] + s == s;
    hide NumberOf, IsDigit, Accumulate, Find, IsSpace;
  }

  /** The text up to the first NUL, when s has none. */
  lemma PrefixBehind(s: string, tail: string)
    requires s[..Find(s, '\0')] == s
    ensures (s + tail)[..Find(s + tail, '\0')] == s + tail[..Find(tail, '\0')]
  {
    FindBehind(s, tail, '\0');
    hide Find;
  }

  /** The decimal form of a number, as << writes it. */
  function Decimal(n: nat): string {
    if n < 10 then [('0' as int + n) as char] else Decimal(n / 10) + [('0' as int + n % 10) as char]
  }

  lemma {:induction false} DecimalNumber(n: nat)
    ensures IsDigits(Decimal(n), 10) && NumberOf(Decimal(n), 10) == n
  {
    var s := Decimal(n);
    if n < 10 {
      assert s[..0] == "";
    } else {
      DecimalNumber(n / 10);
      assert s[..|s| - 1] == Decimal(n / 10);
    }
  }

  // ----- URL decoding -----

  function UrlDecoded(s: string): string { DecodeOnto("", s, 0) }

  /** r and then the decoding of s from byte i on; an escape needs two bytes behind it. */
  function DecodeOnto(r: string, s: string, i: nat): string
    decreases |s| - i
  {
    if i >= |s| then r
    else if s[i] == '%' && i + 2 < |s| then DecodeOnto(r + [HexByte(s[i + 1..i + 3])], s, i + 3)
    else DecodeOnto(r + [if s[i] == '+' then ' ' else s[i]], s, i + 1)
  }

  /** An escaped byte: the cast to char keeps the low byte of the number. */
  function HexByte(hex: string): char { (Strtol(hex, 16) % 256) as char }

  method UrlDecode(s: string) returns (r: string)
    ensures r == UrlDecoded(s)
  {
    r := [];
    var i := 0;
    while i < |s|
      invariant UrlDecoded(s) == DecodeOnto(r, s, i)
    {
      if s[i] == '%' && i + 2 < |s| {
        r := r + [HexByte(s[i + 1..i + 3])];
        i := i + 2;
      } else if s[i] == '+' {
        r := r + [' '];
      } else {
        r := r + [s[i]];
      }
      i := i + 1;
    }
  }

  // ----- URL encoding -----

  function HexDigit(n: nat): char
    requires n < 16
  {
    if n < 10 then (n + '0' as int) as char else (n - 10 + 'A' as int) as char
  }

  /** A way to write a byte: as it is, as an escape, or, for a blank, as a plus. */
  predicate Writes(piece: string, c: char) {
    || (piece == [c] && c != '%' && c != '+')
    || (c as int < 256 && piece == ['%', HexDigit(c as int / 16), HexDigit(c as int % 16)])
    || (piece == "+" && c == ' ')
  }

  function Joined(pieces: seq<string>): string {
    if pieces == [] then "" else pieces[0] + Joined(pieces[1..])
  }

  lemma HexByteRead(c: char)
    requires c as int < 256
    ensures HexByte([HexDigit(c as int / 16), HexDigit(c as int % 16)]) == c
  {
    var n := c as int;
    var hex := [HexDigit(n / 16), HexDigit(n % 16)];
    assert hex[..1] == [hex[0]] && hex[..1][..0] == "";
    assert DigitValue(hex[0]) == n / 16 && DigitValue(hex[1]) == n % 16;
    assert NumberOf(hex[..1], 16) == n / 16;
    assert NumberOf(hex, 16) == n;
    StrtolNumber(hex, 16);
  }

  lemma PieceDecoded(r: string, s: string, i: nat, piece: string, c: char)
    requires Writes(piece, c) && i + |piece| <= |s| && s[i..i + |piece|] == piece
    ensures DecodeOnto(r, s, i) == DecodeOnto(r + [c], s, i + |piece|)
  {
    assert s[i] == piece[0];
    if |piece| == 3 {
      HexByteRead(c);
      assert s[i + 1..i + 3] == piece[1..];
      hide HexByte;
    }
  }

  lemma {:induction false} PiecesDecoded(r: string, s: string, i: nat, pieces: seq<string>, text: string)
    requires |pieces| == |text| && forall k :: 0 <= k < |text| ==> Writes(pieces[k], text[k])
    requires i <= |s| && s[i..] == Joined(pieces)
    ensures DecodeOnto(r, s, i) == r + text
    decreases |pieces|
  {
    if pieces != [] {
      var piece := pieces[0];
      assert s[i..][..|piece|] == piece && s[i..][|piece|..] == Joined(pieces[1..]);
      assert s[i..i + |piece|] == piece && s[i + |piece|..] == Joined(pieces[1..]);
      assert r + text == (r + [text[0]]) + text[1..];
      hide DecodeOnto, Writes, Joined;
      PieceDecoded(r, s, i, piece, text[0]);
      PiecesDecoded(r + [text[0]], s, i + |piece|, pieces[1..], text[1..]);
    }
  }

  /** Decoding undoes encoding, whichever way each byte is written. */
  lemma UrlRoundTrip(pieces: seq<string>, text: string)
    requires |pieces| == |text| && forall k :: 0 <= k < |text| ==> Writes(pieces[k], text[k])
    ensures UrlDecoded(Joined(pieces)) == text
  {
    assert Joined(pieces)[0..] == Joined(pieces) && "" + text == text;
    hide DecodeOnto, Writes, Joined;
    PiecesDecoded("", Joined(pieces), 0, pieces, text);
  }
}
