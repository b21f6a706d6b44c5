/** IPv4 addresses in webserv/src/Server.cpp: reading and writing the dotted form. */
module Address {
  import opened Text

  /** INADDR_ANY, which is also the answer to malformed text. */
  const ANY := 0

  // ----- byte order -----

  /** The four bytes of a 32-bit number, the most significant first; a shift by
      eight is a division by 256. */
  function Bytes(h: nat): seq<nat> { [h / 256 / 256 / 256 % 256, h / 256 / 256 % 256, h / 256 % 256, h % 256] }

  function Joined(parts: seq<nat>): nat
    requires |parts| == 4
  {
    ((parts[0] * 256 + parts[1]) * 256 + parts[2]) * 256 + parts[3]
  }

  /** htonl and ntohl where the least significant byte comes first in memory. */
  function Swapped(a: nat): nat { Joined([Bytes(a)[3], Bytes(a)[2], Bytes(a)[1], Bytes(a)[0]]) }

  lemma BytesOfJoined(parts: seq<nat>)
    requires |parts| == 4 && forall k :: 0 <= k < 4 ==> parts[k] < 256
    ensures Bytes(Joined(parts)) == parts && Joined(parts) < 0x1_0000_0000
  {
    var h := Joined(parts);
    assert h / 256 == (parts[0] * 256 + parts[1]) * 256 + parts[2];
    assert h / 256 / 256 == parts[0] * 256 + parts[1];
    assert h / 256 / 256 / 256 == parts[0];
  }

  lemma JoinedBytes(h: nat)
    requires h < 0x1_0000_0000
    ensures Joined(Bytes(h)) == h
  {
    assert h / 256 / 256 / 256 < 256;
  }

  lemma SwappedTwice(a: nat)
    requires a < 0x1_0000_0000
    ensures Swapped(Swapped(a)) == a && Swapped(a) < 0x1_0000_0000
  {
    var b := Bytes(a);
    var parts := [b[3], b[2], b[1], b[0]];
    assert Swapped(a) == Joined(parts);
    assert forall k :: 0 <= k < 4 ==> b[k] < 256;
    JoinedBytes(a);
    BytesOfJoined(parts);
    hide Joined, Bytes;
    assert [parts[3], parts[2], parts[1], parts[0]] == b;
  }

  // ----- writing -----

  function Dotted(parts: seq<nat>): string
    requires |parts| == 4
  {
    Decimal(parts[0]) + ("." + (Decimal(parts[1]) + ("." + (Decimal(parts[2]) + ("." + Decimal(parts[3]))))))
  }

  function FormatIPv4(a: nat): string { Dotted(Bytes(Swapped(a))) }

  // ----- reading -----

  function Finish(parts: seq<nat>): nat { if |parts| != 4 then ANY else Swapped(Joined(parts)) }

  /** The loop from some byte on: cur is an unsigned long. */
  function ReadFrom(rest: string, parts: seq<nat>, cur: nat, hasDigit: bool): nat {
    if rest != "" && IsDigit(rest[0], 10) then
      ReadFrom(rest[1..], parts, (cur * 10 + DigitValue(rest[0])) % SIZE_RANGE, true)
    else if rest == "" || rest[0] == '.' then
      if !hasDigit || |parts| > 3 || cur > 255 then ANY
      else if rest == "" then Finish(parts + [cur])
      else ReadFrom(rest[1..], parts + [cur], 0, false)
    else ANY
  }

  method ParseIPv4(host: string) returns (a: nat)
    ensures a == if IsQuad(Fields(host)) then Swapped(Joined(Values(Fields(host)))) else ANY
  {
    ReadsExactlyQuads(host);
    hide IsQuad, Fields, Values, Joined;
    var parts: seq<nat> := [];
    var cur: nat, hasDigit, i := 0, false, 0;
    assert host[0..] == host;
    while i <= |host|
      invariant 0 <= i <= |host| + 1 && |parts| <= 4
      invariant i <= |host| ==> ReadFrom(host[i..], parts, cur, hasDigit) == ReadFrom(host, [], 0, false)
      invariant i > |host| ==> ReadFrom(host, [], 0, false) == Finish(parts)
    {
      if i < |host| && '0' <= host[i] <= '9' {
        assert host[i..][1..] == host[i + 1..];
        cur := (cur * 10 + DigitValue(host[i])) % SIZE_RANGE;
        hasDigit := true;
      } else if i == |host| || host[i] == '.' {
        assert i < |host| ==> host[i..][1..] == host[i + 1..];
        if !hasDigit || |parts| > 3 || cur > 255 { return ANY; }
        parts := parts + [cur];
        cur := 0;
        hasDigit := false;
      } else {
        return ANY;
      }
      i := i + 1;
    }
    a := Finish(parts);
  }

  // ----- what is read -----

  /** The text between the dots. */
  function Fields(s: string): seq<string> {
    var dot := Find(s, '.');
    if dot == |s| then [s] else [s[..dot]] + Fields(s[dot + 1..])
  }

  function Value(field: string): nat { NumberOf(field, 10) % SIZE_RANGE }

  predicate IsPart(field: string) { IsDigits(field, 10) && Value(field) <= 255 }

  /** A dotted quad: four parts, each one or more digits denoting at most 255. */
  predicate IsQuad(fields: seq<string>) {
    |fields| == 4 && forall k :: 0 <= k < 4 ==> IsPart(fields[k])
  }

  lemma ModStep(x: nat, d: nat)
    ensures (x % SIZE_RANGE * 10 + d) % SIZE_RANGE == (x * 10 + d) % SIZE_RANGE
  {
    assert x * 10 + d == x % SIZE_RANGE * 10 + d + x / SIZE_RANGE * 10 * SIZE_RANGE;
  }

  lemma {:induction false} ReadDigits(done: string, s: string, tail: string, parts: seq<nat>)
    requires forall i :: 0 <= i < |s| ==> IsDigit(s[i], 10)
    ensures ReadFrom(s + tail, parts, Value(done), done != "") == ReadFrom(tail, parts, Value(done + s), done + s != "")
    decreases |s|
  {
    if s == "" {
      assert done + s == done && s + tail == tail;
    } else {
      var d := done + [s[0]];
      assert d[..|d| - 1] == done;
      assert done + s == d + s[1..];
      assert (s + tail)[1..] == s[1..] + tail;
      ModStep(NumberOf(done, 10), DigitValue(s[0]));
      ReadDigits(d, s[1..], tail, parts);
    }
  }

  /** A byte before the next dot that is no digit. */
  lemma {:induction false} ReadNonDigit(s: string, k: nat, parts: seq<nat>, cur: nat, hasDigit: bool)
    requires k < |s| && !IsDigit(s[k], 10) && '.' !in s[..k + 1]
    ensures ReadFrom(s, parts, cur, hasDigit) == ANY
    decreases k
  {
    assert s[..k + 1][0] == s[0];
    if k > 0 && IsDigit(s[0], 10) {
      assert s[1..][..k] == s[..k + 1][1..];
      ReadNonDigit(s[1..], k - 1, parts, (cur * 10 + DigitValue(s[0])) % SIZE_RANGE, true);
    } else {
      assert s[..k + 1][k] == s[k];
    }
  }

  function Values(fields: seq<string>): seq<nat> { seq(|fields|, k requires 0 <= k < |fields| => Value(fields[k])) }

  /** The address of the parts read and the fields to come. */
  function Address(parts: seq<nat>, fields: seq<string>): nat {
    if |parts| + |fields| == 4 && forall k :: 0 <= k < |fields| ==> IsPart(fields[k])
    then Finish(parts + Values(fields)) else ANY
  }

  lemma AddressStep(parts: seq<nat>, field: string, others: seq<string>)
    ensures Address(parts, [field] + others) ==
            if IsPart(field) then Address(parts + [Value(field)], others) else ANY
  {
    var fields := [field] + others;
    hide IsPart, Value, Finish;
    assert fields[0] == field && forall k :: 0 < k < |fields| ==> fields[k] == others[k - 1];
    assert forall k :: 0 <= k < |others| ==> fields[k + 1] == others[k];
    assert parts + Values(fields) == (parts + [Value(field)]) + Values(others);
  }

  predicate IsAllDigits(field: string) { forall i :: 0 <= i < |field| ==> IsDigit(field[i], 10) }

  lemma DigitsUpToDot(tail: string, parts: seq<nat>, cur: nat, hasDigit: bool)
    requires tail == "" || tail[0] == '.'
    ensures ReadFrom(tail, parts, cur, hasDigit) ==
            if !hasDigit || |parts| > 3 || cur > 255 then ANY
            else if tail == "" then Finish(parts + [cur])
            else ReadFrom(tail[1..], parts + [cur], 0, false)
  {
    hide Finish;
  }

  lemma ReadDigitField(field: string, tail: string, parts: seq<nat>)
    requires IsAllDigits(field) && (tail == "" || tail[0] == '.')
    ensures ReadFrom(field + tail, parts, 0, false) ==
            if !IsPart(field) || |parts| > 3 then ANY
            else if tail == "" then Finish(parts + [Value(field)])
            else ReadFrom(tail[1..], parts + [Value(field)], 0, false)
  {
    ReadDigits("", field, tail, parts);
    assert Value("") == 0 && "" + field == field;
    hide NumberOf, Finish, IsDigit, ReadFrom;
    DigitsUpToDot(tail, parts, Value(field), field != "");
  }

  lemma ReadOtherField(field: string, tail: string, parts: seq<nat>)
    requires !IsAllDigits(field) && '.' !in field
    ensures ReadFrom(field + tail, parts, 0, false) == ANY && !IsPart(field)
  {
    var k :| 0 <= k < |field| && !IsDigit(field[k], 10);
    var s := field + tail;
    assert s[k] == field[k] && s[..k + 1] == field[..k + 1];
    hide ReadFrom, IsDigit, Value;
    ReadNonDigit(s, k, parts, 0, false);
  }

  /** One field is read: on to the next, if it is a part of an address. */
  lemma ReadField(s: string, parts: seq<nat>)
    ensures var dot := Find(s, '.');
            var field := s[..dot];
            ReadFrom(s, parts, 0, false) ==
            if !IsPart(field) || |parts| > 3 then ANY
            else if dot == |s| then Finish(parts + [Value(field)])
            else ReadFrom(s[dot + 1..], parts + [Value(field)], 0, false)
  {
    var dot := Find(s, '.');
    var field, tail := s[..dot], s[dot..];
    assert s == field + tail && (dot < |s| ==> tail[0] == '.' && tail[1..] == s[dot + 1..]);
    assert '.' !in field;
    hide *;
    if IsAllDigits(field) {
      ReadDigitField(field, tail, parts);
    } else {
      ReadOtherField(field, tail, parts);
    }
  }

  /** Reading in one pass refines splitting at the dots. */
  lemma {:induction false} ReadFields(s: string, parts: seq<nat>)
    ensures ReadFrom(s, parts, 0, false) == Address(parts, Fields(s))
    decreases |s|
  {
    var dot := Find(s, '.');
    var field, others := s[..dot], if dot == |s| then [] else Fields(s[dot + 1..]);
    assert Fields(s) == [field] + others by { assert dot == |s| ==> s[..dot] == s; }
    ReadField(s, parts);
    AddressStep(parts, field, others);
    if dot == |s| {
      assert parts + [Value(field)] + [] == parts + [Value(field)];
      hide IsPart, Value, Finish, ReadFrom;
    } else {
      assert |others| >= 1;
      hide *;
      ReadFields(s[dot + 1..], parts + [Value(field)]);
      TooMany(parts + [Value(field)], others);
    }
  }

  lemma TooMany(parts: seq<nat>, fields: seq<string>)
    ensures |parts| > 4 ==> Address(parts, fields) == ANY
  {
  }

  /** A text is read as the address of its four parts if it is a dotted quad, and as
      the wildcard address otherwise. Parts are denoted modulo 2^64. */
  lemma ReadsExactlyQuads(s: string)
    ensures ReadFrom(s, [], 0, false) ==
            if IsQuad(Fields(s)) then Swapped(Joined(Values(Fields(s)))) else ANY
  {
    ReadFields(s, []);
    assert [] + Values(Fields(s)) == Values(Fields(s));
    hide IsPart, ReadFrom, Fields, Joined;
  }

  // ----- what the comment promises -----

  /** Four numbers of at most 255, between dots. */
  predicate ProperQuad(fields: seq<string>) {
    |fields| == 4 && forall k :: 0 <= k < 4 ==> IsDigits(fields[k], 10) && NumberOf(fields[k], 10) <= 255
  }

  /** The documented result: the address of a proper quad, and the wildcard for any
      malformed text. */
  function Promised(s: string): nat {
    var fields := Fields(s);
    if ProperQuad(fields) then
      Swapped(Joined([NumberOf(fields[0], 10), NumberOf(fields[1], 10), NumberOf(fields[2], 10), NumberOf(fields[3], 10)]))
    else ANY
  }

  lemma ProperIsQuad(fields: seq<string>)
    requires ProperQuad(fields)
    ensures IsQuad(fields)
    ensures Values(fields) == [NumberOf(fields[0], 10), NumberOf(fields[1], 10), NumberOf(fields[2], 10), NumberOf(fields[3], 10)]
  {
    assert forall k :: 0 <= k < 4 ==> Value(fields[k]) == NumberOf(fields[k], 10);
    hide NumberOf, IsDigits;
  }

  /** Only the wildcard address is read from four zeros. */
  lemma ZeroParts(parts: seq<nat>)
    requires |parts| == 4 && forall k :: 0 <= k < 4 ==> parts[k] < 256
    ensures Swapped(Joined(parts)) == ANY <==> forall k :: 0 <= k < 4 ==> parts[k] == 0
  {
    BytesOfJoined(parts);
    hide Joined, Bytes;
    if Swapped(Joined(parts)) == ANY {
      SwappedTwice(Joined(parts));
      SwappedZero();
      BytesOfZero();
    }
    if parts == [0, 0, 0, 0] {
      SwappedZero();
      JoinedZero();
    }
  }

  lemma BytesOfZero()
    ensures Bytes(0) == [0, 0, 0, 0]
  {
  }

  lemma JoinedZero()
    ensures Joined([0, 0, 0, 0]) == 0
  {
  }

  lemma SwappedZero()
    ensures Swapped(0) == 0
  {
  }

  /** The promise is kept exactly unless some text that is no proper quad has four
      digit fields whose values modulo 2^64 are at most 255 and not all zero. */
  lemma PromiseKeptIff(s: string)
    ensures ReadFrom(s, [], 0, false) == Promised(s)
            <==> (IsQuad(Fields(s)) ==>
                    ProperQuad(Fields(s)) || forall k :: 0 <= k < 4 ==> Value(Fields(s)[k]) == 0)
  {
    var fields := Fields(s);
    ReadsExactlyQuads(s);
    if ProperQuad(fields) {
      ProperIsQuad(fields);
    } else if IsQuad(fields) {
      assert forall k :: 0 <= k < 4 ==> Values(fields)[k] == Value(fields[k]) < 256;
      hide Fields, IsPart, Value, ReadFrom, Joined, Swapped;
      ZeroParts(Values(fields));
    }
  }

  // ----- round trip -----

  lemma NoDot(field: string, others: string)
    requires IsDigits(field, 10)
    ensures Fields(field) == [field] && Fields(field + ("." + others)) == [field] + Fields(others)
  {
    assert forall c: char :: IsDigit(c, 10) ==> c != '.';
    assert Find(field, '.') == |field| by { assert forall k :: 0 <= k < |field| ==> IsDigit(field[k], 10); }
    FindBehind(field, "." + others, '.');
    assert Find("." + others, '.') == 0;
    assert (field + ("." + others))[|field| + 1..] == others && (field + ("." + others))[..|field|] == field;
    hide IsDigits, IsDigit, Find;
  }

  lemma FourFields(d0: string, d1: string, d2: string, d3: string)
    requires IsDigits(d0, 10) && IsDigits(d1, 10) && IsDigits(d2, 10) && IsDigits(d3, 10)
    ensures Fields(d0 + ("." + (d1 + ("." + (d2 + ("." + d3)))))) == [d0, d1, d2, d3]
  {
    hide *;
    var t2 := d2 + ("." + d3);
    var t1 := d1 + ("." + t2);
    NoDot(d3, "");
    NoDot(d2, d3);
    assert Fields(t2) == [d2, d3];
    NoDot(d1, t2);
    assert Fields(t1) == [d1, d2, d3];
    NoDot(d0, t1);
  }

  lemma DottedFields(parts: seq<nat>)
    requires |parts| == 4
    ensures Fields(Dotted(parts)) == [Decimal(parts[0]), Decimal(parts[1]), Decimal(parts[2]), Decimal(parts[3])]
  {
    hide Decimal, Fields, IsDigits, NumberOf;
    DecimalNumber(parts[0]);
    DecimalNumber(parts[1]);
    DecimalNumber(parts[2]);
    DecimalNumber(parts[3]);
    FourFields(Decimal(parts[0]), Decimal(parts[1]), Decimal(parts[2]), Decimal(parts[3]));
  }

  lemma DecimalPart(n: nat)
    requires n < 256
    ensures IsPart(Decimal(n)) && Value(Decimal(n)) == n
  {
    DecimalNumber(n);
    hide Decimal, NumberOf, IsDigits;
  }

  /** A number just above 2^64 passes for a part. */
  lemma OversizedPart(n: nat)
    requires n < 256
    ensures IsPart(Decimal(SIZE_RANGE + n)) && Value(Decimal(SIZE_RANGE + n)) == n
    ensures IsDigits(Decimal(SIZE_RANGE + n), 10) && NumberOf(Decimal(SIZE_RANGE + n), 10) > 255
  {
    DecimalNumber(SIZE_RANGE + n);
    assert (SIZE_RANGE + n) % SIZE_RANGE == n;
    hide *;
    PartOf(Decimal(SIZE_RANGE + n), n);
  }

  lemma PartOf(field: string, n: nat)
    requires IsDigits(field, 10) && n <= 255 && NumberOf(field, 10) % SIZE_RANGE == n
    ensures IsPart(field) && Value(field) == n
  {
    hide IsDigits, NumberOf;
  }

  /** Reading undoes writing, for every address. */
  lemma AddressRoundTrip(a: nat)
    requires a < 0x1_0000_0000
    ensures ReadFrom(FormatIPv4(a), [], 0, false) == a
  {
    var parts := Bytes(Swapped(a));
    var fields := Fields(Dotted(parts));
    SwappedTwice(a);
    JoinedBytes(Swapped(a));
    assert forall k :: 0 <= k < 4 ==> parts[k] < 256;
    DottedFields(parts);
    forall k | 0 <= k < 4 ensures IsPart(fields[k]) && Value(fields[k]) == parts[k] { DecimalPart(parts[k]); }
    ReadsExactlyQuads(Dotted(parts));
    hide Dotted, Decimal, IsPart, Value, ReadFrom, Fields, Joined, Bytes, Swapped;
    assert Values(fields) == parts;
  }

  /** Which number stands for which address: in network byte order, so that the first
      part is the byte stored first, and here the least significant one. */
  lemma AddressOfQuad(a: nat, b: nat, c: nat, d: nat)
    requires a < 256 && b < 256 && c < 256 && d < 256
    ensures var n := a + 0x100 * b + 0x1_0000 * c + 0x100_0000 * d;
            && ReadFrom(Dotted([a, b, c, d]), [], 0, false) == n
            && FormatIPv4(n) == Decimal(a) + ("." + (Decimal(b) + ("." + (Decimal(c) + ("." + Decimal(d))))))
  {
    hide *;
    var parts, back := [a, b, c, d], [d, c, b, a];
    assert forall k :: 0 <= k < 4 ==> parts[k] < 256 && back[k] < 256;
    QuadNumber(a, b, c, d);
    BytesOfJoined(parts);
    BytesOfJoined(back);
    SwappedTwice(Joined(parts));
    FormatsTo(Joined(back), parts);
    AddressRoundTrip(Joined(back));
  }

  lemma QuadNumber(a: nat, b: nat, c: nat, d: nat)
    requires a < 256 && b < 256 && c < 256 && d < 256
    ensures Joined([d, c, b, a]) == a + 0x100 * b + 0x1_0000 * c + 0x100_0000 * d
    ensures Swapped(Joined([a, b, c, d])) == Joined([d, c, b, a])
  {
    BytesOfJoined([a, b, c, d]);
    hide Bytes;
  }

  lemma FormatsTo(n: nat, parts: seq<nat>)
    requires |parts| == 4 && Bytes(Swapped(n)) == parts
    ensures FormatIPv4(n) == Dotted(parts)
    ensures Dotted(parts) == Decimal(parts[0]) + ("." + (Decimal(parts[1]) + ("." + (Decimal(parts[2]) + ("." + Decimal(parts[3]))))))
  {
    hide Bytes, Swapped, Decimal;
  }

  /** Texts for which the promise fails: the first part 2^64 + n, n from 1 to 255. They
      are no proper quads, and are read as the address n.0.0.1. */
  lemma PromiseBroken(n: nat)
    requires 0 < n < 256
    ensures var s := Dotted([SIZE_RANGE + n, 0, 0, 1]);
            && !ProperQuad(Fields(s)) && Promised(s) == ANY
            && ReadFrom(s, [], 0, false) == Swapped(Joined([n, 0, 0, 1])) != ANY
  {
    var parts := [SIZE_RANGE + n, 0, 0, 1];
    var fields := Fields(Dotted(parts));
    DottedFields(parts);
    OversizedPart(n);
    DecimalPart(0);
    DecimalPart(1);
    ReadsExactlyQuads(Dotted(parts));
    hide Dotted, Decimal, IsPart, Value, ReadFrom, Fields, Joined, Swapped, NumberOf;
    assert fields[0] == Decimal(SIZE_RANGE + n);
    assert Values(fields) == [n, 0, 0, 1];
    ZeroParts([n, 0, 0, 1]);
    assert [n, 0, 0, 1][0] == n;
  }
}
