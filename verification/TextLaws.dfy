/** What the string functions of Text do on every input, told by how the input is put
    together: words and gaps, blanks around a core, sign and digits, escapes. */
module TextLaws {
  import opened Text

  // ----- white space -----

  predicate AllSpace(s: string) { forall i :: 0 <= i < |s| ==> s[i] == ' ' || 9 <= s[i] as int <= 13 }

  predicate AllBlank(s: string) { forall i :: 0 <= i < |s| ==> s[i] in [' ', '\t', '\r', '\n'] }

  predicate HasDarkEnds(s: string) { s == "" || (!AllBlank([s[0]]) && !AllBlank([s[|s| - 1]])) }

  /** Words with a gap before each and one behind the last. */
  function Spaced(words: seq<string>, gaps: seq<string>): string
    requires |gaps| == |words| + 1
  {
    if words == [] then gaps[0] else gaps[0] + (words[0] + Spaced(words[1..], gaps[1..]))
  }

  /** White space in every gap, and in none of the words; inner gaps are not empty. */
  predicate IsSpacing(words: seq<string>, gaps: seq<string>) {
    && |gaps| == |words| + 1
    && (forall i :: 0 <= i < |gaps| ==> AllSpace(gaps[i]) && (0 < i < |words| ==> gaps[i] != ""))
    && forall i :: 0 <= i < |words| ==> words[i] != "" && forall k :: 0 <= k < |words[i]| ==> !AllSpace([words[i][k]])
  }

  lemma {:induction false} GapSkipped(gap: string, rest: string)
    requires AllSpace(gap)
    ensures Words(gap + rest) == Words(rest)
    decreases |gap|
  {
    if gap == "" {
      assert gap + rest == rest;
    } else {
      assert IsSpace(gap[0]) && (gap + rest)[0] == gap[0];
      assert (gap + rest)[1..] == gap[1..] + rest;
      GapSkipped(gap[1..], rest);
    }
  }

  lemma DarkIsWord(w: string)
    requires w != "" && forall k :: 0 <= k < |w| ==> !AllSpace([w[k]])
    ensures IsWord(w)
  {
    forall i | 0 <= i < |w| ensures !IsSpace(w[i]) { assert [w[i]][0] == w[i]; }
  }

  /** The words of any text, however they are spaced. */
  lemma {:induction false} WordsOfSpaced(words: seq<string>, gaps: seq<string>)
    requires IsSpacing(words, gaps)
    ensures Words(Spaced(words, gaps)) == words
    decreases |words|
  {
    if words == [] {
      GapSkipped(gaps[0], "");
      assert gaps[0] + "" == gaps[0];
    } else {
      var rest := Spaced(words[1..], gaps[1..]);
      assert AllSpace(gaps[0]);
      GapSkipped(gaps[0], words[0] + rest);
      DarkIsWord(words[0]);
      GapStarts(words, gaps);
      hide Words, IsWord, Spaced, AllSpace;
      WordsOfWord(words[0], rest);
      TailSpacing(words, gaps);
      WordsOfSpaced(words[1..], gaps[1..]);
      assert [words[0]] + words[1..] == words;
    }
  }

  lemma GapStarts(words: seq<string>, gaps: seq<string>)
    requires IsSpacing(words, gaps) && words != []
    ensures var rest := Spaced(words[1..], gaps[1..]); rest == "" || IsSpace(rest[0])
  {
    assert AllSpace(gaps[1]);
    if gaps[1] != "" { assert IsSpace(gaps[1][0]); }
  }

  lemma TailSpacing(words: seq<string>, gaps: seq<string>)
    requires IsSpacing(words, gaps) && words != []
    ensures IsSpacing(words[1..], gaps[1..])
  {
    hide AllSpace;
  }

  // ----- trimming and case -----

  lemma {:induction false} TrimStartOf(pre: string, s: string)
    requires AllBlank(pre) && (s == "" || !AllBlank([s[0]]))
    ensures TrimStart(pre + s) == s
    decreases |pre|
  {
    if pre == "" {
      assert pre + s == s;
      if s != "" { assert !IsBlank(s[0]); }
    } else {
      assert IsBlank(pre[0]) && (pre + s)[1..] == pre[1..] + s;
      TrimStartOf(pre[1..], s);
    }
  }

  lemma {:induction false} TrimEndOf(s: string, post: string)
    requires AllBlank(post) && (s == "" || !AllBlank([s[|s| - 1]]))
    ensures TrimEnd(s + post) == s
    decreases |post|
  {
    if post == "" {
      assert s + post == s;
      if s != "" { assert !IsBlank(s[|s| - 1]); }
    } else {
      var n := |post| - 1;
      assert IsBlank(post[n]) && (s + post)[..|s + post| - 1] == s + post[..n];
      TrimEndOf(s, post[..n]);
    }
  }

  /** Trimming takes the blanks around a core, whatever it is, and nothing of it. */
  lemma TrimOf(pre: string, core: string, post: string)
    requires AllBlank(pre) && AllBlank(post) && HasDarkEnds(core)
    ensures Trim(pre + core + post) == core
  {
    if core == "" {
      assert pre + core + post == (pre + post) + "" && AllBlank(pre + post);
      TrimStartOf(pre + post, "");
    } else {
      assert pre + core + post == pre + (core + post);
      assert (core + post)[0] == core[0];
      TrimStartOf(pre, core + post);
      TrimEndOf(core, post);
    }
  }

  const UPPER := "ABCDEFGHIJKLMNOPQRSTUVWXYZ"
  const LOWER := "abcdefghijklmnopqrstuvwxyz"

  /** Letters become their lower-case form, and no other byte changes. */
  lemma LowerLetters(c: char)
    ensures c in UPPER ==> exists i :: 0 <= i < 26 && UPPER[i] == c && LowerChar(c) == LOWER[i]
    ensures c !in UPPER ==> LowerChar(c) == c
  {
    assert |UPPER| == 26 && |LOWER| == 26;
    assert forall i :: 0 <= i < 26 ==> UPPER[i] == 'A' + i as char && LOWER[i] == 'a' + i as char;
    if 'A' <= c <= 'Z' {
      var i := c as int - 'A' as int;
      assert UPPER[i] == c && LowerChar(c) == LOWER[i];
    }
  }

  // ----- numbers -----

  function Clamped(n: int): int {
    if n > LONG_MAX then LONG_MAX else if n < -LONG_MAX - 1 then -LONG_MAX - 1 else n
  }

  /** A numeral as strtol takes it: white space, a sign, digits, and what ends them. A
      0x before hexadecimal digits counts as part of the numeral. */
  predicate IsNumeral(space: string, sign: string, prefix: string, digits: string, tail: string, base: nat) {
    && (base == 10 || base == 16) && AllSpace(space) && sign in ["", "+", "-"]
    && (prefix == "" || (base == 16 && prefix in ["0x", "0X"] && digits != ""))
    && (forall i :: 0 <= i < |digits| ==> IsDigit(digits[i], base))
    && (tail == "" || !IsDigit(tail[0], base))
    && (digits == "" && sign == "" ==> tail == "" || (!AllSpace([tail[0]]) && tail[0] != '-' && tail[0] != '+'))
    && (base == 16 && prefix == "" && tail != "" ==> tail[0] != 'x' && tail[0] != 'X')
  }

  lemma {:induction false} SpaceSkipped(space: string, s: string)
    requires AllSpace(space) && (s == "" || !IsSpace(s[0]))
    ensures SkipSpace(space + s) == s
    decreases |space|
  {
    if space == "" {
      assert space + s == s;
    } else {
      assert IsSpace(space[0]) && (space + s)[1..] == space[1..] + s;
      SpaceSkipped(space[1..], s);
    }
  }

  lemma DigitsHaveNoNul(s: string, base: nat)
    requires (base == 10 || base == 16) && forall i :: 0 <= i < |s| ==> IsDigit(s[i], base)
    ensures '\0' !in s && '-' !in s && '+' !in s && 'x' !in s && 'X' !in s
    ensures s != "" ==> !IsSpace(s[0])
  {
    assert forall c: char :: IsDigit(c, base) ==> c != '\0' && c != '-' && c != '+' && !IsSpace(c) && c != 'x' && c != 'X';
  }

  /** The text from the first digit on, sign and space gone. */
  lemma UnsignedRead(prefix: string, digits: string, tail: string, base: nat)
    requires IsNumeral("", "+", prefix, digits, tail, base)
    ensures var u := prefix + digits + tail;
            var v := if base == 16 && |u| > 2 && u[0] == '0' && (u[1] == 'x' || u[1] == 'X') && IsDigit(u[2], 16)
                     then u[2..] else u;
            Accumulate(v, base, 0) == NumberOf(digits, base)
  {
    var u := prefix + digits + tail;
    DigitsHaveNoNul(digits, base);
    AccumulateNumber("", digits, tail, base);
    assert "" + digits == digits;
    if prefix != "" {
      assert u[2..] == digits + tail && u[2] == digits[0] && u[0] == prefix[0] && u[1] == prefix[1];
    } else {
      assert u == digits + tail;
      if base == 16 && |u| > 2 && |digits| >= 1 {
        assert u[1] == if |digits| > 1 then digits[1] else tail[0];
      }
      if base == 16 && |u| > 2 && digits == "" { assert u[0] == tail[0] && IsDigit('0', 16); }
    }
    hide NumberOf, Accumulate, IsDigit;
  }

  lemma SignedStart(sign: string, prefix: string, digits: string, tail: string, base: nat)
    requires IsNumeral("", sign, prefix, digits, tail, base)
    ensures var t := sign + (prefix + digits + tail);
            && (t != "" ==> !IsSpace(t[0]) || (digits == "" && prefix == "" && sign == ""))
            && (sign == "" && t != "" ==> t[0] != '-' && t[0] != '+')
            && (sign != "" ==> t != "" && t[0] == sign[0] && t[1..] == prefix + digits + tail)
            && (digits == "" && prefix == "" && sign == "" && t != "" ==> !IsSpace(t[0]))
  {
    DigitsHaveNoNul(digits, base);
    if digits == "" && sign == "" && tail != "" { assert [tail[0]][0] == tail[0]; }
  }

  lemma UpToNul(a: string, tail: string)
    requires '\0' !in a
    ensures (a + tail)[..Find(a + tail, '\0')] == a + tail[..Find(tail, '\0')]
  {
    FindBehind(a, tail, '\0');
  }

  lemma CutNumeral(space: string, sign: string, prefix: string, digits: string, tail: string, base: nat)
    requires IsNumeral(space, sign, prefix, digits, tail, base)
    ensures IsNumeral(space, sign, prefix, digits, tail[..Find(tail, '\0')], base)
    ensures '\0' !in space + (sign + (prefix + digits))
  {
    DigitsHaveNoNul(digits, base);
  }

  /** What strtol makes of the text behind white space, up to the first NUL. */
  function Signed(t: string, base: nat): int {
    var u := if t != "" && (t[0] == '-' || t[0] == '+') then t[1..] else t;
    var v := if base == 16 && |u| > 2 && u[0] == '0' && (u[1] == 'x' || u[1] == 'X') && IsDigit(u[2], 16)
             then u[2..] else u;
    if t != "" && t[0] == '-' then -(Accumulate(v, base, 0) as int) else Accumulate(v, base, 0)
  }

  lemma StrtolIsSigned(s: string, base: nat)
    ensures Strtol(s, base) == Clamped(Signed(SkipSpace(s[..Find(s, '\0')]), base))
  {
    hide Accumulate, IsDigit, SkipSpace, Find;
  }

  lemma SignedReads(sign: string, prefix: string, digits: string, tail: string, base: nat)
    requires IsNumeral("", sign, prefix, digits, tail, base)
    ensures Signed(sign + (prefix + digits + tail), base)
            == if sign == "-" then -(NumberOf(digits, base) as int) else NumberOf(digits, base)
  {
    var t, u := sign + (prefix + digits + tail), prefix + digits + tail;
    SignedStart(sign, prefix, digits, tail, base);
    assert IsNumeral("", "+", prefix, digits, tail, base);
    assert sign == "" ==> t == u;
    hide IsNumeral, Accumulate, IsDigit, NumberOf;
    UnsignedRead(prefix, digits, tail, base);
  }

  lemma Grouped(space: string, sign: string, prefix: string, digits: string, tail: string)
    ensures space + (sign + (prefix + digits + tail)) == space + (sign + (prefix + digits)) + tail
  {
  }

  /** strtol, on every text: the number with its sign, kept within a long; no digits
      make zero, and what stands behind the digits does not matter. */
  lemma StrtolReads(space: string, sign: string, prefix: string, digits: string, tail: string, base: nat)
    requires IsNumeral(space, sign, prefix, digits, tail, base)
    ensures Strtol(space + (sign + (prefix + digits + tail)), base)
            == Clamped(if sign == "-" then -(NumberOf(digits, base) as int) else NumberOf(digits, base))
  {
    var s := space + (sign + (prefix + digits + tail));
    var cut := tail[..Find(tail, '\0')];
    var t := sign + (prefix + digits + cut);
    CutNumeral(space, sign, prefix, digits, tail, base);
    assert IsNumeral("", sign, prefix, digits, cut, base) && AllSpace(space);
    hide *;
    Grouped(space, sign, prefix, digits, tail);
    Grouped(space, sign, prefix, digits, cut);
    UpToNul(space + (sign + (prefix + digits)), tail);
    SignedStart(sign, prefix, digits, cut, base);
    SpaceSkipped(space, t);
    SignedReads(sign, prefix, digits, cut, base);
    StrtolIsSigned(s, base);
  }

  /** The narrowing casts keep the number modulo the width of their type. */
  lemma CastsWrap(n: int)
    requires -LONG_MAX - 1 <= n <= LONG_MAX
    ensures 0 <= ToSize(n) < SIZE_RANGE && (exists k: int :: ToSize(n) == n + k * SIZE_RANGE)
    ensures -0x8000_0000 <= ToInt(n) < 0x8000_0000 && (exists k: int :: ToInt(n) == n + k * 0x1_0000_0000)
  {
    assert ToSize(n) == n + (if n < 0 then 1 else 0) * SIZE_RANGE;
    var q := n / 0x1_0000_0000;
    assert n == q * 0x1_0000_0000 + n % 0x1_0000_0000;
    assert ToInt(n) == n + (if n % 0x1_0000_0000 < 0x8000_0000 then -q else -q - 1) * 0x1_0000_0000;
  }

  // ----- URL decoding, byte by byte -----

  lemma {:induction false} DecodedBehind(r: string, s: string, i: nat)
    requires i <= |s|
    ensures DecodeOnto(r, s, i) == r + UrlDecoded(s[i..])
    decreases |s| - i, 0
  {
    var t := s[i..];
    if i == |s| {
      assert t == "" && r + "" == r;
    } else {
      assert t[0] == s[i];
      var n := if s[i] == '%' && i + 2 < |s| then 3 else 1;
      var c := if n == 3 then HexByte(s[i + 1..i + 3]) else if s[i] == '+' then ' ' else s[i];
      assert n == 3 ==> t[1..3] == s[i + 1..i + 3];
      assert s[i + n..] == t[n..];
      assert DecodeOnto(r, s, i) == DecodeOnto(r + [c], s, i + n);
      assert DecodeOnto("", t, 0) == DecodeOnto("" + [c], t, n);
      DecodedBehind(r + [c], s, i + n);
      DecodedBehindStart([c], t, n, s, i + n);
      assert "" + [c] == [c] && r + [c] + UrlDecoded(s[i + n..]) == r + ([c] + UrlDecoded(s[i + n..]));
    }
  }

  lemma DecodedBehindStart(r: string, t: string, n: nat, s: string, j: nat)
    requires 0 < n <= |t| && j <= |s| && s[j..] == t[n..] && |t| - n < |t|
    ensures DecodeOnto(r, t, n) == r + UrlDecoded(s[j..])
    decreases |t| - n, 1
  {
    DecodedBehind(r, t, n);
  }

  lemma OneByteDecoded(s: string)
    requires s != ""
    ensures s[0] == '%' && |s| > 2 ==> UrlDecoded(s) == [HexByte(s[1..3])] + UrlDecoded(s[3..])
    ensures !(s[0] == '%' && |s| > 2) ==> UrlDecoded(s) == [if s[0] == '+' then ' ' else s[0]] + UrlDecoded(s[1..])
  {
    if s[0] == '%' && |s| > 2 {
      assert UrlDecoded(s) == DecodeOnto("" + [HexByte(s[1..3])], s, 3);
      DecodedBehind("" + [HexByte(s[1..3])], s, 3);
    } else {
      assert UrlDecoded(s) == DecodeOnto("" + [if s[0] == '+' then ' ' else s[0]], s, 1);
      DecodedBehind("" + [if s[0] == '+' then ' ' else s[0]], s, 1);
    }
    hide HexByte, DecodeOnto;
  }

  /** Decoding of every text, from its first byte on: a plus is a blank; a percent sign
      takes the two bytes behind it for the byte strtol reads from them, and stands for
      itself where there are fewer; every other byte stands for itself. */
  lemma DecodedBytewise(c: char, tail: string)
    ensures UrlDecoded("") == ""
    ensures c != '%' && c != '+' ==> UrlDecoded([c] + tail) == [c] + UrlDecoded(tail)
    ensures c == '+' ==> UrlDecoded([c] + tail) == [' '] + UrlDecoded(tail)
    ensures c == '%' && |tail| < 2 ==> UrlDecoded([c] + tail) == [c] + UrlDecoded(tail)
    ensures c == '%' && |tail| >= 2 ==>
              UrlDecoded([c] + tail) == [(Strtol(tail[..2], 16) % 256) as char] + UrlDecoded(tail[2..])
  {
    var s := [c] + tail;
    assert s[1..] == tail && s[0] == c;
    if |tail| >= 2 { assert s[1..3] == tail[..2] && s[3..] == tail[2..]; }
    hide DecodeOnto, Strtol;
    assert UrlDecoded("") == "" by { NothingDecoded(); }
    OneByteDecoded(s);
  }

  lemma NothingDecoded()
    ensures UrlDecoded("") == ""
  {
  }
}
