/** Percent-decoding as urllib.parse.unquote performs it: every maximal ASCII run is
    unescaped to bytes and decoded as UTF-8 (malformed bytes become U+FFFD), and
    other characters pass through. */
module Percent {

  type Byte = n: int | 0 <= n < 256

  predicate IsHex(c: char) { '0' <= c <= '9' || 'a' <= c <= 'f' || 'A' <= c <= 'F' }

  function HexValue(c: char): (v: int)
    requires IsHex(c)
    ensures 0 <= v < 16
  {
    if c <= '9' then c as int - '0' as int
    else if c <= 'F' then c as int - 'A' as int + 10
    else c as int - 'a' as int + 10
  }

  predicate IsAscii(c: char) { c as int < 128 }

  /** s has a percent sign followed by two hexadecimal digits at position i. */
  predicate EscapeAt(s: string, i: int) {
    0 <= i < |s| - 2 && s[i] == '%' && IsHex(s[i + 1]) && IsHex(s[i + 2])
  }

  ghost predicate NoEscape(s: string) { forall i :: !EscapeAt(s, i) }

  // ------------------------------------------------------------------ UTF-8

  predicate Continuation(b: Byte) { 0x80 <= b < 0xC0 }

  /** How many continuation bytes a lead byte announces. */
  function Announced(b: Byte): nat {
    if 0xC2 <= b <= 0xDF then 1 else if 0xE0 <= b <= 0xEF then 2 else if 0xF0 <= b <= 0xF4 then 3 else 0
  }

  /** The second byte's range depends on the lead byte: no overlong forms, no
      surrogates, nothing above U+10FFFF. */
  predicate SecondByteFits(lead: Byte, b: Byte) {
    (if lead == 0xE0 then 0xA0 else if lead == 0xF0 then 0x90 else 0x80) <= b <=
    (if lead == 0xED then 0x9F else if lead == 0xF4 then 0x8F else 0xBF)
  }

  /** One decoding step: how many bytes it consumes and the character it yields.
      A malformed or cut-off sequence is consumed up to its longest valid prefix. */
  function DecodeOne(bs: seq<Byte>): (r: (nat, char))
    requires bs != []
    ensures 1 <= r.0 <= |bs|
    ensures bs[0] < 128 ==> r == (1, bs[0] as char)
  {
    var bad := '\U{FFFD}';
    var b0 := bs[0];
    if b0 < 0x80 then (1, b0 as char)
    else if Announced(b0) == 0 || |bs| < 2 || !SecondByteFits(b0, bs[1]) then (1, bad)
    else if Announced(b0) == 1 then (2, (b0 as int * 64 + bs[1] as int - 0x3080) as char)
    else if |bs| < 3 || !Continuation(bs[2]) then (2, bad)
    else if Announced(b0) == 2 then
      (3, (b0 as int * 4096 + bs[1] as int * 64 + bs[2] as int - 0xE2080) as char)
    else if |bs| < 4 || !Continuation(bs[3]) then (3, bad)
    else
      (4, (b0 as int * 262144 + bs[1] as int * 4096 + bs[2] as int * 64 + bs[3] as int - 0x3C82080) as char)
  }

  function Utf8Decode(bs: seq<Byte>): (s: string)
    ensures |s| <= |bs|
  {
    if bs == [] then ""
    else
      var (n, c) := DecodeOne(bs);
      [c] + Utf8Decode(bs[n..])
  }

  // --------------------------------------------------------------- unescape

  /** unquote_to_bytes on an ASCII run. */
  function UnquoteToBytes(run: string): (bs: seq<Byte>)
    requires forall c | c in run :: IsAscii(c)
    ensures |bs| <= |run|
  {
    if run == "" then []
    else if EscapeAt(run, 0) then
      [16 * HexValue(run[1]) + HexValue(run[2])] + UnquoteToBytes(run[3..])
    else
      assert run[0] in run && IsAscii(run[0]);
      var b: Byte := run[0] as int;
      [b] + UnquoteToBytes(run[1..])
  }

  /** Length of the ASCII run that s starts with. */
  function AsciiRun(s: string): (n: nat)
    ensures n <= |s|
    ensures forall c | c in s[..n] :: IsAscii(c)
    ensures n < |s| ==> !IsAscii(s[n])
  {
    if s == "" || !IsAscii(s[0]) then 0
    else
      var n := 1 + AsciiRun(s[1..]);
      assert s[..n] == [s[0]] + s[1..][..n - 1];
      n
  }

  function Unquote(s: string): (r: string)
    ensures |r| <= |s|
    decreases |s|
  {
    if s == "" then ""
    else
      var n := AsciiRun(s);
      if n == 0 then [s[0]] + Unquote(s[1..])
      else Utf8Decode(UnquoteToBytes(s[..n])) + Unquote(s[n..])
  }

  // ------------------------------------- unquote is the identity exactly there

  lemma FirstByte(run: string)
    requires (forall c | c in run :: IsAscii(c)) && run != "" && !EscapeAt(run, 0)
    ensures Utf8Decode(UnquoteToBytes(run)) == [run[0]] + Utf8Decode(UnquoteToBytes(run[1..]))
  {
    assert run[0] in run;
    var bs := UnquoteToBytes(run);
    assert bs[1..] == UnquoteToBytes(run[1..]);
  }

  lemma {:induction false} AsciiBytesDecodeToThemselves(run: string)
    requires forall c | c in run :: IsAscii(c)
    requires NoEscape(run)
    ensures Utf8Decode(UnquoteToBytes(run)) == run
  {
    if run != "" {
      assert run[0] in run && IsAscii(run[0]);
      assert !EscapeAt(run, 0);
      forall i ensures !EscapeAt(run[1..], i) {
        assert !EscapeAt(run, i + 1);
      }
      AsciiBytesDecodeToThemselves(run[1..]);
      FirstByte(run);
    }
  }

  lemma {:induction false} EscapeShortensRun(run: string, i: nat)
    requires forall c | c in run :: IsAscii(c)
    requires EscapeAt(run, i)
    ensures |UnquoteToBytes(run)| < |run|
    decreases |run|
  {
    if !EscapeAt(run, 0) {
      assert EscapeAt(run[1..], i - 1);
      EscapeShortensRun(run[1..], i - 1);
    }
  }

  lemma NoEscapeInSlice(s: string, lo: nat, hi: nat)
    requires lo <= hi <= |s|
    requires NoEscape(s)
    ensures NoEscape(s[lo..hi])
  {
    forall i ensures !EscapeAt(s[lo..hi], i) {
      assert !EscapeAt(s, lo + i);
    }
  }

  lemma {:induction false} UnquoteIdentity(s: string)
    requires NoEscape(s)
    ensures Unquote(s) == s
    decreases |s|
  {
    hide UnquoteToBytes, Utf8Decode, EscapeAt;
    if s != "" {
      var n := AsciiRun(s);
      var cut := if n == 0 then 1 else n;
      NoEscapeInSlice(s, cut, |s|);
      assert s[cut..|s|] == s[cut..];
      UnquoteIdentity(s[cut..]);
      assert s == s[..cut] + s[cut..];
      if n > 0 {
        NoEscapeInSlice(s, 0, n);
        assert s[0..n] == s[..n];
        AsciiBytesDecodeToThemselves(s[..n]);
      } else {
        assert s[..1] == [s[0]];
      }
    }
  }

  lemma {:induction false} EscapeShortens(s: string, i: nat)
    requires EscapeAt(s, i)
    ensures |Unquote(s)| < |s|
    decreases |s|
  {
    var n := AsciiRun(s);
    if n == 0 {
      assert i > 0;
      assert EscapeAt(s[1..], i - 1);
      EscapeShortens(s[1..], i - 1);
    } else if i < n {
      assert i + 2 < n;
      assert EscapeAt(s[..n], i);
      EscapeShortensRun(s[..n], i);
    } else {
      assert EscapeAt(s[n..], i - n);
      EscapeShortens(s[n..], i - n);
    }
  }

  /** One pass of unquote changes nothing exactly when there is nothing to decode. */
  lemma UnquoteFixpoint(s: string)
    ensures Unquote(s) == s <==> NoEscape(s)
  {
    if NoEscape(s) {
      UnquoteIdentity(s);
    } else {
      var i :| EscapeAt(s, i);
      EscapeShortens(s, i);
    }
  }

  // ---------------------------------------- what escapes stand for: an encoder

  /** UTF-8 (section 3 of RFC 3629). */
  function Utf8Encode(c: char): (bs: seq<Byte>)
    ensures 1 <= |bs| <= 4
  {
    var n := c as int;
    if n < 0x80 then [n]
    else if n < 0x800 then [0xC0 + n / 64, 0x80 + n % 64]
    else if n < 0x1_0000 then [0xE0 + n / 4096, 0x80 + n / 64 % 64, 0x80 + n % 64]
    else [0xF0 + n / 262144, 0x80 + n / 4096 % 64, 0x80 + n / 64 % 64, 0x80 + n % 64]
  }

  lemma DecodeTwo(bs: seq<Byte>, n: int)
    requires 0x80 <= n < 0x800 && [0xC0 + n / 64, 0x80 + n % 64] <= bs
    ensures DecodeOne(bs) == (2, n as char)
  {
    assert bs[0] == 0xC0 + n / 64 && bs[1] == 0x80 + n % 64;
  }

  lemma DecodeThree(bs: seq<Byte>, n: int)
    requires 0x800 <= n < 0xD800 || 0xE000 <= n < 0x1_0000
    requires [0xE0 + n / 4096, 0x80 + n / 64 % 64, 0x80 + n % 64] <= bs
    ensures DecodeOne(bs) == (3, n as char)
  {
    assert bs[0] == 0xE0 + n / 4096 && bs[1] == 0x80 + n / 64 % 64 && bs[2] == 0x80 + n % 64;
    assert n == n / 64 * 64 + n % 64 && n / 64 == n / 4096 * 64 + n / 64 % 64;
  }

  lemma DecodeFour(bs: seq<Byte>, n: int)
    requires 0x1_0000 <= n < 0x11_0000
    requires [0xF0 + n / 262144, 0x80 + n / 4096 % 64, 0x80 + n / 64 % 64, 0x80 + n % 64] <= bs
    ensures DecodeOne(bs) == (4, n as char)
  {
    assert bs[0] == 0xF0 + n / 262144 && bs[1] == 0x80 + n / 4096 % 64;
    assert bs[2] == 0x80 + n / 64 % 64 && bs[3] == 0x80 + n % 64;
    assert n == n / 64 * 64 + n % 64 && n / 64 == n / 4096 * 64 + n / 64 % 64;
    assert n / 4096 == n / 262144 * 64 + n / 4096 % 64;
  }

  /** A complete sequence decodes to its character, whatever follows. */
  lemma DecodeEncoded(c: char, rest: seq<Byte>)
    ensures DecodeOne(Utf8Encode(c) + rest) == (|Utf8Encode(c)|, c)
    ensures Utf8Decode(Utf8Encode(c) + rest) == [c] + Utf8Decode(rest)
  {
    var n, bs := c as int, Utf8Encode(c) + rest;
    if n < 0x80 {
      assert bs[0] == n;
    } else if n < 0x800 {
      DecodeTwo(bs, n);
    } else if n < 0x1_0000 {
      DecodeThree(bs, n);
    } else {
      DecodeFour(bs, n);
    }
    assert bs[|Utf8Encode(c)|..] == rest;
  }

  /** c is the hexadecimal digit for n: 48 is '0', 65 'A' and 97 'a'. */
  predicate HexSpells(c: char, n: int) {
    (0 <= n < 10 && c as int == 48 + n) || (10 <= n < 16 && (c as int == 55 + n || c as int == 87 + n))
  }

  /** esc writes the bytes, each as a percent sign and two hexadecimal digits. */
  predicate Escapes(esc: string, bs: seq<Byte>) {
    if bs == [] then esc == ""
    else
      |esc| >= 3 && esc[0] == '%' && HexSpells(esc[1], bs[0] / 16) && HexSpells(esc[2], bs[0] % 16) &&
      Escapes(esc[3..], bs[1..])
  }

  /** esc writes the text: every character as itself or as the escapes of its UTF-8 bytes;
      a percent sign only as an escape. */
  predicate Written(esc: string, text: string) {
    if text == "" then esc == ""
    else
      var n := 3 * |Utf8Encode(text[0])|;
      (text[0] != '%' && esc != "" && esc[0] == text[0] && Written(esc[1..], text[1..])) ||
      (|esc| >= n && Escapes(esc[..n], Utf8Encode(text[0])) && Written(esc[n..], text[1..]))
  }

  lemma HexSpelled(c: char, n: int)
    requires HexSpells(c, n)
    ensures IsHex(c) && IsAscii(c) && HexValue(c) == n
  {
  }

  predicate AllAsciiIn(s: string) { forall c | c in s :: IsAscii(c) }

  lemma {:induction false} EscapesAscii(esc: string, bs: seq<Byte>)
    requires Escapes(esc, bs)
    ensures |esc| == 3 * |bs| && AllAsciiIn(esc)
    decreases |bs|
  {
    if bs != [] {
      HexSpelled(esc[1], bs[0] / 16);
      HexSpelled(esc[2], bs[0] % 16);
      EscapesAscii(esc[3..], bs[1..]);
      assert esc == [esc[0], esc[1], esc[2]] + esc[3..];
    }
  }

  lemma OneEscape(run: string, b: Byte)
    requires AllAsciiIn(run) && |run| >= 3 && run[0] == '%' && HexSpells(run[1], b / 16) && HexSpells(run[2], b % 16)
    ensures AllAsciiIn(run[3..]) && UnquoteToBytes(run) == [b] + UnquoteToBytes(run[3..])
  {
    HexSpelled(run[1], b / 16);
    HexSpelled(run[2], b % 16);
    hide HexSpells, HexValue, IsAscii;
    EscapedFirst(run);
    assert 16 * (b / 16) + b % 16 == b;
  }

  lemma EscapedFirst(run: string)
    requires (forall c | c in run :: IsAscii(c)) && EscapeAt(run, 0)
    ensures UnquoteToBytes(run) == [16 * HexValue(run[1]) + HexValue(run[2])] + UnquoteToBytes(run[3..])
  {
    hide HexValue, IsAscii;
  }

  lemma AsciiConcat(a: string, b: string)
    requires AllAsciiIn(a) && AllAsciiIn(b)
    ensures AllAsciiIn(a + b)
  {
  }

  /** Escapes unescape to their bytes, whatever ASCII text follows. */
  lemma {:induction false} UnquoteEscapes(esc: string, bs: seq<Byte>, rest: string)
    requires Escapes(esc, bs) && AllAsciiIn(rest)
    ensures |esc| == 3 * |bs| && AllAsciiIn(esc) && AllAsciiIn(esc + rest)
    ensures UnquoteToBytes(esc + rest) == bs + UnquoteToBytes(rest)
    decreases |bs|
  {
    hide UnquoteToBytes, HexSpells, AllAsciiIn;
    EscapesAscii(esc, bs);
    AsciiConcat(esc, rest);
    if bs == [] {
      assert esc + rest == rest && bs + UnquoteToBytes(rest) == UnquoteToBytes(rest);
    } else {
      UnquoteEscapes(esc[3..], bs[1..], rest);
      assert (esc + rest)[3..] == esc[3..] + rest;
      hide Escapes;
      OneEscape(esc + rest, bs[0]);
      assert [bs[0]] + (bs[1..] + UnquoteToBytes(rest)) == bs + UnquoteToBytes(rest);
    }
  }

  predicate WrittenPlain(esc: string, text: string)
    requires text != ""
  {
    text[0] != '%' && esc != "" && esc[0] == text[0] && Written(esc[1..], text[1..])
  }

  predicate WrittenEscaped(esc: string, text: string)
    requires text != ""
  {
    var n := 3 * |Utf8Encode(text[0])|;
    |esc| >= n && Escapes(esc[..n], Utf8Encode(text[0])) && Written(esc[n..], text[1..])
  }

  lemma WrittenEither(esc: string, text: string)
    requires Written(esc, text) && esc != ""
    ensures text != "" && (WrittenPlain(esc, text) || WrittenEscaped(esc, text))
  {
  }

  /** Where a written text's ASCII run ends, and what it decodes to. */
  ghost predicate RunIs(esc: string, text: string, k: nat) {
    && k <= |text| && Written(esc[AsciiRun(esc)..], text[k..])
    && Utf8Decode(UnquoteToBytes(esc[..AsciiRun(esc)])) == text[..k]
  }

  lemma RunAfterPlain(esc: string, text: string, j: nat)
    requires text != "" && WrittenPlain(esc, text) && IsAscii(esc[0]) && RunIs(esc[1..], text[1..], j)
    ensures RunIs(esc, text, j + 1)
  {
    var n, c := AsciiRun(esc), text[0];
    assert n == 1 + AsciiRun(esc[1..]);
    assert esc[1..][n - 1..] == esc[n..] && text[1..][j..] == text[j + 1..];
    assert esc[..n][1..] == esc[1..][..n - 1] && text[..j + 1] == [c] + text[1..][..j];
    hide Written, UnquoteToBytes, Utf8Decode;
    PlainByte(esc[..n], c);
  }

  lemma EscapedRunDecodes(c: char, head: string, rest: string)
    requires Escapes(head, Utf8Encode(c)) && AllAsciiIn(rest)
    ensures AllAsciiIn(head + rest)
    ensures Utf8Decode(UnquoteToBytes(head + rest)) == [c] + Utf8Decode(UnquoteToBytes(rest))
  {
    hide Escapes, UnquoteToBytes, Utf8Decode, Utf8Encode, IsAscii;
    UnquoteEscapes(head, Utf8Encode(c), rest);
    DecodeEncoded(c, UnquoteToBytes(rest));
  }

  lemma RunAfterEscape(esc: string, text: string, j: nat)
    requires text != "" && WrittenEscaped(esc, text)
    requires RunIs(esc[3 * |Utf8Encode(text[0])|..], text[1..], j)
    ensures RunIs(esc, text, j + 1)
  {
    hide Written, WrittenPlain, UnquoteToBytes, Utf8Decode, Utf8Encode, Escapes, AsciiRun;
    var m := 3 * |Utf8Encode(text[0])|;
    var n := AsciiRun(esc);
    RunThrough(esc, m, Utf8Encode(text[0]));
    var head, rest := esc[..m], esc[m..][..n - m];
    assert esc[m..][n - m..] == esc[n..] && text[1..][j..] == text[j + 1..];
    assert esc[..n] == head + rest && text[..j + 1] == [text[0]] + text[1..][..j];
    EscapedRunDecodes(text[0], head, rest);
  }

  /** The ASCII run a written text starts with ends between two of its characters, and
      decodes to those it holds. */
  lemma {:induction false} WrittenRun(esc: string, text: string) returns (k: nat)
    requires Written(esc, text)
    ensures RunIs(esc, text, k)
    ensures AsciiRun(esc) > 0 ==> k > 0
    decreases |text|
  {
    if AsciiRun(esc) == 0 {
      k := 0;
      assert esc[0..] == esc && text[0..] == text && esc[..0] == "";
    } else {
      WrittenEither(esc, text);
      if WrittenPlain(esc, text) {
        var j := WrittenRun(esc[1..], text[1..]);
        RunAfterPlain(esc, text, j);
        k := j + 1;
      } else {
        var j := WrittenRun(esc[3 * |Utf8Encode(text[0])|..], text[1..]);
        RunAfterEscape(esc, text, j);
        k := j + 1;
      }
    }
  }

  lemma PlainByte(run: string, c: char)
    requires AllAsciiIn(run) && run != "" && run[0] == c && c != '%'
    ensures AllAsciiIn(run[1..])
    ensures Utf8Decode(UnquoteToBytes(run)) == [c] + Utf8Decode(UnquoteToBytes(run[1..]))
  {
    FirstByte(run);
  }

  /** A run goes through escapes. */
  lemma RunThrough(esc: string, m: nat, bs: seq<Byte>)
    requires m <= |esc| && Escapes(esc[..m], bs)
    ensures AsciiRun(esc) == m + AsciiRun(esc[m..])
  {
    UnquoteEscapes(esc[..m], bs, "");
    assert esc[..m] + "" == esc[..m];
    AsciiRunConcat(esc[..m], esc[m..]);
    assert esc[..m] + esc[m..] == esc;
  }

  lemma {:induction false} AsciiRunConcat(a: string, b: string)
    requires AllAsciiIn(a)
    ensures AsciiRun(a + b) == |a| + AsciiRun(b)
    decreases |a|
  {
    if a == "" {
      assert a + b == b;
    } else {
      assert a[0] in a && (a + b)[1..] == a[1..] + b;
      AsciiRunConcat(a[1..], b);
    }
  }

  /** One pass undoes every way of writing a text: every character, in every spelling of
      its escapes. */
  lemma {:induction false} UnquoteWritten(esc: string, text: string)
    requires Written(esc, text)
    ensures Unquote(esc) == text
    decreases |esc|
  {
    if esc != "" {
      var n := AsciiRun(esc);
      if n == 0 {
        PlainStart(esc, text);
        UnquoteWritten(esc[1..], text[1..]);
        assert text == [text[0]] + text[1..];
      } else {
        var k := WrittenRun(esc, text);
        UnquoteWritten(esc[n..], text[k..]);
        assert text == text[..k] + text[k..];
      }
    } else {
      EmptyWritten(text);
    }
  }

  lemma EmptyWritten(text: string)
    requires Written("", text)
    ensures text == ""
  {
  }

  lemma PlainStart(esc: string, text: string)
    requires Written(esc, text) && esc != "" && !IsAscii(esc[0])
    ensures text != "" && text[0] == esc[0] && Written(esc[1..], text[1..])
  {
    var n := 3 * |Utf8Encode(text[0])|;
    assert |esc| >= n ==> esc[..n] != "" && esc[..n][0] == esc[0];
  }

  // --------------------------------------------------------- repeated passes

  function Passes(n: nat, s: string): (r: string)
    ensures |r| <= |s|
    decreases n
  {
    if n == 0 then s else Passes(n - 1, Unquote(s))
  }

  const MAX_DECODE_PASSES: nat := 4

  /** A pass that changes nothing ends the decoding early without changing the result. */
  lemma {:induction false} StablePasses(n: nat, s: string)
    requires Unquote(s) == s
    ensures Passes(n, s) == s
  {
    if n > 0 {
      StablePasses(n - 1, s);
    }
  }

  /** _percent_decode: the loop with its early exit is exactly the fourth iterate. */
  method PercentDecode(raw: string) returns (r: string)
    ensures r == Passes(MAX_DECODE_PASSES, raw)
  {
    var current := raw;
    for n := 0 to MAX_DECODE_PASSES
      invariant Passes(MAX_DECODE_PASSES - n, current) == Passes(MAX_DECODE_PASSES, raw)
    {
      var decoded := Unquote(current);
      if decoded == current {
        StablePasses(MAX_DECODE_PASSES - n, current);
        return decoded;
      }
      current := decoded;
    }
    return current;
  }
}
