/** The string operations of the source's language that the broker relies on:
    strip, split on one separator, join, lower-casing and substring search. */
module Texts {

  /** Whitespace as strip() and the \s class see it. */
  predicate IsSpace(c: char) {
    var n := c as int;
    9 <= n <= 13 || 28 <= n <= 32 || n == 0x85 || n == 0xA0 || n == 0x1680 ||
    0x2000 <= n <= 0x200A || n == 0x2028 || n == 0x2029 || n == 0x202F ||
    n == 0x205F || n == 0x3000
  }

  predicate IsDigit(c: char) { '0' <= c <= '9' }

  /** ASCII lower-casing of one character. */
  function LowerChar(c: char): char {
    if 'A' <= c <= 'Z' then (c as int + 32) as char else c
  }

  function Lower(s: string): (r: string)
    ensures |r| == |s|
    ensures forall i | 0 <= i < |s| :: r[i] == LowerChar(s[i])
  {
    if s == "" then "" else [LowerChar(s[0])] + Lower(s[1..])
  }

  /** part is the lower-case word, each letter in either case. */
  predicate SameLetters(part: string, word: string) {
    |part| == |word| && forall i | 0 <= i < |word| ::
      part[i] == word[i] || ('a' <= word[i] <= 'z' && part[i] as int + 32 == word[i] as int)
  }

  lemma LowerIs(part: string, word: string)
    requires forall i | 0 <= i < |word| :: !('A' <= word[i] <= 'Z')
    ensures Lower(part) == word <==> SameLetters(part, word)
  {
    if Lower(part) == word {
      assert forall i | 0 <= i < |word| :: LowerChar(part[i]) == word[i];
    }
  }

  // ---------------------------------------------------------------- strip

  function LeftStrip(s: string): string {
    if s != "" && IsSpace(s[0]) then LeftStrip(s[1..]) else s
  }

  function RightStrip(s: string): string {
    if s != "" && IsSpace(s[|s| - 1]) then RightStrip(s[..|s| - 1]) else s
  }

  function Strip(s: string): string { RightStrip(LeftStrip(s)) }

  /** No whitespace at either end. */
  predicate Trimmed(s: string) {
    s == "" || (!IsSpace(s[0]) && !IsSpace(s[|s| - 1]))
  }

  lemma {:induction false} RightStripKeepsFirst(s: string)
    requires s == "" || !IsSpace(s[0])
    ensures Trimmed(RightStrip(s))
    decreases |s|
  {
    if s != "" && IsSpace(s[|s| - 1]) {
      RightStripKeepsFirst(s[..|s| - 1]);
    }
  }

  lemma {:induction false} LeftStripTrimsFirst(s: string)
    ensures LeftStrip(s) == "" || !IsSpace(LeftStrip(s)[0])
    decreases |s|
  {
    if s != "" && IsSpace(s[0]) {
      LeftStripTrimsFirst(s[1..]);
    }
  }

  /** strip() leaves no whitespace at the ends, so stripping twice is stripping once. */
  lemma StripTrims(s: string)
    ensures Trimmed(Strip(s))
    ensures Strip(Strip(s)) == Strip(s)
  {
    LeftStripTrimsFirst(s);
    RightStripKeepsFirst(LeftStrip(s));
    StripOfTrimmed(Strip(s));
  }

  predicate AllSpace(s: string) { forall c | c in s :: IsSpace(c) }

  lemma {:induction false} LeftStripEmpties(s: string)
    ensures LeftStrip(s) == "" <==> AllSpace(s)
    decreases |s|
  {
    if s != "" {
      assert s == [s[0]] + s[1..] && s[0] in s;
      LeftStripEmpties(s[1..]);
    }
  }

  lemma {:induction false} RightStripEmpties(s: string)
    ensures RightStrip(s) == "" <==> AllSpace(s)
    decreases |s|
  {
    if s != "" {
      var n := |s| - 1;
      assert s == s[..n] + [s[n]] && s[n] in s;
      RightStripEmpties(s[..n]);
    }
  }

  /** Stripping leaves nothing exactly of whitespace. */
  lemma StripEmpties(s: string)
    ensures Strip(s) == "" <==> AllSpace(s)
  {
    LeftStripEmpties(s);
    LeftStripTrimsFirst(s);
    RightStripEmpties(LeftStrip(s));
    if LeftStrip(s) != "" {
      assert LeftStrip(s)[0] in LeftStrip(s);
    }
  }

  lemma {:induction false} LeftStripTakes(s: string) returns (a: string)
    ensures AllSpace(a) && s == a + LeftStrip(s)
    decreases |s|
  {
    a := "";
    if s != "" && IsSpace(s[0]) {
      var rest := LeftStripTakes(s[1..]);
      a := [s[0]] + rest;
    }
  }

  lemma {:induction false} RightStripTakes(s: string) returns (b: string)
    ensures AllSpace(b) && s == RightStrip(s) + b
    decreases |s|
  {
    b := "";
    if s != "" && IsSpace(s[|s| - 1]) {
      var rest := RightStripTakes(s[..|s| - 1]);
      b := rest + [s[|s| - 1]];
    }
  }

  lemma {:induction false} LeftStripSkips(a: string, s: string)
    requires AllSpace(a) && (s == "" || !IsSpace(s[0]))
    ensures LeftStrip(a + s) == s
    decreases |a|
  {
    if a == "" {
      assert a + s == s;
    } else {
      assert a[0] in a && (a + s)[1..] == a[1..] + s;
      assert forall c | c in a[1..] :: c in a;
      LeftStripSkips(a[1..], s);
    }
  }

  lemma {:induction false} RightStripSkips(s: string, b: string)
    requires AllSpace(b) && (s == "" || !IsSpace(s[|s| - 1]))
    ensures RightStrip(s + b) == s
    decreases |b|
  {
    if b == "" {
      assert s + b == s;
    } else {
      var n := |b| - 1;
      assert b[n] in b && (s + b)[..|s + b| - 1] == s + b[..n];
      assert forall c | c in b[..n] :: c in b;
      RightStripSkips(s, b[..n]);
    }
  }

  /** s is the text without the whitespace around it. */
  ghost predicate Stripped(text: string, s: string) {
    Trimmed(s) && exists a, b :: AllSpace(a) && AllSpace(b) && text == a + s + b
  }

  lemma StripExactly(text: string, s: string)
    ensures Stripped(text, s) <==> s == Strip(text)
  {
    if s == Strip(text) {
      StripTrims(text);
      var a := LeftStripTakes(text);
      var b := RightStripTakes(LeftStrip(text));
      assert text == a + s + b;
    }
    if Stripped(text, s) {
      var a, b :| AllSpace(a) && AllSpace(b) && text == a + s + b;
      if s == "" {
        StripEmpties(text);
      } else {
        assert text == a + (s + b);
        LeftStripSkips(a, s + b);
        RightStripSkips(s, b);
      }
    }
  }

  lemma StripOfTrimmed(s: string)
    requires Trimmed(s)
    ensures Strip(s) == s
  {
  }

  // ------------------------------------------------------------ split, join

  function Split(s: string, sep: char): (parts: seq<string>)
    ensures |parts| >= 1
  {
    if s == "" then [""]
    else
      var rest := Split(s[1..], sep);
      if s[0] == sep then [""] + rest else [[s[0]] + rest[0]] + rest[1..]
  }

  function Join(parts: seq<string>, sep: char): string {
    if |parts| == 0 then ""
    else if |parts| == 1 then parts[0]
    else parts[0] + [sep] + Join(parts[1..], sep)
  }

  predicate Lacks(s: string, c: char) { c !in s }

  lemma {:induction false} SplitPartsWithout(s: string, sep: char)
    ensures forall p | p in Split(s, sep) :: Lacks(p, sep)
  {
    if s != "" {
      SplitPartsWithout(s[1..], sep);
      var rest := Split(s[1..], sep);
      assert rest[0] in rest;
      forall p | p in Split(s, sep) ensures Lacks(p, sep) {
        if p != Split(s, sep)[0] {
          assert p in rest;
        }
      }
    }
  }

  lemma {:induction false} SplitOfPart(p: string, sep: char)
    requires Lacks(p, sep)
    ensures Split(p, sep) == [p]
  {
    if p != "" {
      assert forall c | c in p[1..] :: c in p;
      SplitOfPart(p[1..], sep);
      assert [p[0]] + p[1..] == p;
    }
  }

  lemma {:induction false} SplitConcat(p: string, rest: string, sep: char)
    requires Lacks(p, sep)
    ensures Split(p + [sep] + rest, sep) == [p] + Split(rest, sep)
  {
    var whole := p + [sep] + rest;
    if p == "" {
      assert whole[1..] == rest;
    } else {
      assert forall c | c in p[1..] :: c in p;
      SplitConcat(p[1..], rest, sep);
      assert whole[1..] == p[1..] + [sep] + rest;
      assert [p[0]] + p[1..] == p;
    }
  }

  /** split undoes join on separator-free parts. */
  lemma {:induction false} SplitJoin(parts: seq<string>, sep: char)
    requires |parts| >= 1
    requires forall p | p in parts :: Lacks(p, sep)
    ensures Split(Join(parts, sep), sep) == parts
  {
    assert parts[0] in parts;
    if |parts| == 1 {
      SplitOfPart(parts[0], sep);
    } else {
      assert forall p | p in parts[1..] :: p in parts;
      SplitJoin(parts[1..], sep);
      SplitConcat(parts[0], Join(parts[1..], sep), sep);
    }
  }

  /** join undoes split on every string. */
  lemma {:induction false} JoinSplit(s: string, sep: char)
    ensures Join(Split(s, sep), sep) == s
  {
    if s != "" {
      JoinSplit(s[1..], sep);
      var rest := Split(s[1..], sep);
      var all := Split(s, sep);
      assert s == [s[0]] + s[1..];
      if s[0] == sep {
        assert all[1..] == rest;
      } else if |rest| == 1 {
      } else {
        assert all[1..] == rest[1..];
      }
    }
  }

  // -------------------------------------------------------------- searching

  /** needle occurs somewhere in text. */
  predicate Occurs(needle: string, text: string) {
    exists i | 0 <= i <= |text| - |needle| :: needle <= text[i..]
  }

  /** str.replace: leftmost, non-overlapping; needle is not empty. */
  function Replace(text: string, needle: string, mark: string): string
    requires needle != ""
    decreases |text|
  {
    if text == "" then ""
    else if needle <= text then mark + Replace(text[|needle|..], needle, mark)
    else [text[0]] + Replace(text[1..], needle, mark)
  }
}
