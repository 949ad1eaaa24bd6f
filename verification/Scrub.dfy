/** Value-based redaction: every configured secret is replaced in turn. */
module Scrub {
  import opened Texts

  const MARK := "[redacted]"

  /** The replacements in configured order; empty values are not secrets. */
  function Scrubbed(secrets: seq<string>, text: string): string {
    if secrets == [] then text
    else Scrubbed(secrets[1..], if secrets[0] == "" then text else Replace(text, secrets[0], MARK))
  }

  function NonEmpty(secrets: seq<string>): seq<string> {
    if secrets == [] then []
    else (if secrets[0] == "" then [] else [secrets[0]]) + NonEmpty(secrets[1..])
  }

  lemma {:induction false} ScrubbedNonEmpty(secrets: seq<string>, text: string)
    ensures Scrubbed(NonEmpty(secrets), text) == Scrubbed(secrets, text)
  {
    if secrets != [] {
      var head, rest := secrets[0], secrets[1..];
      ScrubbedNonEmpty(rest, if head == "" then text else Replace(text, head, MARK));
      if head != "" {
        assert NonEmpty(secrets) == [head] + NonEmpty(rest);
        assert NonEmpty(secrets)[0] == head && NonEmpty(secrets)[1..] == NonEmpty(rest);
      } else {
        assert NonEmpty(secrets) == [] + NonEmpty(rest) == NonEmpty(rest);
      }
    }
  }

  /** The logging filter drops empty values once, then tests before it replaces. */
  class SecretScrubFilter {
    const secrets: seq<string>

    constructor (configured: seq<string>)
      ensures secrets == NonEmpty(configured)
    {
      secrets := NonEmpty(configured);
    }

    method Clean(text: string) returns (scrubbed: string)
      ensures scrubbed == Scrubbed(secrets, text)
    {
      scrubbed := text;
      for i := 0 to |secrets|
        invariant Scrubbed(secrets[i..], scrubbed) == Scrubbed(secrets, text)
      {
        assert secrets[i..][0] == secrets[i] && secrets[i..][1..] == secrets[i + 1..];
        if secrets[i] != "" {
          ReplaceNothing(scrubbed, secrets[i]);
          if Occurs(secrets[i], scrubbed) {
            scrubbed := Replace(scrubbed, secrets[i], MARK);
          }
        }
      }
    }
  }

  /** The error envelope of a file operation: every client's password, then a cut. */
  method Envelope(passwords: seq<string>, error: string) returns (message: string)
    ensures var full := Scrubbed(passwords, error); message == if |full| > 200 then full[..200] else full
    ensures forall s | s in passwords && s != "" && !Touches(s) :: !Occurs(s, message)
  {
    message := error;
    for i := 0 to |passwords|
      invariant Scrubbed(passwords[i..], message) == Scrubbed(passwords, error)
    {
      assert passwords[i..][0] == passwords[i] && passwords[i..][1..] == passwords[i + 1..];
      if passwords[i] != "" {
        message := Replace(message, passwords[i], MARK);
      }
    }
    ghost var full := message;
    if |message| > 200 {
      message := message[..200];
    }
    forall s | s in passwords && s != "" && !Touches(s) ensures !Occurs(s, message) {
      NoSecretLeft(passwords, error, s);
      OccursEarlier(s, full, |message|);
    }
  }

  // --------------------------------------------------------- meeting the mark

  /** s, laid with its start i characters behind the mark's, agrees with it where both are. */
  predicate Agrees(s: string, i: int) { forall k | 0 <= k < |MARK| && 0 <= k - i < |s| :: s[k - i] == MARK[k] }

  /** Some overlap of s with the mark agrees: a mark, with what stands around it, could
      spell s. */
  predicate Touches(s: string) { exists i | -|s| < i < |MARK| :: Agrees(s, i) }

  // ------------------------------------------------------------- occurrences

  lemma OccursAt(needle: string, text: string, i: nat)
    requires i <= |text|
    ensures needle <= text[i..] ==> Occurs(needle, text)
  {
  }

  lemma OccursLater(needle: string, text: string, k: nat)
    requires k <= |text|
    ensures Occurs(needle, text[k..]) ==> Occurs(needle, text)
  {
    if i :| 0 <= i <= |text[k..]| - |needle| && needle <= text[k..][i..] {
      assert text[k..][i..] == text[k + i..];
      OccursAt(needle, text, k + i);
    }
  }

  lemma OccursEarlier(needle: string, text: string, k: nat)
    requires k <= |text|
    ensures Occurs(needle, text[..k]) ==> Occurs(needle, text)
  {
    if i :| 0 <= i <= |text[..k]| - |needle| && needle <= text[..k][i..] {
      OccursAt(needle, text, i);
    }
  }

  lemma OccursCons(s: string, c: char, rest: string)
    requires Occurs(s, [c] + rest)
    ensures s <= [c] + rest || Occurs(s, rest)
  {
    var i :| 0 <= i <= |[c] + rest| - |s| && s <= ([c] + rest)[i..];
    if i == 0 {
      assert ([c] + rest)[0..] == [c] + rest;
    } else {
      assert ([c] + rest)[i..] == rest[i - 1..];
      OccursAt(s, rest, i - 1);
    }
  }

  lemma AgreesAt(s: string, u: string, rest: string, p: nat)
    requires p <= |u + MARK + rest| && s <= (u + MARK + rest)[p..]
    ensures Agrees(s, p - |u|)
  {
    var whole := u + MARK + rest;
    forall k | 0 <= k < |MARK| && 0 <= k - (p - |u|) < |s| ensures s[k - (p - |u|)] == MARK[k] {
      assert whole[p..][k - (p - |u|)] == whole[|u| + k] == MARK[k];
    }
  }

  /** An occurrence in what a mark begins touches it or lies behind it. */
  lemma OccursMark(s: string, rest: string)
    requires s != "" && Occurs(s, MARK + rest)
    ensures Touches(s) || Occurs(s, rest)
  {
    var whole, n := MARK + rest, |MARK|;
    var i :| 0 <= i <= |whole| - |s| && s <= whole[i..];
    if i < n {
      TouchesAt(s, rest, i);
    } else {
      assert whole[i..] == rest[i - n..];
      OccursAt(s, rest, i - n);
    }
  }

  lemma TouchesAt(s: string, rest: string, i: nat)
    requires s != "" && i < |MARK| && s <= (MARK + rest)[i..]
    ensures Agrees(s, i) && Touches(s)
  {
    hide Agrees;
    assert "" + MARK + rest == MARK + rest;
    AgreesAt(s, "", rest, i);
  }

  /** A secret that does not occur is not replaced. */
  lemma {:induction false} ReplaceNothing(text: string, t: string)
    requires t != ""
    ensures !Occurs(t, text) ==> Replace(text, t, MARK) == text
    decreases |text|
  {
    if text != "" {
      ReplaceNothing(text[1..], t);
      OccursLater(t, text, 1);
      OccursAt(t, text, 0);
      assert text[0..] == text && [text[0]] + text[1..] == text;
    }
  }

  /** What the result starts with after a literal beginning, the text did, unless it
      touches the mark. */
  lemma {:induction false} StartIsOld(s: string, u: string, text: string, t: string)
    requires t != "" && s != "" && !Touches(s)
    ensures s <= u + Replace(text, t, MARK) ==> s <= u + text
    decreases |text|
  {
    if text != "" {
      if t <= text {
        var rest := Replace(text[|t|..], t, MARK);
        assert u + Replace(text, t, MARK) == u + MARK + rest;
        if s <= u + MARK + rest {
          assert (u + MARK + rest)[0..] == u + MARK + rest;
          AgreesAt(s, u, rest, 0);
          assert |s| <= |u|;
          assert (u + MARK + rest)[..|s|] == u[..|s|] == (u + text)[..|s|];
        }
      } else {
        assert u + Replace(text, t, MARK) == u + [text[0]] + Replace(text[1..], t, MARK);
        assert u + [text[0]] + text[1..] == u + text;
        StartIsOld(s, u + [text[0]], text[1..], t);
      }
    }
  }

  /** Replacing brings no other secret into being. */
  lemma {:induction false} NothingNew(s: string, text: string, t: string)
    requires t != "" && s != "" && !Touches(s)
    ensures Occurs(s, Replace(text, t, MARK)) ==> Occurs(s, text)
    decreases |text|
  {
    if text != "" && Occurs(s, Replace(text, t, MARK)) {
      var k := if t <= text then |t| else 1;
      var rest := Replace(text[k..], t, MARK);
      NothingNew(s, text[k..], t);
      OccursLater(s, text, k);
      if t <= text {
        OccursMark(s, rest);
      } else {
        OccursCons(s, text[0], rest);
        assert "" + Replace(text, t, MARK) == Replace(text, t, MARK) && "" + text == text;
        StartIsOld(s, "", text, t);
        OccursAt(s, text, 0);
        assert text[0..] == text;
      }
    }
  }

  // ----------------------------------------------------------- one secret alone

  /** Where s overlaps the mark from the left, what precedes the mark must not already
      hold an occurrence, or that one would have been replaced. */
  predicate Leftover(s: string, i: int)
    requires -|s| < i
  {
    Agrees(s, i) && (i < 0 ==> NoneBefore(s, s[..-i], s))
  }

  /** The secret can be left behind by its own replacement. */
  predicate Survives(s: string) { exists i | -|s| < i < |MARK| :: Leftover(s, i) }

  predicate NoneBefore(t: string, u: string, rest: string) { forall j | 0 <= j < |u| :: !(t <= (u + rest)[j..]) }

  lemma LeftoverStart(s: string, u: string, text: string)
    requires NoneBefore(s, u, text) && s <= text && |u| < |s| && u == s[..|u|] && Agrees(s, -|u|)
    ensures Leftover(s, -|u|)
  {
    forall j | 0 <= j < |u| ensures !(s <= (u + s)[j..]) {
      assert (u + text)[j..][..|s|] == (u + s)[j..][..|s|];
    }
  }

  lemma MarkedSurvives(s: string, u: string, text: string, rest: string)
    requires NoneBefore(s, u, text) && s <= text && |u| < |s|
    ensures s <= u + MARK + rest ==> Survives(s)
  {
    hide NoneBefore, Agrees;
    if s <= u + MARK + rest {
      assert (u + MARK + rest)[0..] == u + MARK + rest;
      assert u == (u + MARK + rest)[..|u|] == s[..|u|];
      AgreesAt(s, u, rest, 0);
      LeftoverStart(s, u, text);
    }
  }

  lemma {:induction false} StartSurvives(s: string, u: string, text: string)
    requires s != "" && NoneBefore(s, u, text)
    ensures s <= u + Replace(text, s, MARK) ==> Survives(s)
    decreases |text|
  {
    if |u| >= |s| {
      assert (u + Replace(text, s, MARK))[..|s|] == u[..|s|] == (u + text)[..|s|];
      assert (u + text)[0..] == u + text;
    } else if text != "" {
      if s <= text {
        var rest := Replace(text[|s|..], s, MARK);
        assert u + Replace(text, s, MARK) == u + MARK + rest;
        MarkedSurvives(s, u, text, rest);
      } else {
        var u' := u + [text[0]];
        assert u + Replace(text, s, MARK) == u' + Replace(text[1..], s, MARK) && u' + text[1..] == u + text;
        assert (u + text)[|u|..] == text;
        StartSurvives(s, u', text[1..]);
      }
    }
  }

  lemma WithinSurvives(s: string, rest: string, i: nat)
    requires s != "" && i < |MARK| && s <= (MARK + rest)[i..]
    ensures Survives(s)
  {
    TouchesAt(s, rest, i);
    hide Agrees;
    assert Leftover(s, i);
  }

  /** What is left of a secret after its own replacement shows that it survives. */
  lemma {:induction false} OnlySurvivorsStay(s: string, text: string)
    requires s != ""
    ensures Occurs(s, Replace(text, s, MARK)) ==> Survives(s)
    decreases |text|
  {
    hide Survives;
    var result := Replace(text, s, MARK);
    if text != "" && Occurs(s, result) {
      var i :| 0 <= i <= |result| - |s| && s <= result[i..];
      if s <= text {
        var rest := Replace(text[|s|..], s, MARK);
        OnlySurvivorsStay(s, text[|s|..]);
        if i < |MARK| {
          WithinSurvives(s, rest, i);
        } else {
          assert result[i..] == rest[i - |MARK|..];
          OccursAt(s, rest, i - |MARK|);
        }
      } else if i == 0 {
        assert "" + result == result && result[0..] == result && "" + text == text;
        StartSurvives(s, "", text);
      } else {
        var rest := Replace(text[1..], s, MARK);
        assert result[i..] == rest[i - 1..];
        OccursAt(s, rest, i - 1);
        OnlySurvivorsStay(s, text[1..]);
      }
    }
  }

  /** Up to its first occurrence a text is copied. */
  lemma {:induction false} ReplaceSkips(u: string, rest: string, t: string)
    requires t != "" && NoneBefore(t, u, rest)
    ensures Replace(u + rest, t, MARK) == u + Replace(rest, t, MARK)
    decreases |u|
  {
    if u == "" {
      assert u + rest == rest;
    } else {
      var tail := u[1..];
      assert (u + rest)[0..] == u + rest && (u + rest)[1..] == tail + rest;
      forall j | 0 <= j < |tail| ensures !(t <= (tail + rest)[j..]) {
        assert (tail + rest)[j..] == (u + rest)[j + 1..];
      }
      ReplaceSkips(tail, rest, t);
      assert [u[0]] + (tail + Replace(rest, t, MARK)) == u + Replace(rest, t, MARK);
    }
  }

  lemma ShortStays(v: string, t: string)
    requires |v| < |t|
    ensures Replace(v, t, MARK) == v
  {
    ReplaceNothing(v, t);
  }

  /** What stands before and behind the mark when s overlaps it at i. */
  function Before(s: string, i: int): string
    requires -|s| < i
  {
    if i < 0 then s[..-i] else ""
  }

  function Behind(s: string, i: int): string
    requires i < |MARK|
  {
    if i + |s| > |MARK| then s[|MARK| - i..] else ""
  }

  lemma SpelledAround(s: string, i: int)
    requires -|s| < i < |MARK| && Agrees(s, i) && s != ""
    ensures Occurs(s, Before(s, i) + MARK + Behind(s, i))
    ensures |Before(s, i)| < |s| && |Behind(s, i)| < |s|
  {
    var u, v := Before(s, i), Behind(s, i);
    var whole, p := u + MARK + v, if i < 0 then 0 else i;
    assert p + |s| <= |whole|;
    forall k | 0 <= k < |s| ensures whole[p..][k] == s[k] {
      var m := k + i;
      if 0 <= m < |MARK| {
        assert s[m - i] == MARK[m];
      }
    }
    assert s <= whole[p..];
    OccursAt(s, whole, p);
  }

  lemma ReplacedOnce(u: string, t: string, v: string)
    requires NoneBefore(t, u, t + v) && |v| < |t|
    ensures Replace(u + (t + v), t, MARK) == u + MARK + v
  {
    ReplaceSkips(u, t + v, t);
    assert t <= t + v && (t + v)[|t|..] == v;
    ShortStays(v, t);
    assert u + (MARK + v) == u + MARK + v;
  }

  lemma NoneBeforeLonger(s: string, u: string, v: string)
    requires NoneBefore(s, u, s)
    ensures NoneBefore(s, u, s + v)
  {
    forall j | 0 <= j < |u| ensures !(s <= (u + (s + v))[j..]) {
      assert (u + (s + v))[j..][..|s|] == (u + s)[j..][..|s|];
    }
  }

  lemma SurvivorStays(s: string, i: int)
    requires s != "" && -|s| < i < |MARK| && Leftover(s, i)
    ensures Occurs(s, Replace(Before(s, i) + (s + Behind(s, i)), s, MARK))
  {
    SpelledAround(s, i);
    hide Agrees, Occurs, Replace, Behind;
    NoneBeforeLonger(s, Before(s, i), Behind(s, i));
    ReplacedOnce(Before(s, i), s, Behind(s, i));
  }

  /** A secret configured alone is removed from every text exactly if it cannot survive
      its own replacement: brackets or not. */
  lemma ScrubsOneExactly(s: string)
    requires s != ""
    ensures LeavesNone([s]) <==> !Survives(s)
  {
    forall text ensures Scrubbed([s], text) == Replace(text, s, MARK) {
      assert [s][1..] == [];
    }
    if i :| -|s| < i < |MARK| && Leftover(s, i) {
      SurvivorStays(s, i);
      assert s in [s] && Occurs(s, Scrubbed([s], Before(s, i) + (s + Behind(s, i))));
    } else {
      forall text ensures !Occurs(s, Replace(text, s, MARK)) {
        OnlySurvivorsStay(s, text);
      }
    }
  }

  // -------------------------------------------------------- the scrub theorems

  ghost predicate LeavesNone(secrets: seq<string>) {
    forall text, s | s in secrets && s != "" :: !Occurs(s, Scrubbed(secrets, text))
  }

  lemma {:induction false} StaysGone(s: string, secrets: seq<string>, text: string)
    requires s != "" && !Touches(s) && !Occurs(s, text)
    ensures !Occurs(s, Scrubbed(secrets, text))
    decreases |secrets|
  {
    if secrets != [] {
      if secrets[0] != "" {
        NothingNew(s, text, secrets[0]);
      }
      StaysGone(s, secrets[1..], if secrets[0] == "" then text else Replace(text, secrets[0], MARK));
    }
  }

  /** The promise of the scrub: no secret that does not touch the mark occurs in the
      result, whatever the text and the other secrets. */
  lemma {:induction false} NoSecretLeft(secrets: seq<string>, text: string, s: string)
    requires s in secrets && s != "" && !Touches(s)
    ensures !Occurs(s, Scrubbed(secrets, text))
    decreases |secrets|
  {
    if secrets[0] == s {
      OnlySurvivorsStay(s, text);
      assert Survives(s) ==> Touches(s);
      StaysGone(s, secrets[1..], Replace(text, s, MARK));
    } else {
      NoSecretLeft(secrets[1..], if secrets[0] == "" then text else Replace(text, secrets[0], MARK), s);
    }
  }

  /** Text without secrets is unchanged. */
  lemma {:induction false} CleanTextUnchanged(secrets: seq<string>, text: string)
    requires forall s | s in secrets && s != "" :: !Occurs(s, text)
    ensures Scrubbed(secrets, text) == text
    decreases |secrets|
  {
    if secrets != [] {
      assert secrets[0] in secrets;
      if secrets[0] != "" {
        ReplaceNothing(text, secrets[0]);
      }
      CleanTextUnchanged(secrets[1..], text);
    }
  }

  // -------------------------------------- a touching secret is safe nowhere

  function Repeat(c: char, n: nat): (r: string)
    ensures |r| == n && forall i | 0 <= i < n :: r[i] == c
  {
    if n == 0 then "" else [c] + Repeat(c, n - 1)
  }

  /** Another secret, longer than s and found only where it is put. */
  function Companion(s: string, a: char, b: char): string { Repeat(a, |s|) + [b] }

  lemma TwoOthers(x: char, y: char) returns (a: char, b: char)
    ensures a != b && a != x && a != y && b != x && b != y
  {
    a := if x != '0' && y != '0' then '0' else if x != '1' && y != '1' then '1' else '2';
    b := if x != '3' && y != '3' then '3' else if x != '4' && y != '4' then '4' else '5';
  }

  lemma CompanionOnlyThere(s: string, u: string, v: string, a: char, b: char)
    requires a != b && |u| < |s|
    ensures NoneBefore(Companion(s, a, b), u, Companion(s, a, b) + v)
  {
    var q := Companion(s, a, b);
    var text := u + (q + v);
    forall j | 0 <= j < |u| ensures !(q <= text[j..]) {
      assert q[|s|] == b;
      assert |s| < |text[j..]| ==> text[j..][|s|] == text[j + |s|] == q[j + |s| - |u|] == a;
    }
  }

  lemma SecretNotThere(s: string, u: string, v: string, a: char, b: char)
    requires s != "" && |u| < |s| && |v| < |s|
    requires a != s[0] && b != s[0] && a != s[|s| - 1] && b != s[|s| - 1]
    ensures !Occurs(s, u + (Companion(s, a, b) + v))
  {
    var q := Companion(s, a, b);
    var text := u + (q + v);
    forall k | |u| <= k < |u| + |q| ensures text[k] == a || text[k] == b {
      assert text[k] == q[k - |u|];
    }
    forall j | 0 <= j <= |text| - |s| ensures !(s <= text[j..]) {
      var last := |s| - 1;
      assert text[j..][0] == text[j] && text[j..][last] == text[j + last];
    }
  }

  ghost predicate SafeInEveryList(s: string) {
    forall secrets, text | s in secrets :: !Occurs(s, Scrubbed(secrets, text))
  }

  lemma BetrayedBy(s: string, i: int)
    requires s != "" && -|s| < i < |MARK| && Agrees(s, i)
    ensures !SafeInEveryList(s)
  {
    hide Agrees, Occurs, Replace, Before, Behind, NoneBefore;
    var u, v := Before(s, i), Behind(s, i);
    SpelledAround(s, i);
    var a, b := TwoOthers(s[0], s[|s| - 1]);
    var q := Companion(s, a, b);
    var text := u + (q + v);
    SecretNotThere(s, u, v, a, b);
    ReplaceNothing(text, s);
    CompanionOnlyThere(s, u, v, a, b);
    ReplacedOnce(u, q, v);
    ScrubbedTwo(s, q, text);
    assert s in [s, q];
  }

  lemma ScrubbedTwo(s: string, q: string, text: string)
    requires s != "" && q != ""
    ensures Scrubbed([s, q], text) == Replace(Replace(text, s, MARK), q, MARK)
  {
    var once := Replace(text, s, MARK);
    assert [s, q][1..] == [q] && [q][1..] == [];
    assert Scrubbed([q], once) == Scrubbed([], Replace(once, q, MARK));
  }

  /** The promise for one secret, exactly: it is removed from every text beside any other
      secrets if and only if it does not touch the mark. */
  lemma SafeExactlyWhen(s: string)
    requires s != ""
    ensures SafeInEveryList(s) <==> !Touches(s)
  {
    if i :| -|s| < i < |MARK| && Agrees(s, i) {
      BetrayedBy(s, i);
    } else {
      forall secrets, text | s in secrets ensures !Occurs(s, Scrubbed(secrets, text)) {
        NoSecretLeft(secrets, text, s);
      }
    }
  }

  // ---------------------------------------------- secrets within the mark

  lemma {:induction false} OccursIn(a: string, b: string, text: string)
    requires Occurs(a, b) && Occurs(b, text)
    ensures Occurs(a, text)
  {
    var i :| 0 <= i <= |b| - |a| && a <= b[i..];
    var j :| 0 <= j <= |text| - |b| && b <= text[j..];
    OccursAt(a, b, i);
    assert a == b[i..][..|a|] && b == text[j..][..|b|];
    assert text[j..][..|b|][i..][..|a|] == text[i + j..][..|a|];
    OccursAt(a, text, i + j);
  }

  /** A replaced secret leaves the mark, and a mark never goes away. */
  lemma {:induction false} MarkAppears(text: string, t: string)
    requires t != "" && Occurs(t, text)
    ensures Occurs(MARK, Replace(text, t, MARK))
    decreases |text|
  {
    if t <= text {
      OccursAt(MARK, Replace(text, t, MARK), 0);
    } else {
      assert [text[0]] + text[1..] == text;
      OccursCons(t, text[0], text[1..]);
      MarkAppears(text[1..], t);
      assert Replace(text, t, MARK)[1..] == Replace(text[1..], t, MARK);
      OccursLater(MARK, Replace(text, t, MARK), 1);
    }
  }

  lemma {:induction false} MarkStays(secrets: seq<string>, text: string)
    requires Occurs(MARK, text)
    ensures Occurs(MARK, Scrubbed(secrets, text))
    decreases |secrets|
  {
    if secrets != [] {
      var next := if secrets[0] == "" then text else Replace(text, secrets[0], MARK);
      if secrets[0] != "" {
        ReplaceNothing(text, secrets[0]);
        if Occurs(secrets[0], text) {
          MarkAppears(text, secrets[0]);
        }
      }
      MarkStays(secrets[1..], next);
    }
  }

  /** A text that holds a secret ends up with a mark in it. */
  lemma {:induction false} SecretIsMarked(secrets: seq<string>, text: string, s: string)
    requires s in secrets && s != "" && Occurs(s, text)
    ensures Occurs(MARK, Scrubbed(secrets, text))
    decreases |secrets|
  {
    var head := secrets[0];
    if head != "" && Occurs(head, text) {
      MarkAppears(text, head);
      MarkStays(secrets[1..], Replace(text, head, MARK));
    } else {
      if head != "" {
        ReplaceNothing(text, head);
      }
      SecretIsMarked(secrets[1..], text, s);
    }
  }

  lemma OccursInItself(s: string)
    ensures Occurs(s, s)
  {
    assert s[0..] == s;
    OccursAt(s, s, 0);
  }

  lemma {:induction false} ScrubbedConcat(a: seq<string>, b: seq<string>, text: string)
    ensures Scrubbed(a + b, text) == Scrubbed(b, Scrubbed(a, text))
    decreases |a|
  {
    if a == [] {
      assert a + b == b;
    } else {
      assert (a + b)[0] == a[0] && (a + b)[1..] == a[1..] + b;
      ScrubbedConcat(a[1..], b, if a[0] == "" then text else Replace(text, a[0], MARK));
    }
  }

  /** The k-th secret overlaps the mark at i so that it survives its own replacement, and
      no other secret of the list is in the way, before or after. */
  predicate Exposed(secrets: seq<string>, k: nat, i: int)
    requires k < |secrets| && -|secrets[k]| < i < |MARK|
  {
    var s := secrets[k];
    var u, v := Before(s, i), Behind(s, i);
    Leftover(s, i) && forall j | 0 <= j < |secrets| && j != k ::
      secrets[j] != "" ==> !Occurs(secrets[j], u + (s + v)) && !Occurs(secrets[j], u + MARK + v)
  }

  lemma ExposedStays(secrets: seq<string>, k: nat, i: int)
    requires k < |secrets| && secrets[k] != "" && -|secrets[k]| < i < |MARK| && Exposed(secrets, k, i)
    ensures var s := secrets[k]; Occurs(s, Scrubbed(secrets, Before(s, i) + (s + Behind(s, i))))
  {
    var s := secrets[k];
    var u, v := Before(s, i), Behind(s, i);
    var text := u + (s + v);
    var first, rest := secrets[..k], secrets[k + 1..];
    assert secrets == first + ([s] + rest) && ([s] + rest)[0] == s && ([s] + rest)[1..] == rest;
    SpelledAround(s, i);
    NoneBeforeLonger(s, u, v);
    ReplacedOnce(u, s, v);
    hide Occurs, Replace, Before, Behind;
    ScrubbedConcat(first, [s] + rest, text);
    CleanTextUnchanged(first, text);
    CleanTextUnchanged(rest, u + MARK + v);
  }

  /** Some text betrays the secret in this list: it lies within the mark, or is exposed. */
  predicate Betrayed(secrets: seq<string>, k: nat)
    requires k < |secrets|
  {
    var s := secrets[k];
    Occurs(s, MARK) || exists i | -|s| < i < |MARK| :: Exposed(secrets, k, i)
  }

  /** Whatever touches the mark is betrayed. */
  predicate TouchingBetrayed(secrets: seq<string>) {
    forall k: nat | k < |secrets| && secrets[k] != "" && Touches(secrets[k]) :: Betrayed(secrets, k)
  }

  /** For a whole list: if each secret that touches the mark does so from within, or exposed
      by the rest of the list, the loop keeps its promise on every text exactly if none
      touches it. */
  lemma ScrubsExactlyWhen(secrets: seq<string>)
    requires TouchingBetrayed(secrets)
    ensures LeavesNone(secrets) <==> forall s | s in secrets && s != "" :: !Touches(s)
  {
    forall s | s in secrets && s != ""
      ensures Touches(s) ==> exists text :: Occurs(s, Scrubbed(secrets, text))
      ensures !Touches(s) ==> forall text :: !Occurs(s, Scrubbed(secrets, text))
    {
      if Touches(s) {
        var k :| 0 <= k < |secrets| && secrets[k] == s;
        BetrayedStays(secrets, k);
      } else {
        forall text ensures !Occurs(s, Scrubbed(secrets, text)) {
          NoSecretLeft(secrets, text, s);
        }
      }
    }
  }

  lemma BetrayedStays(secrets: seq<string>, k: nat)
    requires k < |secrets| && secrets[k] != "" && Betrayed(secrets, k)
    ensures exists text :: Occurs(secrets[k], Scrubbed(secrets, text))
  {
    var s := secrets[k];
    if Occurs(s, MARK) {
      OccursInItself(s);
      SecretIsMarked(secrets, s, s);
      OccursIn(s, MARK, Scrubbed(secrets, s));
    } else {
      var i :| -|s| < i < |MARK| && Exposed(secrets, k, i);
      ExposedStays(secrets, k, i);
    }
  }

  predicate BracketFree(s: string) { '[' !in s && ']' !in s }

  lemma BracketsMiss(s: string, i: int)
    requires s != "" && BracketFree(s) && -|s| < i < |MARK|
    ensures Agrees(s, i) ==> 1 <= i && i + |s| <= 9
  {
    if i <= 0 || i + |s| > 9 {
      var k := if i <= 0 then 0 else 9;
      assert s[k - i] in s && MARK[0] == '[' && MARK[9] == ']';
    }
  }

  /** Without brackets a secret touches the mark only as part of its word. */
  lemma BracketFreeTouches(s: string)
    requires s != "" && BracketFree(s)
    ensures Touches(s) <==> Occurs(s, "redacted")
    ensures Touches(s) ==> Occurs(s, MARK)
  {
    assert MARK[1..9] == "redacted";
    if i :| -|s| < i < |MARK| && Agrees(s, i) {
      BracketsMiss(s, i);
      forall k | 0 <= k < |s| ensures s[k] == "redacted"[i - 1 + k] {
        assert s[(k + i) - i] == MARK[k + i] == MARK[1..9][k + i - 1];
      }
      assert s <= "redacted"[i - 1..] && s <= MARK[i..];
      OccursAt(s, "redacted", i - 1);
      OccursAt(s, MARK, i);
    }
    if j :| 0 <= j <= |"redacted"| - |s| && s <= "redacted"[j..] {
      forall k | 0 <= k < |MARK| && 0 <= k - (j + 1) < |s| ensures s[k - (j + 1)] == MARK[k] {
        assert s[k - (j + 1)] == "redacted"[j..][k - (j + 1)] == MARK[1..9][k - 1];
      }
      assert Agrees(s, j + 1);
    }
  }

  /** Among bracket-free secrets the loop keeps its promise exactly if none is part of the
      mark's word. */
  lemma BracketFreeExactly(secrets: seq<string>)
    requires forall s | s in secrets :: BracketFree(s)
    ensures LeavesNone(secrets) <==> forall s | s in secrets && s != "" :: !Occurs(s, "redacted")
  {
    forall s | s in secrets && s != ""
      ensures Touches(s) <==> Occurs(s, "redacted")
      ensures Touches(s) ==> Occurs(s, MARK)
    {
      BracketFreeTouches(s);
    }
    assert TouchingBetrayed(secrets);
    ScrubsExactlyWhen(secrets);
  }

  /** With brackets: "]x" survives its own replacement, while "[[", which touches the mark
      too, never does, but is safe only alone. */
  lemma BracketedSecrets()
    ensures Survives("]x") && !Survives("[[") && Touches("[[")
    ensures LeavesNone(["[["]) && !LeavesNone(["]x"]) && !SafeInEveryList("[[")
  {
    assert Agrees("]x", 9) && Leftover("]x", 9);
    assert Agrees("[[", -1);
    assert ("[["[..1] + "[[")[0..] == "[[[" && "[[" <= "[[[";
    forall i | -2 < i < |MARK| ensures !Leftover("[[", i) {
      if i >= 0 {
        assert i + 1 < |MARK| ==> "[["[(i + 1) - i] == '[' && MARK[i + 1] != '[';
        assert i == 9 ==> MARK[9] != '[' && "[["[9 - i] == '[';
      }
    }
    ScrubsOneExactly("[[");
    ScrubsOneExactly("]x");
    SafeExactlyWhen("[[");
  }
}
