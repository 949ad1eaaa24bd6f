/** A backtracking matcher for the few regular-expression constructs the broker's
    patterns use: greedy runs, ordered alternatives, captures and the end anchor. */
module Regex {
  import opened Wrappers
  import opened Texts

  /** Character classes; the letter classes ignore case, LowerUnit does not. */
  datatype Class = Digit | Space | DigitOrComma | WordStart | WordRest | NameStart | Unit | LowerUnit

  predicate In(cls: Class, c: char) {
    var l := LowerChar(c);
    match cls
    case Digit => IsDigit(c)
    case Space => IsSpace(c)
    case DigitOrComma => IsDigit(c) || c == ','
    case WordStart => 'a' <= l <= 'z' || c == '_'
    case WordRest => 'a' <= l <= 'z' || IsDigit(c) || c == '_' || c == '-'
    case NameStart => 'a' <= l <= 'z' || IsDigit(c)
    case Unit => l == 'h' || l == 'm' || l == 'd'
    case LowerUnit => c == 'h' || c == 'm' || c == 'd'
  }

  /** A pattern, each part followed by what comes next. */
  datatype Re =
    | Accept
    | AtEnd(next: Re)
    | Literal(word: string, next: Re)
    | Run(cls: Class, min: nat, max: Option<nat>, next: Re)
    | Open(group: nat, next: Re)
    | Close(next: Re)
    | Alt(first: Re, second: Re)

  /** The captured groups, and the group being captured. */
  datatype Captures = Captures(groups: map<nat, string>, open: Option<nat>) {
    function Eat(text: string): Captures {
      if open.Some? && open.value in groups
      then this.(groups := groups[open.value := groups[open.value] + text])
      else this
    }

    function Get(n: nat): Option<string> {
      if n in groups then Some(groups[n]) else None
    }
  }

  const NO_CAPTURES := Captures(map[], None)

  /** How far a run can reach. */
  function Reach(cls: Class, max: Option<nat>, s: string): (n: nat)
    ensures n <= |s|
    decreases |s|
  {
    if s == "" || !In(cls, s[0]) || max == Some(0) then 0
    else 1 + Reach(cls, if max.Some? then Some(max.value - 1) else None, s[1..])
  }

  function Match(re: Re, s: string, caps: Captures): Option<Captures>
    decreases re, |s| + 1
  {
    match re
    case Accept => Some(caps)
    case AtEnd(next) => if s == "" || s == "\n" then Match(next, s, caps) else None
    case Literal(word, next) =>
      if |word| <= |s| && Lower(s[..|word|]) == word
      then Match(next, s[|word|..], caps.Eat(s[..|word|])) else None
    case Run(cls, min, max, _) => TryRun(re, s, caps, Reach(cls, max, s))
    case Open(group, next) => Match(next, s, Captures(caps.groups[group := ""], Some(group)))
    case Close(next) => Match(next, s, Captures(caps.groups, None))
    case Alt(first, second) =>
      var r := Match(first, s, caps);
      if r.Some? then r else Match(second, s, caps)
  }

  /** The longest repetition first, then shorter ones. */
  function TryRun(re: Re, s: string, caps: Captures, k: nat): Option<Captures>
    requires re.Run? && k <= |s|
    decreases re, k
  {
    if k < re.min then None
    else
      var r := Match(re.next, s[k..], caps.Eat(s[..k]));
      if r.Some? then r else if k == 0 then None else TryRun(re, s, caps, k - 1)
  }

  // ------------------------------------------------------ evaluating patterns

  predicate AllIn(cls: Class, w: string) { forall i | 0 <= i < |w| :: In(cls, w[i]) }

  /** Nothing of the class follows. */
  predicate Stops(cls: Class, rest: string) { rest == "" || !In(cls, rest[0]) }

  lemma {:induction false} ReachIs(cls: Class, max: Option<nat>, w: string, rest: string)
    requires AllIn(cls, w) && (max.Some? ==> |w| <= max.value)
    requires Stops(cls, rest) || max == Some(|w|)
    ensures Reach(cls, max, w + rest) == |w|
    decreases |w|
  {
    if w == "" {
      assert w + rest == rest;
    } else {
      assert (w + rest)[1..] == w[1..] + rest;
      assert (w + rest)[0] == w[0] && In(cls, w[0]);
      ReachIs(cls, if max.Some? then Some(max.value - 1) else None, w[1..], rest);
    }
  }

  /** A run takes the whole word in front of it when the rest of the pattern then matches. */
  lemma RunTakes(re: Re, w: string, rest: string, caps: Captures)
    requires re.Run? && AllIn(re.cls, w) && re.min <= |w| && (re.max.Some? ==> |w| <= re.max.value)
    requires Stops(re.cls, rest) || re.max == Some(|w|)
    requires Match(re.next, rest, caps.Eat(w)).Some?
    ensures Match(re, w + rest, caps) == Match(re.next, rest, caps.Eat(w))
  {
    ReachIs(re.cls, re.max, w, rest);
    assert (w + rest)[..|w|] == w && (w + rest)[|w|..] == rest;
  }

  /** A run fails when the rest of the pattern fails after every repetition. */
  lemma {:induction false} TryRunFails(re: Re, s: string, caps: Captures, k: nat)
    requires re.Run? && k <= |s|
    requires forall j | re.min <= j <= k :: Match(re.next, s[j..], caps.Eat(s[..j])).None?
    ensures TryRun(re, s, caps, k).None?
    decreases k
  {
    if re.min <= k && k > 0 {
      TryRunFails(re, s, caps, k - 1);
    }
  }

  /** A run that matches does so with some repetition within its bounds. */
  lemma {:induction false} TryRunFinds(re: Re, s: string, caps: Captures, k: nat) returns (j: nat)
    requires re.Run? && k <= |s| && TryRun(re, s, caps, k).Some?
    ensures re.min <= j <= k
    ensures TryRun(re, s, caps, k) == Match(re.next, s[j..], caps.Eat(s[..j]))
    decreases k
  {
    if Match(re.next, s[k..], caps.Eat(s[..k])).Some? {
      j := k;
    } else {
      j := TryRunFinds(re, s, caps, k - 1);
    }
  }

  lemma {:induction false} ReachIsIn(cls: Class, max: Option<nat>, s: string)
    ensures AllIn(cls, s[..Reach(cls, max, s)])
    ensures max.Some? ==> Reach(cls, max, s) <= max.value
    decreases |s|
  {
    var n := Reach(cls, max, s);
    if n > 0 {
      ReachIsIn(cls, if max.Some? then Some(max.value - 1) else None, s[1..]);
      assert s[..n] == [s[0]] + s[1..][..n - 1];
    }
  }

  /** What a matched literal or run consumed. */
  lemma LiteralConsumes(re: Re, s: string, caps: Captures)
    requires re.Literal? && Match(re, s, caps).Some?
    ensures |re.word| <= |s| && Lower(s[..|re.word|]) == re.word
    ensures Match(re, s, caps) == Match(re.next, s[|re.word|..], caps.Eat(s[..|re.word|]))
  {
  }

  lemma RunConsumes(re: Re, s: string, caps: Captures) returns (j: nat)
    requires re.Run? && Match(re, s, caps).Some?
    ensures re.min <= j <= |s| && (re.max.Some? ==> j <= re.max.value) && AllIn(re.cls, s[..j])
    ensures Match(re, s, caps) == Match(re.next, s[j..], caps.Eat(s[..j]))
  {
    var n := Reach(re.cls, re.max, s);
    ReachIsIn(re.cls, re.max, s);
    j := TryRunFinds(re, s, caps, n);
    assert s[..j] == s[..n][..j];
  }

  /** An unbounded run matches if some repetition lets the rest of the pattern match. */
  lemma RunAdmits(re: Re, w: string, rest: string, caps: Captures)
    requires re.Run? && re.max.None? && re.min <= |w| && AllIn(re.cls, w)
    requires Match(re.next, rest, caps.Eat(w)).Some?
    ensures Match(re, w + rest, caps).Some?
  {
    var s := w + rest;
    assert s[|w|..] == rest && s[..|w|] == w;
    ReachesOver(re.cls, w, rest);
    TryRunAdmits(re, s, caps, Reach(re.cls, None, s), |w|);
  }

  lemma {:induction false} ReachesOver(cls: Class, w: string, rest: string)
    requires AllIn(cls, w)
    ensures Reach(cls, None, w + rest) >= |w|
    decreases |w|
  {
    if w != "" {
      assert (w + rest)[1..] == w[1..] + rest && (w + rest)[0] == w[0];
      ReachesOver(cls, w[1..], rest);
    }
  }

  lemma {:induction false} TryRunAdmits(re: Re, s: string, caps: Captures, k: nat, j: nat)
    requires re.Run? && re.min <= j <= k <= |s| && Match(re.next, s[j..], caps.Eat(s[..j])).Some?
    ensures TryRun(re, s, caps, k).Some?
    decreases k
  {
    if j < k {
      TryRunAdmits(re, s, caps, k - 1, j);
    }
  }

  lemma AltFirst(first: Re, second: Re, s: string, caps: Captures)
    requires Match(first, s, caps).Some?
    ensures Match(Alt(first, second), s, caps) == Match(first, s, caps)
  {
  }

  lemma AltSecond(first: Re, second: Re, s: string, caps: Captures)
    requires Match(first, s, caps).None?
    ensures Match(Alt(first, second), s, caps) == Match(second, s, caps)
  {
  }

  /** Text eaten inside a freshly opened group becomes the group's content. */
  lemma EatIntoGroup(groups: map<nat, string>, n: nat, a: string, b: string)
    ensures Captures(groups[n := ""], Some(n)).Eat(a) == Captures(groups[n := a], Some(n))
    ensures Captures(groups[n := ""], Some(n)).Eat(a).Eat(b) == Captures(groups[n := a + b], Some(n))
  {
    assert "" + a == a;
    assert groups[n := ""][n := a] == groups[n := a];
    assert groups[n := a][n := a + b] == groups[n := a + b];
  }

  lemma LiteralTakes(re: Re, part: string, rest: string, caps: Captures)
    requires re.Literal? && Lower(part) == re.word
    ensures Match(re, part + rest, caps) == Match(re.next, rest, caps.Eat(part))
  {
    assert (part + rest)[..|part|] == part && (part + rest)[|part|..] == rest;
  }

  lemma LiteralFails(re: Re, s: string, caps: Captures, i: nat)
    requires re.Literal? && i < |re.word|
    requires i < |s| ==> LowerChar(s[i]) != re.word[i]
    ensures Match(re, s, caps).None?
  {
    if |re.word| <= |s| {
      assert Lower(s[..|re.word|])[i] == LowerChar(s[i]);
    }
  }
}
