/** Which texts are which commands, stated on the text, and printed commands read back. */
module ReplyForms {
  import opened Wrappers
  import opened Texts
  import opened Regex
  import opened Replies

  // ----------------------------------------------------------- forms of parts

  predicate Numeral(t: string) { t != "" && forall i | 0 <= i < |t| :: '0' <= t[i] <= '9' }

  predicate Letter(c: char) { 'a' <= c <= 'z' || 'A' <= c <= 'Z' }

  /** A word that starts with a letter or an underscore. */
  predicate Word(t: string) {
    t != "" && (Letter(t[0]) || t[0] == '_') && WordTail(t[1..])
  }

  /** A name that can be revoked by: a word that starts with a letter. */
  predicate Name(t: string) { t != "" && Letter(t[0]) && WordTail(t[1..]) }

  /** What the second pattern alone takes for one. */
  predicate NameLike(t: string) { t != "" && (Letter(t[0]) || '0' <= t[0] <= '9') && WordTail(t[1..]) }

  predicate WordTail(t: string) {
    forall i | 0 <= i < |t| :: Letter(t[i]) || '0' <= t[i] <= '9' || t[i] == '_' || t[i] == '-'
  }

  predicate NumeralList(t: string) { t != "" && forall i | 0 <= i < |t| :: '0' <= t[i] <= '9' || t[i] == ',' }

  /** One to three digits and a unit, in either case. */
  predicate Term(t: string) {
    2 <= |t| <= 4 && Numeral(t[..|t| - 1]) && t[|t| - 1] in {'h', 'm', 'd', 'H', 'M', 'D'}
  }

  predicate Gap(w: string) { w != "" && AllSpace(w) }

  /** A reply taken apart: the verb, white space, then what may follow. */
  datatype Parts = Parts(verb: string, gap: string, target: Option<string>,
                         before: string, list: Option<string>, ahead: string, term: Option<string>)

  predicate TailLays(s: string, before: string, list: Option<string>, ahead: string, term: Option<string>) {
    && s == before + list.GetOr("") + ahead + term.GetOr("")
    && (if list.Some? then Gap(before) && NumeralList(list.value) else before == "")
    && (if term.Some? then Gap(ahead) && Term(term.value) else ahead == "")
  }

  /** The parts, in order, are the text. */
  ghost predicate Lays(s: string, p: Parts) {
    && AllSpace(p.gap) && (p.target.Some? ==> Numeral(p.target.value) || Word(p.target.value))
    && exists tail :: TailLays(tail, p.before, p.list, p.ahead, p.term) &&
                      s == p.verb + p.gap + p.target.GetOr("") + tail
  }

  function With(c: Captures, n: nat, text: Option<string>): Captures {
    if text.Some? then Captures(c.groups[n := text.value], None) else c
  }

  // ------------------------------------------------- what the pattern consumed

  /** The text does not end in a line break, which the end anchor would forgive. */
  predicate Firm(s: string) { s == "" || s[|s| - 1] != '\n' }

  lemma FirmRest(s: string, j: nat)
    requires Firm(s) && j <= |s|
    ensures Firm(s[j..])
  {
  }

  lemma DoneConsumes(s: string, c: Captures)
    requires Firm(s) && Match(DONE, s, c).Some?
    ensures s == "" && Match(DONE, s, c) == Some(c)
  {
  }

  lemma SpacesIn(w: string)
    requires AllIn(Space, w)
    ensures AllSpace(w)
  {
    forall c | c in w ensures IsSpace(c) {
      var i :| 0 <= i < |w| && w[i] == c;
      assert In(Space, w[i]);
    }
  }

  lemma TermConsumes(s: string, c: Captures)
    requires Firm(s) && c.open.None? && Match(EXPIRY_BODY.next, s, c).Some?
    ensures Term(s) && Match(EXPIRY_BODY.next, s, c) == Some(With(c, 4, Some(s)))
  {
    var run := EXPIRY_BODY.next.next;
    var c0 := Captures(c.groups[4 := ""], Some(4));
    assert Match(EXPIRY_BODY.next, s, c) == Match(run, s, c0);
    hide Match;
    var j := RunConsumes(run, s, c0);
    var digits, rest := s[..j], s[j..];
    FirmRest(s, j);
    var k := RunConsumes(run.next, rest, c0.Eat(digits));
    assert k == 1;
    var unit := rest[..1];
    FirmRest(rest, 1);
    EatIntoGroup(c.groups, 4, digits, unit);
    CloseThenDone(rest[1..], c.groups[4 := digits + unit], 4);
    assert In(Unit, unit[0]) && s == digits + unit;
    UnitIs(unit[0]);
    assert s[..|s| - 1] == digits;
    forall i | 0 <= i < |digits| ensures '0' <= digits[i] <= '9' {
      assert In(Digit, digits[i]);
    }
  }

  lemma UnitIs(u: char)
    requires In(Unit, u)
    ensures u in {'h', 'm', 'd', 'H', 'M', 'D'}
  {
  }

  lemma CloseGroup(next: Re, s: string, groups: map<nat, string>, n: nat)
    ensures Match(Close(next), s, Captures(groups, Some(n))) == Match(next, s, Captures(groups, None))
  {
  }

  lemma CloseThenDone(s: string, groups: map<nat, string>, n: nat)
    requires Firm(s) && Match(Close(DONE), s, Captures(groups, Some(n))).Some?
    ensures s == "" && Match(Close(DONE), s, Captures(groups, Some(n))) == Some(Captures(groups, None))
  {
    CloseGroup(DONE, s, groups, n);
    DoneConsumes(s, Captures(groups, None));
  }

  lemma AltConsumes(first: Re, second: Re, s: string, c: Captures)
    requires Match(Alt(first, second), s, c).Some?
    ensures if Match(first, s, c).Some? then Match(Alt(first, second), s, c) == Match(first, s, c)
            else Match(second, s, c).Some? && Match(Alt(first, second), s, c) == Match(second, s, c)
  {
  }

  lemma ExpiryTailConsumes(s: string, c: Captures) returns (ahead: string, term: Option<string>)
    requires Firm(s) && c.open.None? && Match(EXPIRY_TAIL, s, c).Some?
    ensures s == ahead + term.GetOr("") && if term.Some? then Gap(ahead) && Term(term.value) else ahead == ""
    ensures Match(EXPIRY_TAIL, s, c) == Some(With(c, 4, term))
  {
    hide Match;
    AltConsumes(EXPIRY_BODY, DONE, s, c);
    if Match(EXPIRY_BODY, s, c).Some? {
      var j := RunConsumes(EXPIRY_BODY, s, c);
      assert c.Eat(s[..j]) == c;
      FirmRest(s, j);
      SpacesIn(s[..j]);
      TermConsumes(s[j..], c);
      ahead, term := s[..j], Some(s[j..]);
    } else {
      DoneConsumes(s, c);
      ahead, term := "", None;
    }
  }

  lemma ItemsTailConsumes(s: string, c: Captures)
    returns (before: string, list: Option<string>, ahead: string, term: Option<string>)
    requires Firm(s) && c.open.None? && Match(ITEMS_TAIL, s, c).Some?
    ensures TailLays(s, before, list, ahead, term)
    ensures Match(ITEMS_TAIL, s, c) == Some(With(With(c, 3, list), 4, term))
  {
    hide Match;
    AltConsumes(ITEMS_BODY, EXPIRY_TAIL, s, c);
    if Match(ITEMS_BODY, s, c).Some? {
      var j := RunConsumes(ITEMS_BODY, s, c);
      assert c.Eat(s[..j]) == c;
      FirmRest(s, j);
      SpacesIn(s[..j]);
      var n := ListConsumes(s[j..], c);
      FirmRest(s[j..], n);
      before, list := s[..j], Some(s[j..][..n]);
      ahead, term := ExpiryTailConsumes(s[j..][n..], With(c, 3, list));
      assert s == s[..j] + s[j..][..n] + s[j..][n..];
    } else {
      before, list := "", None;
      ahead, term := ExpiryTailConsumes(s, c);
    }
  }

  lemma ListConsumes(s: string, c: Captures) returns (n: nat)
    requires c.open.None? && Match(ITEMS_BODY.next, s, c).Some?
    ensures n <= |s| && NumeralList(s[..n])
    ensures Match(ITEMS_BODY.next, s, c) == Match(EXPIRY_TAIL, s[n..], With(c, 3, Some(s[..n])))
  {
    var c0 := Captures(c.groups[3 := ""], Some(3));
    assert Match(ITEMS_BODY.next, s, c) == Match(ITEMS_RUN, s, c0);
    n := RunConsumes(ITEMS_RUN, s, c0);
    EatIntoGroup(c.groups, 3, s[..n], "");
    CloseGroup(EXPIRY_TAIL, s[n..], c.groups[3 := s[..n]], 3);
    hide Match;
    forall i | 0 <= i < n ensures '0' <= s[..n][i] <= '9' || s[..n][i] == ',' {
      assert In(DigitOrComma, s[..n][i]);
    }
  }

  lemma NumberConsumes(s: string, c: Captures) returns (n: nat)
    requires c.open.None? && Match(NUMBER, s, Captures(c.groups[2 := ""], Some(2))).Some?
    ensures n <= |s| && Numeral(s[..n])
    ensures Match(NUMBER, s, Captures(c.groups[2 := ""], Some(2))) ==
            Match(ITEMS_TAIL, s[n..], With(c, 2, Some(s[..n])))
  {
    var c0 := Captures(c.groups[2 := ""], Some(2));
    hide Match;
    n := RunConsumes(NUMBER, s, c0);
    EatIntoGroup(c.groups, 2, s[..n], "");
    CloseGroup(ITEMS_TAIL, s[n..], c.groups[2 := s[..n]], 2);
    forall i | 0 <= i < n ensures '0' <= s[..n][i] <= '9' {
      assert In(Digit, s[..n][i]);
    }
  }

  lemma WordConsumes(s: string, c: Captures) returns (n: nat)
    requires c.open.None? && Match(WORD, s, Captures(c.groups[2 := ""], Some(2))).Some?
    ensures n <= |s| && Word(s[..n])
    ensures Match(WORD, s, Captures(c.groups[2 := ""], Some(2))) == Match(ITEMS_TAIL, s[n..], With(c, 2, Some(s[..n])))
  {
    var c0 := Captures(c.groups[2 := ""], Some(2));
    hide Match;
    var i := RunConsumes(WORD, s, c0);
    assert i == 1;
    var head, rest := s[..1], s[1..];
    var j := RunConsumes(WORD.next, rest, c0.Eat(head));
    n := 1 + j;
    assert s[..n] == head + rest[..j] && s[n..] == rest[j..];
    EatIntoGroup(c.groups, 2, head, rest[..j]);
    CloseGroup(ITEMS_TAIL, s[n..], c.groups[2 := s[..n]], 2);
    assert In(WordStart, head[0]);
    LetterIs(head[0]);
    TailIs(rest[..j]);
    assert s[..n][1..] == rest[..j];
  }

  lemma LetterIs(c: char)
    ensures 'a' <= LowerChar(c) <= 'z' <==> Letter(c)
  {
  }

  lemma TailIs(t: string)
    requires AllIn(WordRest, t)
    ensures WordTail(t)
  {
    forall i | 0 <= i < |t| ensures Letter(t[i]) || '0' <= t[i] <= '9' || t[i] == '_' || t[i] == '-' {
      assert In(WordRest, t[i]);
      LetterIs(t[i]);
    }
  }

  lemma TargetConsumes(s: string, c: Captures) returns (target: Option<string>, n: nat)
    requires c.open.None? && Match(TARGET, s, c).Some?
    ensures n <= |s| && s[..n] == target.GetOr("")
    ensures target.Some? ==> Numeral(target.value) || Word(target.value)
    ensures Match(TARGET, s, c) == Match(ITEMS_TAIL, s[n..], With(c, 2, target))
  {
    var c0 := Captures(c.groups[2 := ""], Some(2));
    var open := Open(2, Alt(NUMBER, WORD));
    assert Match(open, s, c) == Match(Alt(NUMBER, WORD), s, c0);
    hide Match;
    AltConsumes(open, ITEMS_TAIL, s, c);
    if Match(open, s, c).Some? {
      AltConsumes(NUMBER, WORD, s, c0);
      if Match(NUMBER, s, c0).Some? {
        n := NumberConsumes(s, c);
      } else {
        n := WordConsumes(s, c);
      }
      target := Some(s[..n]);
    } else {
      target, n := None, 0;
      assert s[0..] == s && s[..0] == "";
    }
  }

  /** The verb the pattern found, in whatever case. */
  lemma {:induction false} VerbConsumes(words: seq<string>, after: Re, s: string, c: Captures) returns (w: string)
    requires words != [] && (forall w | w in words :: w != "") && Match(AnyOf(words, after), s, c).Some?
    ensures w in words && |w| <= |s| && Lower(s[..|w|]) == w
    ensures Match(AnyOf(words, after), s, c) == Match(after, s[|w|..], c.Eat(s[..|w|]))
    decreases |words|
  {
    hide Match, Lower;
    w := words[0];
    var first := Literal(w, after);
    if |words| == 1 {
      LiteralConsumes(first, s, c);
    } else {
      AltConsumes(first, AnyOf(words[1..], after), s, c);
      if Match(first, s, c).Some? {
        LiteralConsumes(first, s, c);
      } else {
        assert forall v | v in words[1..] :: v in words;
        w := VerbConsumes(words[1..], after, s, c);
      }
    }
  }

  /** The match, as its parts. */
  function Found(p: Parts): Captures {
    With(With(With(Captures(map[1 := p.verb], None), 2, p.target), 3, p.list), 4, p.term)
  }

  lemma VerbStarts(s: string) returns (n: nat)
    requires Match(REPLY, s, NO_CAPTURES).Some?
    ensures n <= |s| && Lower(s[..n]) in VERBS
    ensures Match(REPLY, s, NO_CAPTURES) == Match(AFTER_VERB.next, s[n..], Captures(map[1 := s[..n]], None))
  {
    var c0 := Captures(map[1 := ""], Some(1));
    assert map[][1 := ""] == map[1 := ""];
    assert Match(REPLY, s, NO_CAPTURES) == Match(AnyOf(VERBS, AFTER_VERB), s, c0);
    hide Match, Lower;
    var verb := VerbConsumes(VERBS, AFTER_VERB, s, c0);
    n := |verb|;
    EatIntoGroup(map[], 1, s[..n], "");
    CloseGroup(AFTER_VERB.next, s[n..], map[1 := s[..n]], 1);
  }

  lemma LaysOut(s: string, n: nat, j: nat, m: nat, p: Parts)
    requires n + j + m <= |s| && p.verb == s[..n] && p.gap == s[n..][..j] && AllSpace(p.gap)
    requires p.target.GetOr("") == s[n..][j..][..m]
    requires (p.target.Some? ==> Numeral(p.target.value) || Word(p.target.value))
    requires TailLays(s[n..][j..][m..], p.before, p.list, p.ahead, p.term)
    ensures Lays(s, p)
  {
    hide TailLays, Numeral, Word, AllSpace;
    assert s == s[..n] + s[n..][..j] + s[n..][j..][..m] + s[n..][j..][m..];
  }

  /** What comes after the verb. */
  lemma AfterVerbConsumes(rest: string, c: Captures) returns (j: nat, m: nat, p: Parts)
    requires Firm(rest) && c.open.None? && Match(AFTER_VERB.next, rest, c).Some?
    ensures j + m <= |rest| && p.gap == rest[..j] && AllSpace(p.gap) && p.target.GetOr("") == rest[j..][..m]
    ensures p.target.Some? ==> Numeral(p.target.value) || Word(p.target.value)
    ensures TailLays(rest[j..][m..], p.before, p.list, p.ahead, p.term)
    ensures Match(AFTER_VERB.next, rest, c) == Some(With(With(With(c, 2, p.target), 3, p.list), 4, p.term))
  {
    hide Match, TailLays;
    j := RunConsumes(AFTER_VERB.next, rest, c);
    assert c.Eat(rest[..j]) == c;
    SpacesIn(rest[..j]);
    var target, n := TargetConsumes(rest[j..], c);
    m := n;
    FirmRest(rest, j);
    FirmRest(rest[j..], m);
    var before, list, ahead, term := ItemsTailConsumes(rest[j..][m..], With(c, 2, target));
    p := Parts("", rest[..j], target, before, list, ahead, term);
  }

  /** A matched reply, part by part. */
  lemma ReplyConsumes(s: string) returns (p: Parts)
    requires Firm(s) && Match(REPLY, s, NO_CAPTURES).Some?
    ensures Lower(p.verb) in VERBS && Lays(s, p)
    ensures Match(REPLY, s, NO_CAPTURES) == Some(Found(p))
  {
    hide Match, Lower, TailLays, Numeral, Word, AllSpace;
    var n := VerbStarts(s);
    FirmRest(s, n);
    var j, m, q := AfterVerbConsumes(s[n..], Captures(map[1 := s[..n]], None));
    p := q.(verb := s[..n]);
    LaysOut(s, n, j, m, p);
  }

  // --------------------------------------------------- what the pattern takes

  lemma SpaceTakes(re: Re, gap: string, w: string, caps: Captures)
    requires re.Run? && re.cls == Space && re.min <= |gap| && re.max.None?
    requires AllSpace(gap) && (w == "" || !IsSpace(w[0])) && caps.open.None?
    requires Match(re.next, w, caps).Some?
    ensures Match(re, gap + w, caps) == Match(re.next, w, caps)
  {
    AreSpaces(gap);
    assert caps.Eat(gap) == caps;
    RunTakes(re, gap, w, caps);
  }

  lemma AreSpaces(gap: string)
    requires AllSpace(gap)
    ensures AllIn(Space, gap)
  {
    forall i | 0 <= i < |gap| ensures In(Space, gap[i]) {
      assert gap[i] in gap;
    }
  }

  lemma NoSpaceAhead(re: Re, s: string, caps: Captures)
    requires re.Run? && re.cls == Space && re.min == 1 && re.max.None?
    requires s == "" || !IsSpace(s[0])
    ensures Match(re, s, caps).None?
  {
  }

  lemma TermTaken(t: string, c: Captures)
    requires Term(t) && c.open.None?
    ensures Match(EXPIRY_BODY.next, t, c) == Some(With(c, 4, Some(t)))
  {
    var digits, unit := t[..|t| - 1], t[|t| - 1..];
    var c0 := Captures(c.groups[4 := ""], Some(4));
    var run := EXPIRY_BODY.next.next;
    var c1 := c0.Eat(digits);
    EatIntoGroup(c.groups, 4, digits, unit);
    assert unit + "" == unit;
    RunTakes(run.next, unit, "", c1);
    RunTakes(run, digits, unit, c0);
    assert digits + unit == t;
  }

  lemma ExpiryTailTaken(ahead: string, term: Option<string>, c: Captures)
    requires c.open.None? && if term.Some? then Gap(ahead) && Term(term.value) else ahead == ""
    ensures Match(EXPIRY_TAIL, ahead + term.GetOr(""), c) == Some(With(c, 4, term))
  {
    if term.Some? {
      TermTaken(term.value, c);
      assert '0' <= term.value[..|term.value| - 1][0] <= '9';
      SpaceTakes(EXPIRY_BODY, ahead, term.value, c);
      AltFirst(EXPIRY_BODY, DONE, ahead + term.value, c);
    } else {
      assert ahead + "" == "";
      NoSpaceAhead(EXPIRY_BODY, "", c);
    }
  }

  /** An expiry in the item position is not taken for a list of items. */
  lemma TermIsNotItems(t: string, c: Captures)
    requires Term(t)
    ensures Match(ITEMS_RUN, t, c).None?
  {
    var digits, unit := t[..|t| - 1], t[|t| - 1..];
    assert digits + unit == t;
    ReachIs(DigitOrComma, None, digits, unit);
    forall j | 1 <= j <= |digits| ensures Match(ITEMS_RUN.next, t[j..], c.Eat(t[..j])).None? {
      var rest, c' := t[j..], Captures(c.Eat(t[..j]).groups, None);
      assert rest[0] == t[j];
      assert j < |digits| ==> t[j] == digits[j];
      assert !IsSpace(rest[0]) && rest[0] != '\n';
      NoSpaceAhead(EXPIRY_BODY, rest, c');
      AltSecond(EXPIRY_BODY, DONE, rest, c');
      assert Match(DONE, rest, c').None?;
      assert Match(ITEMS_RUN.next, rest, c.Eat(t[..j])) == Match(EXPIRY_TAIL, rest, c');
    }
    TryRunFails(ITEMS_RUN, t, c, |digits|);
  }

  lemma ItemsBodySkipsTerm(ahead: string, t: string, c: Captures)
    requires Gap(ahead) && Term(t) && c.open.None?
    ensures Match(ITEMS_BODY, ahead + t, c).None?
  {
    var s := ahead + t;
    AreSpaces(ahead);
    assert '0' <= t[..|t| - 1][0] <= '9' && t[0] == t[..|t| - 1][0];
    ReachIs(Space, None, ahead, t);
    forall k | 1 <= k <= |ahead| ensures Match(ITEMS_BODY.next, s[k..], c.Eat(s[..k])).None? {
      var c0 := Captures(c.groups[3 := ""], Some(3));
      assert c.Eat(s[..k]) == c;
      assert Match(ITEMS_BODY.next, s[k..], c) == Match(ITEMS_RUN, s[k..], c0);
      if k == |ahead| {
        assert s[k..] == t;
        TermIsNotItems(t, c0);
      } else {
        assert s[k..][0] == ahead[k] && In(Space, ahead[k]);
        NothingIn(ITEMS_RUN, s[k..], c0);
      }
    }
    TryRunFails(ITEMS_BODY, s, c, |ahead|);
  }

  lemma NothingIn(re: Re, s: string, c: Captures)
    requires re.Run? && re.min > 0 && (s == "" || !In(re.cls, s[0]))
    ensures Match(re, s, c).None?
  {
  }

  lemma AreListChars(l: string)
    requires NumeralList(l)
    ensures AllIn(DigitOrComma, l)
  {
  }

  lemma ListTaken(before: string, l: string, ahead: string, term: Option<string>, c: Captures)
    requires Gap(before) && NumeralList(l) && c.open.None?
    requires if term.Some? then Gap(ahead) && Term(term.value) else ahead == ""
    ensures Match(ITEMS_BODY, before + (l + (ahead + term.GetOr(""))), c) == Some(With(With(c, 3, Some(l)), 4, term))
  {
    var c0, c1, rest := Captures(c.groups[3 := ""], Some(3)), With(c, 3, Some(l)), ahead + term.GetOr("");
    ExpiryTailTaken(ahead, term, c1);
    EatIntoGroup(c.groups, 3, l, "");
    assert Match(ITEMS_RUN.next, rest, c0.Eat(l)) == Match(EXPIRY_TAIL, rest, c1);
    AreListChars(l);
    assert rest == "" || (rest[0] == ahead[0] && ahead[0] in ahead);
    RunTakes(ITEMS_RUN, l, rest, c0);
    assert (l + rest)[0] == l[0];
    SpaceTakes(ITEMS_BODY, before, l + rest, c);
  }

  lemma ItemsTailTaken(s: string, before: string, list: Option<string>, ahead: string, term: Option<string>,
                       c: Captures)
    requires TailLays(s, before, list, ahead, term) && c.open.None?
    ensures Match(ITEMS_TAIL, s, c) == Some(With(With(c, 3, list), 4, term))
  {
    if list.Some? {
      ListTaken(before, list.value, ahead, term, c);
      assert s == before + (list.value + (ahead + term.GetOr("")));
      AltFirst(ITEMS_BODY, EXPIRY_TAIL, s, c);
    } else {
      assert s == ahead + term.GetOr("");
      ExpiryTailTaken(ahead, term, c);
      if term.Some? {
        ItemsBodySkipsTerm(ahead, term.value, c);
      } else {
        NoSpaceAhead(ITEMS_BODY, s, c);
      }
      AltSecond(ITEMS_BODY, EXPIRY_TAIL, s, c);
    }
  }

  /** Where the tail starts: at the end, or at a space. */
  lemma TailStops(s: string, before: string, list: Option<string>, ahead: string, term: Option<string>)
    requires TailLays(s, before, list, ahead, term)
    ensures Stops(Digit, s) && Stops(WordRest, s)
  {
    if before != "" {
      assert s[0] == before[0] && before[0] in before;
    } else if ahead != "" {
      assert s == ahead + term.GetOr("") && s[0] == ahead[0] && ahead[0] in ahead;
    } else {
      assert s == "";
    }
  }

  lemma AreDigits(number: string)
    requires Numeral(number)
    ensures AllIn(Digit, number)
  {
  }

  lemma NumberTaken(number: string, tail: string, c: Captures)
    requires Numeral(number) && c.open.None? && Stops(Digit, tail)
    requires Match(ITEMS_TAIL, tail, With(c, 2, Some(number))).Some?
    ensures Match(TARGET, number + tail, c) == Match(ITEMS_TAIL, tail, With(c, 2, Some(number)))
  {
    hide Match;
    var c0 := Captures(c.groups[2 := ""], Some(2));
    EatIntoGroup(c.groups, 2, number, "");
    CloseGroup(ITEMS_TAIL, tail, c.groups[2 := number], 2);
    AreDigits(number);
    RunTakes(NUMBER, number, tail, c0);
    AltFirst(NUMBER, WORD, number + tail, c0);
    OpenGroup(Alt(NUMBER, WORD), number + tail, c.groups, 2);
    AltFirst(Open(2, Alt(NUMBER, WORD)), ITEMS_TAIL, number + tail, c);
  }

  lemma WordRun(word: string, tail: string, c: Captures)
    requires Word(word) && c.open.None? && Stops(WordRest, tail)
    requires Match(ITEMS_TAIL, tail, With(c, 2, Some(word))).Some?
    ensures Match(WORD, word + tail, Captures(c.groups[2 := ""], Some(2))) ==
            Match(ITEMS_TAIL, tail, With(c, 2, Some(word)))
  {
    var c0 := Captures(c.groups[2 := ""], Some(2));
    var head, rest := word[..1], word[1..];
    LetterIs(word[0]);
    IsTail(rest);
    hide Match, WordTail;
    EatIntoGroup(c.groups, 2, head, rest);
    assert head + rest == word && head + (rest + tail) == word + tail;
    CloseGroup(ITEMS_TAIL, tail, c.groups[2 := word], 2);
    RunTakes(WORD.next, rest, tail, c0.Eat(head));
    assert AllIn(WordStart, head);
    RunTakes(WORD, head, rest + tail, c0);
  }

  lemma WordTaken(word: string, tail: string, c: Captures)
    requires Word(word) && c.open.None? && Stops(WordRest, tail)
    requires Match(ITEMS_TAIL, tail, With(c, 2, Some(word))).Some?
    ensures Match(TARGET, word + tail, c) == Match(ITEMS_TAIL, tail, With(c, 2, Some(word)))
  {
    var c0, s := Captures(c.groups[2 := ""], Some(2)), word + tail;
    WordRun(word, tail, c);
    assert s[0] == word[0] && !In(Digit, word[0]);
    OpenGroup(Alt(NUMBER, WORD), s, c.groups, 2);
    hide Match, Word;
    NothingIn(NUMBER, s, c0);
    AltSecond(NUMBER, WORD, s, c0);
    AltFirst(Open(2, Alt(NUMBER, WORD)), ITEMS_TAIL, s, c);
  }

  lemma OpenGroup(next: Re, s: string, groups: map<nat, string>, n: nat)
    ensures Match(Open(n, next), s, Captures(groups, None)) == Match(next, s, Captures(groups[n := ""], Some(n)))
  {
  }

  lemma IsTail(t: string)
    requires WordTail(t)
    ensures AllIn(WordRest, t)
  {
    forall i | 0 <= i < |t| ensures In(WordRest, t[i]) {
      LetterIs(t[i]);
    }
  }

  /** No verb is a prefix of another. */
  lemma VerbsDiffer(a: string, b: string) returns (i: nat)
    requires Lower(a) in VERBS && Lower(b) in VERBS && Lower(a) != Lower(b)
    ensures i < |a| && i < |b| && LowerChar(a[i]) != LowerChar(b[i])
  {
    var v, w := Lower(a), Lower(b);
    i := if v[0] == w[0] then 2 else 0;
  }

  lemma OneVerb(a: string, x: string, b: string, y: string)
    requires Lower(a) in VERBS && Lower(b) in VERBS
    ensures a + x == b + y ==> a == b && x == y
  {
    hide Lower;
    if Lower(a) != Lower(b) {
      var i := VerbsDiffer(a, b);
      assert (a + x)[i] == a[i] && (b + y)[i] == b[i];
    } else {
      assert |a| == |Lower(a)| && |b| == |Lower(b)|;
      assert (a + x)[..|a|] == a && (b + y)[..|b|] == b;
      assert (a + x)[|a|..] == x && (b + y)[|b|..] == y;
    }
  }

  lemma OtherVerbFails(w: string, v: string, after: Re, rest: string, c: Captures)
    requires w in VERBS && Lower(v) in VERBS && Lower(v) != w && Lower(w) == w
    ensures Match(Literal(w, after), v + rest, c).None?
  {
    hide Lower;
    var i := VerbsDiffer(v, w);
    assert (v + rest)[i] == v[i] && LowerChar(w[i]) == Lower(w)[i];
    LiteralFails(Literal(w, after), v + rest, c, i);
  }

  lemma VerbsAreLowerCase(v: string)
    requires v in VERBS
    ensures Lower(v) == v && v != ""
  {
    LowerIs(v, v);
  }

  lemma {:induction false} ChoiceTaken(words: seq<string>, v: string, after: Re, rest: string, c: Captures)
    requires Lower(v) in words && forall w | w in words :: w in VERBS
    requires Match(after, rest, c.Eat(v)).Some?
    ensures Match(AnyOf(words, after), v + rest, c) == Match(after, rest, c.Eat(v))
    decreases |words|
  {
    hide Match, Lower;
    var w := words[0];
    VerbsAreLowerCase(w);
    if w == Lower(v) {
      LiteralTakes(Literal(w, after), v, rest, c);
      if |words| > 1 {
        AltFirst(Literal(w, after), AnyOf(words[1..], after), v + rest, c);
      }
    } else {
      OtherVerbFails(w, v, after, rest, c);
      ChoiceTaken(words[1..], v, after, rest, c);
      AltSecond(Literal(w, after), AnyOf(words[1..], after), v + rest, c);
    }
  }

  /** Trying the verbs in order finds exactly the one the text starts with. */
  lemma VerbTaken(v: string, rest: string)
    requires Lower(v) in VERBS
    requires Match(AFTER_VERB.next, rest, Captures(map[1 := v], None)).Some?
    ensures Match(REPLY, v + rest, NO_CAPTURES) == Match(AFTER_VERB.next, rest, Captures(map[1 := v], None))
  {
    var c0 := Captures(map[1 := ""], Some(1));
    assert map[][1 := ""] == map[1 := ""];
    assert Match(REPLY, v + rest, NO_CAPTURES) == Match(AnyOf(VERBS, AFTER_VERB), v + rest, c0);
    EatIntoGroup(map[], 1, v, "");
    hide Match, Lower;
    CloseGroup(AFTER_VERB.next, rest, map[1 := v], 1);
    ChoiceTaken(VERBS, v, AFTER_VERB, rest, c0);
  }

  lemma AfterVerbTaken(gap: string, t: string, tail: string, p: Parts, c: Captures)
    requires AllSpace(gap) && (Numeral(t) || Word(t)) && p.target == Some(t) && c.open.None?
    requires TailLays(tail, p.before, p.list, p.ahead, p.term)
    ensures Match(AFTER_VERB.next, gap + (t + tail), c) == Some(With(With(With(c, 2, p.target), 3, p.list), 4, p.term))
  {
    ItemsTailTaken(tail, p.before, p.list, p.ahead, p.term, With(c, 2, p.target));
    TailStops(tail, p.before, p.list, p.ahead, p.term);
    assert t != "" && !IsSpace(t[0]) && (t + tail)[0] == t[0];
    hide Match, TailLays, AllSpace, IsSpace, Word;
    if Numeral(t) {
      NumberTaken(t, tail, c);
    } else {
      WordTaken(t, tail, c);
    }
    SpaceTakes(AFTER_VERB.next, gap, t + tail, c);
  }

  /** With a target, the reply is taken apart in no other way. */
  lemma PartsTaken(s: string, p: Parts)
    requires Lays(s, p) && Lower(p.verb) in VERBS && p.target.Some?
    ensures Match(REPLY, s, NO_CAPTURES) == Some(Found(p))
  {
    hide Match, Lower, TailLays, AllSpace, Numeral, Word;
    var tail :| TailLays(tail, p.before, p.list, p.ahead, p.term) && s == p.verb + p.gap + p.target.GetOr("") + tail;
    var t := p.target.value;
    AfterVerbTaken(p.gap, t, tail, p, Captures(map[1 := p.verb], None));
    VerbTaken(p.verb, p.gap + (t + tail));
    assert s == p.verb + (p.gap + (t + tail));
  }

  /** Without one, it is still taken. */
  lemma BareTaken(s: string, p: Parts)
    requires Lays(s, p) && Lower(p.verb) in VERBS && p.target.None?
    ensures Match(REPLY, s, NO_CAPTURES).Some?
  {
    var tail :| TailLays(tail, p.before, p.list, p.ahead, p.term) && s == p.verb + p.gap + "" + tail;
    var c := Captures(map[1 := p.verb], None);
    ItemsTailTaken(tail, p.before, p.list, p.ahead, p.term, c);
    AreSpaces(p.gap);
    hide Match, Lower, TailLays, AllSpace;
    AltAdmits(Open(2, Alt(NUMBER, WORD)), ITEMS_TAIL, tail, c);
    assert c.Eat(p.gap) == c;
    RunAdmits(AFTER_VERB.next, p.gap, tail, c);
    VerbTaken(p.verb, p.gap + tail);
    assert s == p.verb + (p.gap + tail);
  }

  lemma AltAdmits(first: Re, second: Re, s: string, c: Captures)
    requires Match(second, s, c).Some?
    ensures Match(Alt(first, second), s, c).Some?
  {
  }

  lemma NameTaken(word: string)
    requires Name(word)
    ensures Match(NAME, word, Captures(map[1 := ""], Some(1))) == Some(Captures(map[1 := word], None))
  {
    var c0 := Captures(map[1 := ""], Some(1));
    var head, rest := word[..1], word[1..];
    LetterIs(word[0]);
    IsTail(rest);
    EatIntoGroup(map[], 1, head, rest);
    assert head + rest == word && rest + "" == rest;
    RunTakes(NAME.next, rest, "", c0.Eat(head));
    RunTakes(NAME, head, rest, c0);
  }

  /** A longer name that begins with "all" is not taken for "all". */
  lemma OnlyAllIsAll(word: string, c: Captures)
    requires Name(word) && Lower(word) != "all"
    ensures Match(Literal("all", Close(DONE)), word, c).None?
  {
    assert word[..|word|] == word;
    if |word| >= 3 && Lower(word[..3]) == "all" {
      var rest := word[3..];
      assert rest[0] == word[1..][2] && rest != "\n";
      assert Match(DONE, rest, Captures(c.Eat(word[..3]).groups, None)).None?;
    }
  }

  lemma NameChoiceTaken(word: string)
    requires Name(word)
    ensures Match(NAME_CHOICE, word, Captures(map[1 := ""], Some(1))) == Some(Captures(map[1 := word], None))
  {
    var c0 := Captures(map[1 := ""], Some(1));
    var all := Literal("all", Close(DONE));
    assert Match(Close(DONE), "", Captures(map[1 := word], Some(1))) == Some(Captures(map[1 := word], None));
    hide Match, Lower;
    if Lower(word) == "all" {
      EatIntoGroup(map[], 1, word, "");
      assert word + "" == word;
      LiteralTakes(all, word, "", c0);
      AltFirst(all, NAME, word, c0);
    } else {
      OnlyAllIsAll(word, c0);
      NameTaken(word);
      AltSecond(all, NAME, word, c0);
    }
  }

  lemma RevokeTargetTaken(r: string, w: string, word: string)
    requires Lower(r) == "revoke" && Gap(w) && Name(word)
    ensures Match(REVOKE_TARGET, r + (w + word), NO_CAPTURES) == Some(Captures(map[1 := word], None))
  {
    var c0 := Captures(map[1 := ""], Some(1));
    assert map[][1 := ""] == map[1 := ""];
    assert Match(Open(1, NAME_CHOICE), word, NO_CAPTURES) == Match(NAME_CHOICE, word, c0);
    NameChoiceTaken(word);
    assert !IsSpace(word[0]);
    hide Match, Lower, AllSpace, IsSpace, WordTail;
    SpaceTakes(REVOKE_TARGET.next, w, word, NO_CAPTURES);
    LiteralTakes(REVOKE_TARGET, r, w + word, NO_CAPTURES);
  }

  // ------------------------------------------------------- what replies mean

  predicate SaysVerb(p: Parts, verb: string) { SameLetters(p.verb, verb) }

  /** The verb an action is typed with. */
  function Typed(action: Action): string {
    match action case ApproveIt => "approve" case RejectIt => "reject" case RevokeIt => "revoke"
  }

  /** The numbers are those of the list, part by part. */
  predicate ListIs(list: Option<string>, items: Option<seq<nat>>) {
    if list.None? then items.None?
    else
      var parts := Split(list.value, ',');
      items.Some? && |items.value| == |parts| && forall i | 0 <= i < |parts| ::
        Numeral(parts[i]) && AllDigits(parts[i]) && items.value[i] == ParseNat(parts[i]) > 0
  }

  predicate NumberIs(target: Option<string>, id: nat) {
    target.Some? && Numeral(target.value) && AllDigits(target.value) && id == ParseNat(target.value) > 0
  }

  /** "revoke", white space, and a name. */
  ghost predicate RevokesName(s: string, word: string) {
    Name(word) && exists r, w :: SameLetters(r, "revoke") && Gap(w) && s == r + w + word
  }

  predicate LowerCase(name: string) { forall i | 0 <= i < |name| :: !('A' <= name[i] <= 'Z') }

  /** What the stripped text must be for the reply to be what it is. */
  ghost predicate Means(s: string, reply: Reply) {
    match reply
    case Verdict(action, id, items, expiry) =>
      exists p :: Lays(s, p) && SaysVerb(p, Typed(action)) && NumberIs(p.target, id) && ListIs(p.list, items) &&
                  expiry == p.term
    case Undo(id) => exists p :: Lays(s, p) && SaysVerb(p, "undo") && NumberIs(p.target, id)
    case Status => exists p :: Lays(s, p) && SaysVerb(p, "status")
    case Crash =>
      exists p, id :: Lays(s, p) && (SaysVerb(p, "approve") || SaysVerb(p, "reject") || SaysVerb(p, "revoke")) &&
                      NumberIs(p.target, id) && p.list.Some? && "" in Split(p.list.value, ',')
    case RevokeAll => exists word :: RevokesName(s, word) && SameLetters(word, "all")
    case RevokeInstance(name) =>
      exists word :: RevokesName(s, word) && SameLetters(word, name) && LowerCase(name) && name != "all"
    case Unparsed => true
  }

  // ------------------------------------------- a command says what it means

  lemma FoundParts(p: Parts)
    ensures Found(p).Get(1) == Some(p.verb) && Found(p).Get(2) == p.target
    ensures Found(p).Get(3) == p.list && Found(p).Get(4) == p.term
  {
  }

  /** Which verb, in letters of either case. */
  lemma VerbSpelled(v: string)
    requires Lower(v) in VERBS
    ensures Lower(v) == "approve" <==> SameLetters(v, "approve")
    ensures Lower(v) == "reject" <==> SameLetters(v, "reject")
    ensures Lower(v) == "revoke" <==> SameLetters(v, "revoke")
    ensures Lower(v) == "undo" <==> SameLetters(v, "undo")
    ensures Lower(v) == "status" <==> SameLetters(v, "status")
    ensures Lower(v) in ["approve", "reject", "revoke", "undo", "status"]
  {
    hide Lower, SameLetters;
    LowerIs(v, "approve");
    LowerIs(v, "reject");
    LowerIs(v, "revoke");
    LowerIs(v, "undo");
    LowerIs(v, "status");
  }

  lemma NumeralDigits(t: string)
    ensures Numeral(t) <==> t != "" && AllDigits(t)
  {
  }

  lemma {:induction false} ParseNatsEach(parts: seq<string>)
    requires Numerals(parts)
    ensures |ParseNats(parts)| == |parts|
    ensures forall i | 0 <= i < |parts| :: AllDigits(parts[i]) && ParseNats(parts)[i] == ParseNat(parts[i])
  {
    if parts != [] {
      assert forall p | p in parts[1..] :: p in parts;
      ParseNatsEach(parts[1..]);
      assert parts[0] in parts;
      forall i | 0 <= i < |parts| ensures AllDigits(parts[i]) && ParseNats(parts)[i] == ParseNat(parts[i]) {
        assert parts[i] in parts;
        if i > 0 {
          assert parts[i] == parts[1..][i - 1];
        }
      }
    }
  }

  lemma ItemsListed(list: Option<string>)
    requires ParseItems(list).Ok? && (ParseItems(list).value.Some? ==> 0 !in ParseItems(list).value.value)
    ensures ListIs(list, ParseItems(list).value)
  {
    if list.Some? {
      var parts := Split(list.value, ',');
      ParseNatsEach(parts);
      forall i | 0 <= i < |parts| ensures Numeral(parts[i]) && ParseNats(parts)[i] > 0 {
        assert parts[i] in parts;
        NumeralDigits(parts[i]);
        assert ParseNats(parts)[i] in ParseNats(parts);
      }
    }
  }

  /** A list that cannot be read has an empty part. */
  lemma GapInList(list: Option<string>)
    requires list.Some? ==> NumeralList(list.value)
    requires ParseItems(list).Err?
    ensures list.Some? && "" in Split(list.value, ',')
  {
    var parts := Split(list.value, ',');
    var bad :| bad in parts && !(bad != "" && AllDigits(bad));
    if bad != "" {
      GoodPart(list.value, bad);
    }
  }

  lemma GoodPart(list: string, part: string)
    requires NumeralList(list) && part in Split(list, ',')
    ensures AllDigits(part)
  {
    PartChars(list, ',', part);
    SplitPartsWithout(list, ',');
    assert Lacks(part, ',');
    forall i | 0 <= i < |part| ensures IsDigit(part[i]) {
      assert part[i] in part && part[i] in list;
      var k :| 0 <= k < |list| && list[k] == part[i];
    }
  }

  lemma {:induction false} PartChars(s: string, sep: char, p: string)
    requires p in Split(s, sep)
    ensures forall c | c in p :: c in s
    decreases |s|
  {
    if s != "" {
      var rest := Split(s[1..], sep);
      var all := Split(s, sep);
      if p in rest[1..] {
        assert p in rest;
        PartChars(s[1..], sep, p);
      } else if s[0] == sep && p == rest[0] {
        PartChars(s[1..], sep, p);
      } else if s[0] != sep && p == all[0] {
        assert rest[0] in rest;
        PartChars(s[1..], sep, rest[0]);
      }
    }
  }

  lemma TargetIs(s: string, word: string)
    requires Match(REVOKE_TARGET, s, NO_CAPTURES) == Some(Captures(map[1 := word], None))
    ensures ParseTarget(s) == if Lower(word) == "all" then RevokeAll else RevokeInstance(Lower(word))
  {
    hide Match, Lower;
  }

  /** p is how the first pattern took the text apart. */
  lemma TargetMeans(s: string, p: Parts)
    requires Firm(s) && Lays(s, p) && Lower(p.verb) == "revoke" && p.target.Some? && !Numeral(p.target.value)
    ensures Means(s, ParseTarget(s))
  {
    if Match(REVOKE_TARGET, s, NO_CAPTURES).Some? {
      var r, w, word := TargetWord(s);
      hide Match, ParseTarget;
      TargetIs(s, word);
      LowerIs(r, "revoke");
      LowerIs(word, "all");
      NameSpelled(word);
      StartsAlike(s, p, r, w, word);
      assert RevokesName(s, word);
    }
  }

  /** The word the second pattern finds is where the first pattern found one. */
  lemma StartsAlike(s: string, p: Parts, r: string, w: string, word: string)
    requires Lays(s, p) && Lower(p.verb) == "revoke" && p.target.Some? && !Numeral(p.target.value)
    requires Lower(r) == "revoke" && Gap(w) && NameLike(word) && s == r + w + word
    ensures Name(word)
  {
    hide Lower, TailLays;
    var tail :| TailLays(tail, p.before, p.list, p.ahead, p.term) && s == p.verb + p.gap + p.target.GetOr("") + tail;
    var t := p.target.value;
    assert s == p.verb + (p.gap + (t + tail)) == r + (w + word);
    assert "revoke" in VERBS;
    OneVerb(p.verb, p.gap + (t + tail), r, w + word);
    assert !IsSpace(t[0]) && !IsSpace(word[0]);
    OneGap(p.gap, t + tail, w, word);
    assert (t + tail)[0] == t[0] == word[0];
  }

  /** The first character that is no space is in one place. */
  lemma OneGap(v: string, x: string, w: string, y: string)
    requires AllSpace(v) && AllSpace(w) && x != "" && y != "" && !IsSpace(x[0]) && !IsSpace(y[0])
    ensures v + x == w + y ==> v == w && x == y
  {
    var a, b := v + x, w + y;
    assert a[|v|] == x[0] && b[|w|] == y[0];
    assert forall i | 0 <= i < |v| :: a[i] == v[i] && v[i] in v;
    assert forall i | 0 <= i < |w| :: b[i] == w[i] && w[i] in w;
    assert a[..|v|] == v && a[|v|..] == x && b[..|w|] == w && b[|w|..] == y;
  }

  lemma NameSpelled(word: string)
    ensures SameLetters(word, Lower(word)) && LowerCase(Lower(word))
  {
    LowerIs(word, Lower(word));
  }

  lemma TargetWord(s: string) returns (r: string, w: string, word: string)
    requires Firm(s) && Match(REVOKE_TARGET, s, NO_CAPTURES).Some?
    ensures Lower(r) == "revoke" && Gap(w) && s == r + w + word && NameLike(word)
    ensures Match(REVOKE_TARGET, s, NO_CAPTURES) == Some(Captures(map[1 := word], None))
  {
    hide Match, Lower;
    LiteralConsumes(REVOKE_TARGET, s, NO_CAPTURES);
    var rest := s[6..];
    FirmRest(s, 6);
    var j := RunConsumes(REVOKE_TARGET.next, rest, NO_CAPTURES);
    SpacesIn(rest[..j]);
    FirmRest(rest, j);
    word := rest[j..];
    r, w := s[..6], rest[..j];
    WordOrAll(word);
    assert s == r + w + word;
  }

  lemma WordOrAll(s: string)
    requires Firm(s) && Match(Open(1, NAME_CHOICE), s, NO_CAPTURES).Some?
    ensures NameLike(s)
    ensures Match(Open(1, NAME_CHOICE), s, NO_CAPTURES) == Some(Captures(map[1 := s], None))
  {
    var c0 := Captures(map[1 := ""], Some(1));
    assert map[][1 := ""] == map[1 := ""];
    assert Match(Open(1, NAME_CHOICE), s, NO_CAPTURES) == Match(NAME_CHOICE, s, c0);
    hide Match, Lower;
    var all := Literal("all", Close(DONE));
    AltConsumes(all, NAME, s, c0);
    if Match(all, s, c0).Some? {
      LiteralConsumes(all, s, c0);
      EatIntoGroup(map[], 1, s[..3], "");
      FirmRest(s, 3);
      CloseThenDone(s[3..], map[1 := s[..3]], 1);
      assert s[..3] == s;
    } else {
      NameConsumes(s, c0);
    }
  }

  lemma NameConsumes(s: string, c0: Captures)
    requires Firm(s) && c0 == Captures(map[1 := ""], Some(1)) && Match(NAME, s, c0).Some?
    ensures NameLike(s) && Match(NAME, s, c0) == Some(Captures(map[1 := s], None))
  {
    hide Match, Lower;
    var i := RunConsumes(NAME, s, c0);
    assert i == 1;
    var head, rest := s[..1], s[1..];
    FirmRest(s, 1);
    var j := RunConsumes(NAME.next, rest, c0.Eat(head));
    EatIntoGroup(map[], 1, head, rest[..j]);
    FirmRest(rest, j);
    CloseThenDone(rest[j..], map[1 := head + rest[..j]], 1);
    assert rest[..j] == rest && head + rest == s;
    assert In(NameStart, head[0]);
    LetterIs(head[0]);
    TailIs(rest);
  }

  lemma StrippedFirm(text: string)
    ensures Firm(Strip(text))
  {
    StripTrims(text);
  }

  /** What a matched reply is taken for, by its parts. */
  lemma PartsMean(s: string, p: Parts, text: string)
    requires s == Strip(text) && Lays(s, p) && Lower(p.verb) in VERBS
    requires Match(REPLY, s, NO_CAPTURES) == Some(Found(p))
    ensures Means(s, ParseReply(text))
  {
    hide Match, Lower, SameLetters, Lays, Split;
    StrippedFirm(text);
    FoundParts(p);
    VerbSpelled(p.verb);
    var verb := Lower(p.verb);
    if verb == "status" || p.target.None? {
    } else {
      NumeralDigits(p.target.value);
      if !Numeral(p.target.value) {
        if verb == "revoke" {
          TargetMeans(s, p);
        }
      } else {
        NumberedMean(s, p, text);
      }
    }
  }

  /** What the parts of a matched reply are made into. */
  function Numbered(verb: string, id: nat, list: Option<string>, term: Option<string>): Reply {
    if id == 0 then Unparsed
    else if verb == "undo" then Undo(id)
    else
      match ParseItems(list)
      case Err(_) => Crash
      case Ok(items) =>
        if items.Some? && 0 in items.value then Unparsed else Verdict(ActionOf(verb), id, items, term)
  }

  lemma ReplyOfParts(text: string, p: Parts)
    requires Match(REPLY, Strip(text), NO_CAPTURES) == Some(Found(p))
    requires Lower(p.verb) != "status" && p.target.Some? && p.target.value != ""
    ensures ParseReply(text) ==
            if AllDigits(p.target.value) then Numbered(Lower(p.verb), ParseNat(p.target.value), p.list, p.term)
            else if Lower(p.verb) == "revoke" then ParseTarget(Strip(text)) else Unparsed
  {
    hide Match, Strip, Lower, ParseItems, ParseNat, ParseTarget, AllDigits;
    FoundParts(p);
  }

  lemma NumberedMean(s: string, p: Parts, text: string)
    requires s == Strip(text) && Lays(s, p) && Lower(p.verb) in VERBS && Lower(p.verb) != "status"
    requires Match(REPLY, s, NO_CAPTURES) == Some(Found(p))
    requires p.target.Some? && Numeral(p.target.value)
    ensures Means(s, ParseReply(text))
  {
    hide Match, Lower, SameLetters, Split, ParseReply, ListIs;
    VerbSpelled(p.verb);
    NumeralDigits(p.target.value);
    ReplyOfParts(text, p);
    ListOfLays(s, p);
    hide Numeral, Lays, NumeralList, ParseItems;
    var id, r := ParseNat(p.target.value), ParseReply(text);
    if id > 0 && Lower(p.verb) != "undo" {
      assert NumberIs(p.target, id);
      match ParseItems(p.list)
      case Err(_) =>
        GapInList(p.list);
        assert r == Crash && (SaysVerb(p, "approve") || SaysVerb(p, "reject") || SaysVerb(p, "revoke"));
      case Ok(items) =>
        if !(items.Some? && 0 in items.value) {
          ItemsListed(p.list);
          assert r == Verdict(ActionOf(Lower(p.verb)), id, items, p.term) && SaysVerb(p, Typed(r.action));
        }
    }
  }

  lemma ListOfLays(s: string, p: Parts)
    requires Lays(s, p)
    ensures p.list.Some? ==> NumeralList(p.list.value)
  {
  }

  lemma ReplyMeans(text: string)
    ensures Means(Strip(text), ParseReply(text))
  {
    hide Match, Lower, Lays;
    StrippedFirm(text);
    if Match(REPLY, Strip(text), NO_CAPTURES).Some? {
      var p := ReplyConsumes(Strip(text));
      PartsMean(Strip(text), p, text);
    }
  }

  // ---------------------------------- and whatever means a command is taken for it

  /** A list of numbers is read as those numbers. */
  lemma ListRead(list: Option<string>, items: Option<seq<nat>>)
    requires ListIs(list, items)
    ensures ParseItems(list) == Ok(items) && (items.Some? ==> 0 !in items.value)
  {
    if list.Some? {
      var parts := Split(list.value, ',');
      forall part | part in parts ensures part != "" && AllDigits(part) {
        var i :| 0 <= i < |parts| && parts[i] == part;
        assert Numeral(parts[i]);
      }
      ParseNatsEach(parts);
      assert ParseNats(parts) == items.value;
    }
  }

  lemma NumberedRead(text: string, p: Parts, id: nat)
    requires Lays(Strip(text), p) && Lower(p.verb) in VERBS && Lower(p.verb) != "status" && NumberIs(p.target, id)
    ensures id > 0 && ParseReply(text) == Numbered(Lower(p.verb), id, p.list, p.term)
  {
    hide Match, Strip, Lower, Numbered, ParseReply, ParseNat, Lays;
    PartsTaken(Strip(text), p);
    ReplyOfParts(text, p);
  }

  lemma LaidVerb(s: string, p: Parts) returns (rest: string)
    requires Lays(s, p)
    ensures s == p.verb + rest
  {
    hide TailLays, AllSpace, Numeral, Word;
    var tail :| TailLays(tail, p.before, p.list, p.ahead, p.term) && s == p.verb + p.gap + p.target.GetOr("") + tail;
    rest := p.gap + p.target.GetOr("") + tail;
    assert s == p.verb + rest;
  }

  lemma StatusRead(text: string, p: Parts)
    requires Lays(Strip(text), p) && Lower(p.verb) == "status"
    ensures ParseReply(text) == Status
  {
    var s := Strip(text);
    StrippedFirm(text);
    assert "status" in VERBS;
    hide Match, Strip, Lower, ParseItems, ParseNat, Lays;
    if p.target.Some? {
      PartsTaken(s, p);
    } else {
      BareTaken(s, p);
    }
    var q := ReplyConsumes(s);
    FoundParts(q);
    var x := LaidVerb(s, p);
    var y := LaidVerb(s, q);
    OneVerb(p.verb, x, q.verb, y);
  }

  lemma NameLays(r: string, w: string, word: string) returns (p: Parts)
    requires AllSpace(w) && Name(word)
    ensures Lays(r + w + word, p) && p.verb == r && p.target == Some(word)
  {
    p := Parts(r, w, Some(word), "", None, "", None);
    hide WordTail, AllSpace;
    assert TailLays("", "", None, "", None) && r + w + word == r + w + word + "";
  }

  lemma NamesAreNoNumbers(word: string)
    ensures Name(word) ==> word != "" && !AllDigits(word)
  {
    if Name(word) {
      assert !IsDigit(word[0]);
    }
  }

  lemma NameSaid(text: string, r: string, w: string, word: string)
    requires Lower(r) == "revoke" && Gap(w) && Name(word) && Strip(text) == r + w + word
    ensures ParseReply(text) == if Lower(word) == "all" then RevokeAll else RevokeInstance(Lower(word))
  {
    hide Match, Strip, Lower, ParseReply, ParseTarget, Numbered, Lays, AllDigits, Name, AllSpace;
    assert "revoke" in VERBS && "revoke" != "status";
    NamesAreNoNumbers(word);
    var p := NameLays(r, w, word);
    PartsTaken(Strip(text), p);
    ReplyOfParts(text, p);
    RevokeTargetTaken(r, w, word);
    assert Strip(text) == r + (w + word);
    TargetIs(Strip(text), word);
  }

  lemma NameRead(text: string, word: string)
    requires RevokesName(Strip(text), word)
    ensures ParseReply(text) == if Lower(word) == "all" then RevokeAll else RevokeInstance(Lower(word))
  {
    hide Strip, Lower, ParseReply, Gap, Name, SameLetters;
    var r, w :| SameLetters(r, "revoke") && Gap(w) && Strip(text) == r + w + word;
    LowerIs(r, "revoke");
    NameSaid(text, r, w, word);
  }

  lemma VerdictRead(text: string, action: Action, id: nat, items: Option<seq<nat>>, expiry: Option<string>)
    requires Means(Strip(text), Verdict(action, id, items, expiry))
    ensures ParseReply(text) == Verdict(action, id, items, expiry)
  {
    hide Strip, Lays, ListIs, NumberIs, ParseReply, ParseItems, SameLetters, Lower;
    var p :| Lays(Strip(text), p) && SaysVerb(p, Typed(action)) && NumberIs(p.target, id) && ListIs(p.list, items) &&
             expiry == p.term;
    LowerIs(p.verb, Typed(action));
    NumberedRead(text, p, id);
    ListRead(p.list, items);
  }

  lemma UndoRead(text: string, id: nat)
    requires Means(Strip(text), Undo(id))
    ensures ParseReply(text) == Undo(id)
  {
    hide Strip, Lays, NumberIs, ParseReply, ParseItems, SameLetters, Lower;
    var p :| Lays(Strip(text), p) && SaysVerb(p, "undo") && NumberIs(p.target, id);
    LowerIs(p.verb, "undo");
    NumberedRead(text, p, id);
  }

  lemma CrashRead(text: string)
    requires Means(Strip(text), Crash)
    ensures ParseReply(text) == Crash
  {
    hide Strip, Lays, NumberIs, ParseReply, ParseNats, SameLetters, Lower, AllDigits;
    var p, id :| Lays(Strip(text), p) && (SaysVerb(p, "approve") || SaysVerb(p, "reject") || SaysVerb(p, "revoke")) &&
                 NumberIs(p.target, id) && p.list.Some? && "" in Split(p.list.value, ',');
    LowerIs(p.verb, "approve");
    LowerIs(p.verb, "reject");
    LowerIs(p.verb, "revoke");
    NumberedRead(text, p, id);
  }

  lemma SayRead(text: string, reply: Reply)
    requires Means(Strip(text), reply) && reply != Unparsed
    ensures ParseReply(text) == reply
  {
    hide Strip, ParseReply, Lower, SameLetters, Lays, RevokesName;
    var s := Strip(text);
    match reply {
      case Verdict(action, id, items, expiry) => VerdictRead(text, action, id, items, expiry);
      case Undo(id) => UndoRead(text, id);
      case Status =>
        var p :| Lays(s, p) && SaysVerb(p, "status");
        LowerIs(p.verb, "status");
        StatusRead(text, p);
      case Crash => CrashRead(text);
      case RevokeAll =>
        var word :| RevokesName(s, word) && SameLetters(word, "all");
        LowerIs(word, "all");
        NameRead(text, word);
      case RevokeInstance(name) =>
        var word :| RevokesName(s, word) && SameLetters(word, name) && LowerCase(name) && name != "all";
        LowerIs(word, name);
        NameRead(text, word);
    }
  }

  /** The theorem: a typed reply is a command exactly if its text, up to white space around
      it, is laid out as one. Every other text is no command at all. */
  lemma ReplyExactly(text: string, reply: Reply)
    requires reply != Unparsed
    ensures ParseReply(text) == reply <==> exists s :: Stripped(text, s) && Means(s, reply)
  {
    StripExactly(text, Strip(text));
    ReplyMeans(text);
    hide Strip, ParseReply, Means;
    if s :| Stripped(text, s) && Means(s, reply) {
      StripExactly(text, s);
      SayRead(text, reply);
    }
  }

  // ------------------------------------------------- printing and reading back

  function Spaced(part: Option<string>): string {
    if part.Some? then " " + part.value else ""
  }

  function PrintNats(ns: seq<nat>): (parts: seq<string>)
    ensures |parts| == |ns| && Numerals(parts)
  {
    if ns == [] then [] else [PrintNat(ns[0])] + PrintNats(ns[1..])
  }

  function PrintItems(ns: seq<nat>): string { Join(PrintNats(ns), ',') }

  lemma {:induction false} ParsePrintNats(ns: seq<nat>)
    ensures ParseNats(PrintNats(ns)) == ns
  {
    if ns != [] {
      ParsePrintNat(ns[0]);
      ParsePrintNats(ns[1..]);
      assert PrintNats(ns)[1..] == PrintNats(ns[1..]);
    }
  }

  lemma {:induction false} JoinedNumerals(parts: seq<string>)
    requires parts != [] && Numerals(parts)
    ensures NumeralList(Join(parts, ','))
    decreases |parts|
  {
    assert parts[0] in parts;
    if |parts| > 1 {
      assert forall p | p in parts[1..] :: p in parts;
      JoinedNumerals(parts[1..]);
      var head, tail := parts[0], Join(parts[1..], ',');
      var whole := head + [','] + tail;
      forall i | 0 <= i < |whole| ensures '0' <= whole[i] <= '9' || whole[i] == ',' {
        if i > |head| {
          assert whole[i] == tail[i - |head| - 1];
        }
      }
    }
  }

  lemma PrintedPartsLackCommas(ns: seq<nat>)
    ensures forall part | part in PrintNats(ns) :: Lacks(part, ',')
  {
    forall part | part in PrintNats(ns) ensures Lacks(part, ',') {
      assert part != "" && AllDigits(part);
    }
  }

  lemma ItemsRoundTrip(ns: seq<nat>)
    requires ns != [] && 0 !in ns
    ensures NumeralList(PrintItems(ns)) && ListIs(Some(PrintItems(ns)), Some(ns))
  {
    var parts := PrintNats(ns);
    JoinedNumerals(parts);
    ParsePrintNats(ns);
    ParseNatsEach(parts);
    hide Numeral, AllDigits, ParseNat, ParseNats, PrintNats, Split, Join, NumeralList;
    PrintedPartsLackCommas(ns);
    SplitJoin(parts, ',');
    forall i | 0 <= i < |parts| ensures Numeral(parts[i]) && AllDigits(parts[i]) && ns[i] == ParseNat(parts[i]) > 0 {
      assert parts[i] in parts && ns[i] in ns;
      NumeralDigits(parts[i]);
    }
  }

  /** The list parser raises exactly when a comma has nothing on one side of it. */
  lemma ItemsCrashIffGap(l: string)
    requires NumeralList(l)
    ensures ParseItems(Some(l)).Err? <==> "" in Split(l, ',')
  {
    if ParseItems(Some(l)).Err? {
      GapInList(Some(l));
    }
  }

  function ItemsText(items: Option<seq<nat>>): Option<string> {
    if items.Some? then Some(PrintItems(items.value)) else None
  }

  /** "verb id [items] [expiry]", with single spaces. */
  function Print(verb: string, id: nat, items: Option<seq<nat>>, expiry: Option<string>): string {
    verb + " " + PrintNat(id) + Spaced(ItemsText(items)) + Spaced(expiry)
  }

  lemma SpacedLays(list: Option<string>, term: Option<string>) returns (before: string, ahead: string)
    requires (list.Some? ==> NumeralList(list.value)) && (term.Some? ==> Term(term.value))
    ensures TailLays(Spaced(list) + Spaced(term), before, list, ahead, term)
  {
    before, ahead := if list.Some? then " " else "", if term.Some? then " " else "";
    hide NumeralList, Term;
    assert Gap(" ");
    hide Gap;
    assert Spaced(list) == before + list.GetOr("") && Spaced(term) == ahead + term.GetOr("");
    assert Spaced(list) + Spaced(term) == before + list.GetOr("") + ahead + term.GetOr("");
  }

  lemma PrintedLays(verb: string, id: nat, items: Option<seq<nat>>, expiry: Option<string>) returns (p: Parts)
    requires Lower(verb) in VERBS && id > 0 && (items.Some? ==> items.value != [] && 0 !in items.value)
    requires expiry.Some? ==> Term(expiry.value)
    ensures Lays(Print(verb, id, items, expiry), p) && p.verb == verb && NumberIs(p.target, id)
    ensures ListIs(p.list, items) && p.term == expiry
  {
    hide Numeral, NumeralList, Term, Lower, Split, ListIs, TailLays, AllDigits, PrintNat, PrintItems, ParseNat, AllSpace;
    var l, number := ItemsText(items), PrintNat(id);
    if items.Some? {
      ItemsRoundTrip(items.value);
    }
    NumeralDigits(number);
    ParsePrintNat(id);
    NoList(l);
    var before, ahead := SpacedLays(l, expiry);
    p := Parts(verb, " ", Some(number), before, l, ahead, expiry);
    OneSpace();
    assert Print(verb, id, items, expiry) == verb + " " + number + (Spaced(l) + Spaced(expiry));
  }

  lemma OneSpace()
    ensures AllSpace(" ")
  {
  }

  lemma NoList(list: Option<string>)
    ensures list.None? ==> ListIs(list, None)
  {
  }

  lemma {:induction false} PrintedTrimmed(text: string, p: Parts)
    requires Lays(text, p) && Lower(p.verb) in VERBS && p.target.Some?
    ensures Trimmed(text)
  {
    var tail :| TailLays(tail, p.before, p.list, p.ahead, p.term) && text == p.verb + p.gap + p.target.GetOr("") + tail;
    assert text[0] == p.verb[0] && LowerChar(text[0]) == Lower(p.verb)[0];
    var t, last := p.target.value, text[|text| - 1];
    if p.term.Some? {
      assert last == p.term.value[|p.term.value| - 1];
    } else if p.list.Some? {
      assert last == p.list.value[|p.list.value| - 1];
    } else {
      assert tail == "" && last == t[|t| - 1];
      assert |t| > 1 ==> t[|t| - 1] == t[1..][|t| - 2];
    }
  }

  lemma PrintedStays(verb: string, id: nat, items: Option<seq<nat>>, expiry: Option<string>) returns (p: Parts)
    requires verb in VERBS && id > 0 && (items.Some? ==> items.value != [] && 0 !in items.value)
    requires expiry.Some? ==> Term(expiry.value)
    ensures var text := Print(verb, id, items, expiry);
            Strip(text) == text && Lays(text, p) && p.verb == verb && NumberIs(p.target, id)
    ensures ListIs(p.list, items) && p.term == expiry
  {
    hide Strip, Lays, ListIs, Print, Lower, Term, NumberIs;
    VerbsAreLowerCase(verb);
    p := PrintedLays(verb, id, items, expiry);
    NumbersAreThere(p.target, id);
    PrintedTrimmed(Print(verb, id, items, expiry), p);
    StripOfTrimmed(Print(verb, id, items, expiry));
  }

  lemma NumbersAreThere(target: Option<string>, id: nat)
    ensures NumberIs(target, id) ==> target.Some?
  {
  }

  /** approve, reject and revoke with an id, optional items and optional expiry. */
  lemma VerdictRoundTrip(action: Action, id: nat, items: Option<seq<nat>>, expiry: Option<string>)
    requires id > 0 && (items.Some? ==> items.value != [] && 0 !in items.value)
    requires expiry.Some? ==> Term(expiry.value)
    ensures ParseReply(Print(Typed(action), id, items, expiry)) == Verdict(action, id, items, expiry)
  {
    hide Strip, Lays, ListIs, NumberIs, ParseReply, Print, Term, Lower, SameLetters;
    var verb := Typed(action);
    assert verb in VERBS;
    var p := PrintedStays(verb, id, items, expiry);
    VerbsAreLowerCase(verb);
    LowerIs(verb, verb);
    SayRead(Print(verb, id, items, expiry), Verdict(action, id, items, expiry));
  }

  lemma UndoRoundTrip(id: nat)
    requires id > 0
    ensures ParseReply(Print("undo", id, None, None)) == Undo(id)
  {
    hide Strip, Lays, ListIs, NumberIs, ParseReply, Print, Term, Lower, SameLetters;
    assert "undo" in VERBS;
    var p := PrintedStays("undo", id, None, None);
    VerbsAreLowerCase("undo");
    LowerIs("undo", "undo");
    SayRead(Print("undo", id, None, None), Undo(id));
  }

  lemma StatusRoundTrip()
    ensures ParseReply("status") == Status
  {
    StripOfTrimmed("status");
    var p := Parts("status", "", None, "", None, "", None);
    assert TailLays("", "", None, "", None) && Lays("status", p) by { assert "status" == "status" + "" + "" + ""; }
    VerbsAreLowerCase("status");
    StatusRead("status", p);
  }

  lemma NameTrimmed(name: string)
    requires Name(name)
    ensures Strip("revoke " + name) == "revoke " + name
  {
    var text := "revoke " + name;
    assert text[0] == 'r' && text[|text| - 1] == name[|name| - 1];
    assert |name| > 1 ==> name[|name| - 1] == name[1..][|name| - 2];
    StripOfTrimmed(text);
  }

  /** Mass revocation by instance name, and "all" itself. */
  lemma RevokeTargetRoundTrip(name: string)
    requires Name(name) && LowerCase(name)
    ensures ParseReply("revoke " + name) == if name == "all" then RevokeAll else RevokeInstance(name)
  {
    var text, w := "revoke " + name, " ";
    NameTrimmed(name);
    assert Gap(w) && text == "revoke" + w + name;
    hide Strip, ParseReply, Lower, Name, Gap;
    assert SameLetters("revoke", "revoke");
    assert RevokesName(text, name);
    NameRead(text, name);
    LowerIs(name, name);
  }

  /** Which instances can be revoked by name at all. */
  lemma RevocableNames(name: string)
    ensures (exists text :: ParseReply(text) == RevokeInstance(name)) <==>
            Name(name) && LowerCase(name) && name != "all"
  {
    if Name(name) && LowerCase(name) && name != "all" {
      RevokeTargetRoundTrip(name);
    }
    hide Strip, ParseReply, LowerCase;
    if text :| ParseReply(text) == RevokeInstance(name) {
      ReplyMeans(text);
      var word :| RevokesName(Strip(text), word) && SameLetters(word, name) && LowerCase(name) && name != "all";
      SameKind(word, name);
    }
  }

  lemma SameKind(word: string, name: string)
    requires Name(word) && SameLetters(word, name)
    ensures Name(name)
  {
    var w, n := word[1..], name[1..];
    forall i | 0 <= i < |n| ensures Letter(n[i]) || '0' <= n[i] <= '9' || n[i] == '_' || n[i] == '-' {
      assert w[i] == word[i + 1] && n[i] == name[i + 1];
      assert Letter(w[i]) || '0' <= w[i] <= '9' || w[i] == '_' || w[i] == '-';
    }
  }
}
