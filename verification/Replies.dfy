/** The approver's typed replies and the expiry strings: grammar, parsing, printing. */
module Replies {
  import opened Wrappers
  import opened Texts
  import opened Regex
  import opened Clocks

  // ------------------------------------------------------------ the patterns

  const DONE: Re := AtEnd(Accept)

  /** (?:\s+(\d{1,3}[hmd]))?$ */
  const EXPIRY_BODY: Re := Run(Space, 1, None, Open(4, Run(Digit, 1, Some(3), Run(Unit, 1, Some(1), Close(DONE)))))
  const EXPIRY_TAIL: Re := Alt(EXPIRY_BODY, DONE)

  /** (?:\s+([\d,]+))? */
  const ITEMS_RUN: Re := Run(DigitOrComma, 1, None, Close(EXPIRY_TAIL))
  const ITEMS_BODY: Re := Run(Space, 1, None, Open(3, ITEMS_RUN))
  const ITEMS_TAIL: Re := Alt(ITEMS_BODY, EXPIRY_TAIL)

  /** (\d+|[a-z_][a-z0-9_-]*)? */
  const NUMBER: Re := Run(Digit, 1, None, Close(ITEMS_TAIL))
  const WORD: Re := Run(WordStart, 1, Some(1), Run(WordRest, 0, None, Close(ITEMS_TAIL)))
  const TARGET: Re := Alt(Open(2, Alt(NUMBER, WORD)), ITEMS_TAIL)

  const AFTER_VERB: Re := Close(Run(Space, 0, None, TARGET))

  const VERBS: seq<string> := ["approve", "reject", "revoke", "undo", "status"]

  /** An ordered choice between words. */
  function AnyOf(words: seq<string>, next: Re): Re {
    if words == [] then Literal("", next)
    else if |words| == 1 then Literal(words[0], next)
    else Alt(Literal(words[0], next), AnyOf(words[1..], next))
  }

  const REPLY: Re := Open(1, AnyOf(VERBS, AFTER_VERB))

  /** ^revoke\s+(all|([a-z0-9][a-z0-9_-]*))$ */
  const NAME: Re := Run(NameStart, 1, Some(1), Run(WordRest, 0, None, Close(DONE)))
  const NAME_CHOICE: Re := Alt(Literal("all", Close(DONE)), NAME)
  const REVOKE_TARGET: Re :=
    Literal("revoke", Run(Space, 1, None, Open(1, NAME_CHOICE)))

  /** ^(\d{1,3})(h|m|d)$ */
  const UNIT_RUN: Re := Run(LowerUnit, 1, Some(1), Close(DONE))
  const EXPIRY: Re :=
    Open(1, Run(Digit, 1, Some(3), Close(Open(2, UNIT_RUN))))

  // ---------------------------------------------------------------- numbers

  function DigitValue(c: char): nat
    requires IsDigit(c)
  {
    c as int - '0' as int
  }

  predicate AllDigits(s: string) { forall i | 0 <= i < |s| :: IsDigit(s[i]) }

  /** int(s) on a digit string. */
  function ParseNat(s: string): nat
    requires AllDigits(s)
  {
    if s == "" then 0 else 10 * ParseNat(s[..|s| - 1]) + DigitValue(s[|s| - 1])
  }

  function PrintNat(n: nat): (s: string)
    ensures s != "" && AllDigits(s)
  {
    if n < 10 then [('0' as int + n) as char] else PrintNat(n / 10) + [('0' as int + n % 10) as char]
  }

  lemma {:induction false} ParsePrintNat(n: nat)
    ensures ParseNat(PrintNat(n)) == n
  {
    if n < 10 {
      assert PrintNat(n)[..0] == "";
    } else {
      ParsePrintNat(n / 10);
      assert PrintNat(n)[..|PrintNat(n)| - 1] == PrintNat(n / 10);
    }
  }

  // ------------------------------------------------------------- parse_expiry

  const UNIT_SECONDS: map<char, nat> := map['h' := 3600, 'm' := 60, 'd' := 86400]

  /** parse_expiry: no text means the default, anything malformed or zero is refused. */
  function ParseExpiry(text: Option<string>): (r: Result<Option<Time>, ()>)
    ensures r.Ok? && r.value.Some? ==> 60 * SECOND <= r.value.value <= 86_313_600 * SECOND
    ensures text.None? <==> r == Ok(None)
  {
    if text.None? then Ok(None)
    else
      var m := Match(EXPIRY, Strip(text.value), NO_CAPTURES);
      if m.None? then Err(())
      else
        var digits, unit := m.value.Get(1), m.value.Get(2);
        if digits.None? || unit.None? || !AllDigits(digits.value) || |digits.value| > 3 ||
           |unit.value| != 1 || unit.value[0] !in UNIT_SECONDS || ParseNat(digits.value) == 0 then Err(())
        else
          ParseNatBound(digits.value);
          Ok(Some(ParseNat(digits.value) * UNIT_SECONDS[unit.value[0]] * SECOND))
  }

  lemma {:induction false} ParseNatBound(s: string)
    requires AllDigits(s) && |s| <= 3
    ensures ParseNat(s) <= 999
    ensures |s| <= 2 ==> ParseNat(s) <= 99
    ensures |s| <= 1 ==> ParseNat(s) <= 9
  {
    if s != "" {
      ParseNatBound(s[..|s| - 1]);
    }
  }

  // -------------------------------------------------------------- parse_reply

  datatype Action = ApproveIt | RejectIt | RevokeIt

  datatype Reply =
    | Unparsed
    | Crash                                  // int("") raises
    | Status
    | RevokeAll
    | RevokeInstance(name: string)
    | Undo(id: nat)
    | Verdict(action: Action, id: nat, items: Option<seq<nat>>, expiry: Option<string>)

  function ActionOf(verb: string): Action {
    if verb == "approve" then ApproveIt else if verb == "reject" then RejectIt else RevokeIt
  }

  predicate Numerals(parts: seq<string>) { forall p | p in parts :: p != "" && AllDigits(p) }

  function ParseNats(parts: seq<string>): seq<nat>
    requires Numerals(parts)
  {
    if parts == [] then [] else [ParseNat(parts[0])] + ParseNats(parts[1..])
  }

  /** The item list: a group of digits and commas, split at the commas. */
  function ParseItems(items: Option<string>): Result<Option<seq<nat>>, ()> {
    if items.None? then Ok(None)
    else
      var parts := Split(items.value, ',');
      if Numerals(parts) then Ok(Some(ParseNats(parts))) else Err(())
  }

  function ParseReply(text: string): Reply {
    var stripped := Strip(text);
    var m := Match(REPLY, stripped, NO_CAPTURES);
    if m.None? then Unparsed
    else
      var verb, number := Lower(m.value.Get(1).GetOr("")), m.value.Get(2);
      if verb == "status" then Status
      else if number.None? then Unparsed
      else if number.value == "" || !AllDigits(number.value) then
        if verb == "revoke" then ParseTarget(stripped) else Unparsed
      else
        var id := ParseNat(number.value);
        if id == 0 then Unparsed
        else if verb == "undo" then Undo(id)
        else
          match ParseItems(m.value.Get(3))
          case Err(_) => Crash
          case Ok(items) =>
            if items.Some? && 0 in items.value then Unparsed
            else Verdict(ActionOf(verb), id, items, m.value.Get(4))
  }

  function ParseTarget(stripped: string): Reply {
    var m := Match(REVOKE_TARGET, stripped, NO_CAPTURES);
    if m.None? then Unparsed
    else
      var target := Lower(m.value.Get(1).GetOr(""));
      if target == "all" then RevokeAll else RevokeInstance(target)
  }

  // --------------------------------------------------------- expiry, exactly

  /** One to three digits and a lower-case unit. */
  predicate ExpiryForm(e: string) {
    2 <= |e| <= 4 && AllDigits(e[..|e| - 1]) && In(LowerUnit, e[|e| - 1])
  }

  /** n hours, minutes or days, in microseconds. */
  predicate Spans(n: nat, unit: char, d: Time) {
    match unit
    case 'h' => d == n * 3_600_000_000
    case 'm' => d == n * 60_000_000
    case 'd' => d == n * 86_400_000_000
    case _ => false
  }

  lemma UnitMatches(unit: string, groups: map<nat, string>)
    requires |unit| == 1 && In(LowerUnit, unit[0])
    ensures Match(UNIT_RUN, unit, Captures(groups[2 := ""], Some(2))) == Some(Captures(groups[2 := unit], None))
  {
    EatIntoGroup(groups, 2, unit, "");
    assert unit + "" == unit;
    RunTakes(UNIT_RUN, unit, "", Captures(groups[2 := ""], Some(2)));
  }

  lemma DigitsThen(unitRun: Re, digits: string, unit: string)
    requires 1 <= |digits| <= 3 && AllDigits(digits) && (unit == "" || !IsDigit(unit[0]))
    requires Match(unitRun, unit, Captures(map[1 := digits][2 := ""], Some(2))).Some?
    ensures Match(Open(1, Run(Digit, 1, Some(3), Close(Open(2, unitRun)))), digits + unit, NO_CAPTURES) ==
            Match(unitRun, unit, Captures(map[1 := digits][2 := ""], Some(2)))
  {
    var c0 := Captures(map[1 := ""], Some(1));
    EatIntoGroup(map[], 1, digits, "");
    RunTakes(Run(Digit, 1, Some(3), Close(Open(2, unitRun))), digits, unit, c0);
  }

  lemma ExpiryMatches(e: string)
    requires ExpiryForm(e)
    ensures Match(EXPIRY, e, NO_CAPTURES) == Some(Captures(map[1 := e[..|e| - 1], 2 := e[|e| - 1..]], None))
  {
    var digits, unit := e[..|e| - 1], e[|e| - 1..];
    UnitMatches(unit, map[1 := digits]);
    DigitsThen(UNIT_RUN, digits, unit);
    assert digits + unit == e;
    assert map[1 := digits][2 := unit] == map[1 := digits, 2 := unit];
  }

  lemma ExpiryMatchShape(s: string)
    requires Trimmed(s) && Match(EXPIRY, s, NO_CAPTURES).Some?
    ensures ExpiryForm(s)
  {
    var run := EXPIRY.next;
    var unitRun := UNIT_RUN;
    var c0 := Captures(map[1 := ""], Some(1));
    ReachIsIn(Digit, Some(3), s);
    var j := TryRunFinds(run, s, c0, Reach(Digit, Some(3), s));
    var rest := s[j..];
    var c1 := Captures(Captures(c0.Eat(s[..j]).groups, None).groups[2 := ""], Some(2));
    assert Match(unitRun, rest, c1).Some?;
    ReachIsIn(LowerUnit, Some(1), rest);
    var k := TryRunFinds(unitRun, rest, c1, Reach(LowerUnit, Some(1), rest));
    assert k == 1 && In(LowerUnit, rest[..1][0]);
    assert rest[1..] == s[j + 1..];
    assert s[|s| - 1] != '\n';
    assert rest[1..] == "";
    assert forall i | 0 <= i < j :: s[i] == s[..Reach(Digit, Some(3), s)][i];
  }

  /** parse_expiry accepts exactly one to three digits, not all zero, with a lower-case
      unit, after stripping; the value is that many hours, minutes or days. */
  lemma ParseExpiryExactly(text: string)
    ensures var s, r := Strip(text), ParseExpiry(Some(text));
            && (r.Ok? <==> ExpiryForm(s) && ParseNat(s[..|s| - 1]) > 0)
            && (r.Ok? ==> r.value.Some? && Spans(ParseNat(s[..|s| - 1]), s[|s| - 1], r.value.value))
  {
    var s := Strip(text);
    StripTrims(text);
    if Match(EXPIRY, s, NO_CAPTURES).Some? {
      ExpiryMatchShape(s);
    }
    if ExpiryForm(s) {
      ExpiryMatches(s);
    }
  }
}
