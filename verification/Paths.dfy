/** The wall's path canonicalization: decoding, separator folding and dot-segment
    resolution, with component-prefix containment. */
module Paths {
  import opened Wrappers
  import opened Texts
  import opened Percent

  const READ := "read"
  const WRITE := "write"
  const MAX_PATH_LENGTH: nat := 2048

  predicate KnownMode(mode: string) { mode == READ || mode == WRITE }

  predicate IsControl(c: char) { c as int < 0x20 || c as int == 0x7F }

  predicate HasControl(s: string) { exists c | c in s :: IsControl(c) }

  /** The input consists of nothing but whitespace. */
  predicate Blank(s: string) { Strip(s) == "" }

  function Slashed(s: string): (r: string)
    ensures |r| == |s|
    ensures forall i | 0 <= i < |s| :: r[i] == if s[i] == '\\' then '/' else s[i]
  {
    if s == "" then "" else [if s[0] == '\\' then '/' else s[0]] + Slashed(s[1..])
  }

  // -------------------------------------------------- dot segments on a stack

  predicate Skipped(c: string) { c == "" || c == "." }

  /** What one component does to the stack; None means above the root. */
  function Climb(parts: seq<string>, c: string): Option<seq<string>> {
    if Skipped(c) then Some(parts)
    else if c == ".." then if parts == [] then None else Some(parts[..|parts| - 1])
    else Some(parts + [c])
  }

  function ResolveFrom(parts: seq<string>, comps: seq<string>): Option<seq<string>>
    decreases |comps|
  {
    if comps == [] then Some(parts)
    else
      match Climb(parts, comps[0])
      case None => None
      case Some(next) => ResolveFrom(next, comps[1..])
  }

  function Normalize(raw: string): Option<string> {
    if Blank(raw) || |raw| > MAX_PATH_LENGTH || HasControl(raw) then None
    else
      match ResolveFrom([], Split(Slashed(Passes(MAX_DECODE_PASSES, raw)), '/'))
      case None => None
      case Some(parts) => Some(Join(parts, '/'))
  }

  /** normalize_path, with its two loops. */
  method NormalizePath(raw: string) returns (r: Option<string>)
    ensures r == Normalize(raw)
  {
    if raw == "" || Strip(raw) == "" {
      return None;
    }
    if |raw| > MAX_PATH_LENGTH {
      return None;
    }
    for i := 0 to |raw|
      invariant forall c | c in raw[..i] :: !IsControl(c)
    {
      assert raw[..i + 1] == raw[..i] + [raw[i]];
      if IsControl(raw[i]) {
        return None;
      }
    }
    assert raw[..|raw|] == raw;
    var decoded := PercentDecode(raw);
    decoded := Slashed(decoded);
    var comps := Split(decoded, '/');
    var parts := [];
    for i := 0 to |comps|
      invariant ResolveFrom(parts, comps[i..]) == ResolveFrom([], comps)
    {
      var component := comps[i];
      assert comps[i..][1..] == comps[i + 1..];
      if component == "" || component == "." {
        continue;
      }
      if component == ".." {
        if parts == [] {
          return None;
        }
        parts := parts[..|parts| - 1];
        continue;
      }
      parts := parts + [component];
    }
    return Some(Join(parts, '/'));
  }

  // ----------------------------------------------- the stack loop is correct

  function Worth(c: string): int {
    if c == "" || c == "." then 0 else if c == ".." then -1 else 1
  }

  /** Names minus climbs. */
  function Height(comps: seq<string>): int {
    if comps == [] then 0 else Worth(comps[0]) + Height(comps[1..])
  }

  /** Some prefix of the components climbs more often than it descends. */
  ghost predicate Overdrawn(depth: nat, comps: seq<string>) {
    exists k | 0 <= k <= |comps| :: Height(comps[..k]) + depth < 0
  }

  lemma HeightOfPrefix(comps: seq<string>, k: int)
    requires 1 <= k <= |comps|
    ensures Height(comps[..k]) == Worth(comps[0]) + Height(comps[1..][..k - 1])
  {
    assert comps[..k][1..] == comps[1..][..k - 1];
  }

  /** Refused exactly when some prefix has more ".." than real names. */
  lemma {:induction false} RefusedIffOverdrawn(parts: seq<string>, comps: seq<string>)
    ensures ResolveFrom(parts, comps).None? <==> Overdrawn(|parts|, comps)
    decreases |comps|
  {
    if comps == [] {
    } else if Climb(parts, comps[0]).None? {
      HeightOfPrefix(comps, 1);
      assert comps[1..][..0] == [];
      assert Height(comps[..1]) + |parts| < 0;
    } else {
      var next, rest := Climb(parts, comps[0]).value, comps[1..];
      assert |next| == |parts| + Worth(comps[0]);
      RefusedIffOverdrawn(next, rest);
      if Overdrawn(|next|, rest) {
        var k :| 0 <= k <= |rest| && Height(rest[..k]) + |next| < 0;
        HeightOfPrefix(comps, k + 1);
      }
      if Overdrawn(|parts|, comps) {
        var k :| 0 <= k <= |comps| && Height(comps[..k]) + |parts| < 0;
        HeightOfPrefix(comps, k);
        assert Height(rest[..k - 1]) + |next| < 0;
      }
    }
  }

  /** Independent reading of dot segments, from the right: a name survives unless a
      later ".." consumes it. */
  function Survivors(comps: seq<string>, skip: nat): Option<seq<string>>
    decreases |comps|
  {
    if comps == [] then if skip > 0 then None else Some([])
    else
      var last := comps[|comps| - 1];
      var init := comps[..|comps| - 1];
      if Skipped(last) then Survivors(init, skip)
      else if last == ".." then Survivors(init, skip + 1)
      else if skip > 0 then Survivors(init, skip - 1)
      else
        match Survivors(init, 0)
        case None => None
        case Some(p) => Some(p + [last])
  }

  lemma {:induction false} ResolveConcat(parts: seq<string>, a: seq<string>, b: seq<string>)
    ensures ResolveFrom(parts, a + b) ==
            match ResolveFrom(parts, a) case None => None case Some(mid) => ResolveFrom(mid, b)
    decreases |a|
  {
    if a == [] {
      assert a + b == b;
    } else {
      assert (a + b)[1..] == a[1..] + b;
      if Climb(parts, a[0]).Some? {
        ResolveConcat(Climb(parts, a[0]).value, a[1..], b);
      }
    }
  }

  lemma ResolveSnoc(init: seq<string>, last: string)
    ensures ResolveFrom([], init + [last]) ==
            match ResolveFrom([], init) case None => None case Some(p) => Climb(p, last)
  {
    ResolveConcat([], init, [last]);
    if ResolveFrom([], init).Some? {
      var p := ResolveFrom([], init).value;
      assert [last][1..] == [];
      assert ResolveFrom(p, [last]) == Climb(p, last);
    }
  }

  function DropEnd(p: Option<seq<string>>, skip: nat): Option<seq<string>> {
    if p.None? || skip > |p.value| then None else Some(p.value[..|p.value| - skip])
  }

  /** The stack loop computes the right-to-left specification. */
  lemma {:induction false} ResolveIsSurvivors(comps: seq<string>, skip: nat)
    ensures Survivors(comps, skip) == DropEnd(ResolveFrom([], comps), skip)
    decreases |comps|
  {
    if comps != [] {
      var init, last := comps[..|comps| - 1], comps[|comps| - 1];
      assert comps == init + [last];
      ResolveSnoc(init, last);
      var below := if Skipped(last) then skip else if last == ".." then skip + 1
                   else if skip > 0 then skip - 1 else 0;
      ResolveIsSurvivors(init, below);
      if ResolveFrom([], init).Some? {
        DropEndAfterClimb(ResolveFrom([], init).value, last, skip);
      }
    }
  }

  lemma DropEndAfterClimb(p: seq<string>, last: string, skip: nat)
    ensures last == ".." ==> DropEnd(Climb(p, last), skip) == DropEnd(Some(p), skip + 1)
    ensures !Skipped(last) && last != ".." && skip > 0 ==>
              DropEnd(Climb(p, last), skip) == DropEnd(Some(p), skip - 1)
    ensures DropEnd(Some(p), 0) == Some(p) && DropEnd(Some(p + [last]), 0) == Some(p + [last])
  {
    assert p[..|p|] == p && (p + [last])[..|p| + 1] == p + [last];
    if last == ".." && skip < |p| {
      assert p[..|p| - 1][..|p| - 1 - skip] == p[..|p| - (skip + 1)];
    } else if 0 < skip <= |p| + 1 {
      assert (p + [last])[..|p| + 1 - skip] == p[..|p| - (skip - 1)];
    }
  }

  lemma {:induction false} ResolveNames(parts: seq<string>, names: seq<string>)
    requires forall c | c in names :: !Skipped(c) && c != ".."
    ensures ResolveFrom(parts, names) == Some(parts + names)
    decreases |names|
  {
    if names != [] {
      assert names[0] in names;
      ResolveNames(parts + [names[0]], names[1..]);
      assert parts + [names[0]] + names[1..] == parts + names;
    } else {
      assert parts + names == parts;
    }
  }

  /** Resolving a concatenation is resolving the resolved first part followed by the second. */
  lemma ResolveInTwoParts(a: seq<string>, b: seq<string>)
    ensures ResolveFrom([], a + b) ==
            match ResolveFrom([], a) case None => None case Some(mid) => ResolveFrom([], mid + b)
  {
    ResolveConcat([], a, b);
    if ResolveFrom([], a).Some? {
      var mid := ResolveFrom([], a).value;
      ResolvedParts([], a);
      ResolveNames([], mid);
      assert [] + mid == mid;
      ResolveConcat([], mid, b);
    }
  }

  /** Every resolved part is one of the components, and none is a dot segment. */
  lemma {:induction false} ResolvedParts(parts: seq<string>, comps: seq<string>)
    requires ResolveFrom(parts, comps).Some?
    requires forall c | c in parts :: !Skipped(c) && c != ".."
    ensures forall c | c in ResolveFrom(parts, comps).value ::
              (c in parts || c in comps) && !Skipped(c) && c != ".."
    decreases |comps|
  {
    if comps != [] {
      ResolvedParts(Climb(parts, comps[0]).value, comps[1..]);
    }
  }

  // ------------------------------------------------------- canonical results

  /** A canonical path as its list of components; the empty path is the root. */
  function PathOf(p: string): seq<string> {
    if p == "" then [] else Split(p, '/')
  }

  predicate CleanPart(c: string) { c != "" && c != "." && c != ".." && '/' !in c }

  predicate CleanParts(parts: seq<string>) { forall c | c in parts :: CleanPart(c) }

  predicate Canonical(p: string) { CleanParts(PathOf(p)) }

  lemma PathOfJoin(parts: seq<string>)
    requires CleanParts(parts)
    ensures PathOf(Join(parts, '/')) == parts && Canonical(Join(parts, '/'))
  {
    if parts != [] {
      assert CleanPart(parts[0]);
      SplitJoin(parts, '/');
    }
  }

  lemma JoinPathOf(p: string)
    ensures Join(PathOf(p), '/') == p
  {
    JoinSplit(p, '/');
  }

  lemma {:induction false} JoinConcat(a: seq<string>, b: seq<string>)
    requires a != [] && b != []
    ensures Join(a + b, '/') == Join(a, '/') + "/" + Join(b, '/')
    decreases |a|
  {
    assert (a + b)[1..] == a[1..] + b;
    if |a| > 1 {
      JoinConcat(a[1..], b);
      assert Join(a + b, '/') == a[0] + ['/'] + Join(a[1..] + b, '/');
    } else {
      assert a[1..] + b == b;
    }
  }

  // lengths: no step of the canonicalization makes the path longer

  function Weight(parts: seq<string>): nat {
    if parts == [] then 0 else |parts[0]| + 1 + Weight(parts[1..])
  }

  lemma {:induction false} WeightConcat(a: seq<string>, b: seq<string>)
    ensures Weight(a + b) == Weight(a) + Weight(b)
    decreases |a|
  {
    if a == [] {
      assert a + b == b;
    } else {
      assert (a + b)[1..] == a[1..] + b;
      WeightConcat(a[1..], b);
    }
  }

  lemma {:induction false} JoinWeight(parts: seq<string>)
    ensures |Join(parts, '/')| == if parts == [] then 0 else Weight(parts) - 1
    decreases |parts|
  {
    if |parts| > 1 {
      JoinWeight(parts[1..]);
    }
  }

  lemma {:induction false} ResolveWeight(parts: seq<string>, comps: seq<string>)
    requires ResolveFrom(parts, comps).Some?
    ensures Weight(ResolveFrom(parts, comps).value) <= Weight(parts) + Weight(comps)
    decreases |comps|
  {
    if comps != [] {
      var c := comps[0];
      ResolveWeight(Climb(parts, c).value, comps[1..]);
      if Skipped(c) {
      } else if c == ".." {
        var keep, drop := parts[..|parts| - 1], parts[|parts| - 1..];
        assert parts == keep + drop;
        WeightConcat(keep, drop);
      } else {
        WeightConcat(parts, [c]);
      }
    }
  }

  lemma NormalizeShrinks(raw: string)
    requires Normalize(raw).Some?
    ensures |Normalize(raw).value| <= |Passes(MAX_DECODE_PASSES, raw)| <= |raw|
  {
    var folded := Slashed(Passes(MAX_DECODE_PASSES, raw));
    var comps := Split(folded, '/');
    JoinSplit(folded, '/');
    JoinWeight(comps);
    ResolveWeight([], comps);
    JoinWeight(ResolveFrom([], comps).value);
  }

  // escapes: an escape never spans a separator

  lemma {:induction false} EscapesOfJoin(parts: seq<string>)
    ensures NoEscape(Join(parts, '/')) <==> forall p | p in parts :: NoEscape(p)
    decreases |parts|
  {
    if |parts| > 1 {
      var head, tail := parts[0], Join(parts[1..], '/');
      var whole := head + ['/'] + tail;
      EscapesOfJoin(parts[1..]);
      forall i ensures EscapeAt(whole, i) <==> EscapeAt(head, i) || EscapeAt(tail, i - |head| - 1) {
        if 0 <= i < |whole| - 2 {
          assert whole[|head|] == '/';
          if i > |head| {
            assert whole[i..i + 3] == tail[i - |head| - 1..i - |head| + 2];
          }
        }
      }
      if NoEscape(whole) {
        forall p | p in parts ensures NoEscape(p) {
          forall i ensures !EscapeAt(head, i) && !EscapeAt(tail, i) {
            assert !EscapeAt(whole, i) && !EscapeAt(whole, i + |head| + 1);
          }
          assert p == head || p in parts[1..];
        }
      } else {
        var i :| EscapeAt(whole, i);
        if EscapeAt(head, i) {
          assert head in parts && !NoEscape(head);
        } else {
          assert EscapeAt(tail, i - |head| - 1);
          assert forall p | p in parts[1..] :: p in parts;
        }
      }
    }
  }

  lemma EscapesOfSlashed(s: string)
    ensures NoEscape(Slashed(s)) <==> NoEscape(s)
  {
    assert forall i :: EscapeAt(Slashed(s), i) <==> EscapeAt(s, i);
  }

  /** The input settles within the decoding cap: a fifth pass changes nothing. */
  predicate FullyDecoded(raw: string) {
    Unquote(Passes(MAX_DECODE_PASSES, raw)) == Passes(MAX_DECODE_PASSES, raw)
  }

  /** What every result of normalize_path looks like. */
  lemma NormalizedShape(raw: string)
    requires Normalize(raw).Some?
    ensures Canonical(Normalize(raw).value)
    ensures Lacks(Normalize(raw).value, '\\')
    ensures FullyDecoded(raw) ==> NoEscape(Normalize(raw).value)
  {
    var decoded := Passes(MAX_DECODE_PASSES, raw);
    var folded := Slashed(decoded);
    var comps := Split(folded, '/');
    var parts := ResolveFrom([], comps).value;
    SplitPartsWithout(folded, '/');
    ResolvedParts([], comps);
    PathOfJoin(parts);
    JoinSplit(folded, '/');
    assert Lacks(folded, '\\');
    PartsWithout(comps, '\\');
    JoinWithout(parts, '\\');
    if FullyDecoded(raw) {
      UnquoteFixpoint(decoded);
      EscapesOfSlashed(decoded);
      EscapesOfJoin(comps);
      EscapesOfJoin(parts);
    }
  }

  lemma {:induction false} PartsWithout(parts: seq<string>, c: char)
    requires Lacks(Join(parts, '/'), c)
    ensures forall p | p in parts :: Lacks(p, c)
    decreases |parts|
  {
    if |parts| > 1 {
      var whole, tail := Join(parts, '/'), Join(parts[1..], '/');
      assert whole == parts[0] + ['/'] + tail;
      assert forall x | x in tail || x in parts[0] :: x in whole;
      PartsWithout(parts[1..], c);
    }
  }

  lemma {:induction false} JoinWithout(parts: seq<string>, c: char)
    requires c != '/'
    requires forall p | p in parts :: Lacks(p, c)
    ensures Lacks(Join(parts, '/'), c)
    decreases |parts|
  {
    if |parts| >= 1 {
      assert parts[0] in parts;
      JoinWithout(parts[1..], c);
    }
  }

  /** Normalizing a result again: the same path or a refusal when nothing is left to
      decode, and the same path exactly under conditions visible in the result. */
  lemma NormalizeAgain(raw: string)
    requires Normalize(raw).Some?
    ensures var p := Normalize(raw).value;
            && (NoEscape(p) ==> Normalize(p) == if Blank(p) || HasControl(p) then None else Some(p))
            && (Normalize(p) == Some(p) <==> NoEscape(p) && !Blank(p) && !HasControl(p))
  {
    var p := Normalize(raw).value;
    NormalizedShape(raw);
    NormalizeShrinks(raw);
    UnquoteFixpoint(p);
    if NoEscape(p) {
      StablePasses(MAX_DECODE_PASSES, p);
      SlashedIdentity(p);
      if p != "" {
        ResolveNames([], PathOf(p));
        assert [] + PathOf(p) == PathOf(p);
        JoinPathOf(p);
      }
    } else if Normalize(p).Some? {
      NormalizeShrinks(p);
      var i :| EscapeAt(p, i);
      EscapeShortens(p, i);
    }
  }

  lemma SlashedIdentity(s: string)
    requires Lacks(s, '\\')
    ensures Slashed(s) == s
  {
  }

  /** "%61" (an escaped letter a) escaped again k times: "%2561", "%252561", ... */
  function Nested(k: nat): (s: string)
    ensures |s| == 2 * k + 3 && s[0] == '%' && forall i | 1 <= i < |s| :: IsDigit(s[i])
  {
    if k == 0 then "%61" else "%25" + Nested(k - 1)[1..]
  }

  predicate Normal(s: string) { !Blank(s) && !HasControl(s) }

  predicate Resolves(s: string) { ResolveFrom([], Split(Slashed(s), '/')) == Some([s]) }

  lemma NormalizeVia(raw: string, decoded: string)
    requires |raw| <= MAX_PATH_LENGTH && Normal(raw)
    requires Passes(MAX_DECODE_PASSES, raw) == decoded && Resolves(decoded)
    ensures Normalize(raw) == Some(decoded)
  {
  }

  predicate PlainChar(c: char) { c == '%' || c == 'a' || IsDigit(c) }

  lemma PlainIsNormal(s: string)
    requires s != "" && forall i | 0 <= i < |s| :: PlainChar(s[i])
    ensures Normal(s)
  {
    assert PlainChar(s[0]) && PlainChar(s[|s| - 1]);
    StripOfTrimmed(s);
    forall c | c in s ensures !IsControl(c) {
      var i :| 0 <= i < |s| && s[i] == c;
      assert PlainChar(s[i]);
    }
  }

  lemma PlainResolves(s: string)
    requires s != "" && forall i | 0 <= i < |s| :: PlainChar(s[i])
    ensures Resolves(s)
  {
    forall c | c in s ensures c != '/' && c != '\\' {
      var i :| 0 <= i < |s| && s[i] == c;
      assert PlainChar(s[i]);
    }
    SlashedIdentity(s);
    SplitOfPart(s, '/');
    assert PlainChar(s[0]);
    ResolveNames([], [s]);
    assert [] + [s] == [s];
  }

  lemma PassOverNested(n: nat, k: nat)
    requires n >= 1 && k >= 1
    ensures Passes(n, Nested(k)) == Passes(n - 1, Nested(k - 1))
  {
    var tail := Nested(k - 1)[1..];
    UnquoteStep("%" + tail, tail);
    assert "%" + tail == Nested(k - 1);
  }

  lemma {:induction false} PassesOverNested(n: nat, k: nat)
    ensures Passes(n, Nested(k + n)) == Nested(k)
    decreases n
  {
    hide Nested, Unquote;
    if n > 0 {
      PassOverNested(n, k + n);
      PassesOverNested(n - 1, k);
    }
  }

  lemma NestedHasEscape(k: nat)
    ensures !NoEscape(Nested(k))
  {
    assert EscapeAt(Nested(k), 0);
  }

  /** An input that still has an escape after the last pass is changed by a second run. */
  lemma StillEncoded(raw: string, left: string)
    requires Passes(MAX_DECODE_PASSES, raw) == left && !NoEscape(left)
    requires Normalize(raw) == Some(left)
    ensures !FullyDecoded(raw) && Normalize(left) != Some(left)
  {
    UnquoteFixpoint(left);
    NormalizeAgain(raw);
  }

  /** Beyond the cap normalization is not idempotent: with four more layers than the
      cap removes, one escape is left in the result and a second run changes it. */
  lemma CapLeavesEscape(k: nat)
    requires 2 * (k + 4) + 3 <= MAX_PATH_LENGTH
    ensures !FullyDecoded(Nested(k + 4))
    ensures Normalize(Nested(k + 4)) == Some(Nested(k)) && Normalize(Nested(k)) != Some(Nested(k))
  {
    hide Normalize, Passes, Nested, Resolves, NoEscape, FullyDecoded;
    PassesOverNested(MAX_DECODE_PASSES, k);
    PlainIsNormal(Nested(k + 4));
    PlainResolves(Nested(k));
    NormalizeVia(Nested(k + 4), Nested(k));
    NestedHasEscape(k);
    StillEncoded(Nested(k + 4), Nested(k));
  }

  lemma LastEscapeOpens()
    ensures Unquote(Nested(0)) == "a"
  {
    var s := "%61";
    AllAscii(s);
    assert s[..|s|] == s && s[|s|..] == "" && s[3..] == "";
    var bs := UnquoteToBytes(s);
    assert bs == [0x61];
    assert bs[1..] == [];
    assert Utf8Decode(bs) == ['a'] + Utf8Decode(bs[1..]);
  }

  lemma LetterIsFixed()
    ensures Unquote("a") == "a" && Resolves("a")
  {
    forall i ensures !EscapeAt("a", i) {
    }
    UnquoteFixpoint("a");
    PlainResolves("a");
  }

  lemma LetterIsNormal()
    ensures Normalize("a") == Some("a")
  {
    LetterIsFixed();
    StablePasses(MAX_DECODE_PASSES, "a");
    PlainIsNormal("a");
    NormalizeVia("a", "a");
  }

  lemma {:induction false} PassesOpen(n: nat, k: nat)
    requires k < n
    ensures Passes(n, Nested(k)) == "a"
    decreases k
  {
    hide Nested, Unquote;
    if k == 0 {
      LastEscapeOpens();
      LetterIsFixed();
      StablePasses(n - 1, "a");
    } else {
      PassOverNested(n, k);
      PassesOpen(n - 1, k - 1);
    }
  }

  /** Within the cap every layer comes off. */
  lemma NestedOpens(k: nat)
    requires k < MAX_DECODE_PASSES
    ensures Normalize(Nested(k)) == Some("a") && Nested(k) != "a"
  {
    hide Normalize, Passes, Nested, Resolves;
    PassesOpen(MAX_DECODE_PASSES, k);
    LetterIsFixed();
    PlainIsNormal(Nested(k));
    NormalizeVia(Nested(k), "a");
  }

  /** unquote("%25" + tail) is "%" + tail when the tail is plain ASCII without escapes. */
  lemma UnquoteStep(result: string, tail: string)
    requires result == "%" + tail
    requires forall c | c in tail :: IsDigit(c)
    ensures Unquote("%25" + tail) == result
  {
    var s := "%25" + tail;
    AllAscii(s);
    assert s[..|s|] == s && s[|s|..] == "";
    assert s[3..] == tail;
    forall i ensures !EscapeAt(tail, i) {
      if 0 <= i < |tail| {
        assert tail[i] in tail;
      }
    }
    AsciiBytesDecodeToThemselves(tail);
    var bs := UnquoteToBytes(s);
    assert bs == [0x25] + UnquoteToBytes(tail);
    assert bs[1..] == UnquoteToBytes(tail);
    assert Utf8Decode(bs) == ['%'] + Utf8Decode(bs[1..]);
  }

  lemma {:induction false} AllAscii(s: string)
    requires forall c | c in s :: IsAscii(c)
    ensures AsciiRun(s) == |s|
    decreases |s|
  {
    if s != "" {
      assert s[0] in s;
      AllAscii(s[1..]);
    }
  }

  // ------------------------------------------------- other ways to write a path

  /** A written text holds no other characters than the text's and those of escapes. */
  lemma {:induction false} WrittenChars(esc: string, text: string)
    requires Written(esc, text)
    ensures forall c | c in esc :: c == '%' || IsHex(c) || c in text
    ensures |text| <= |esc|
    decreases |text|
  {
    if esc == "" {
      EmptyWritten(text);
    } else {
      WrittenEither(esc, text);
      var n := 3 * |Utf8Encode(text[0])|;
      assert text == [text[0]] + text[1..];
      if WrittenPlain(esc, text) {
        WrittenChars(esc[1..], text[1..]);
        assert esc == [esc[0]] + esc[1..];
      } else {
        WrittenChars(esc[n..], text[1..]);
        EscapeChars(esc[..n], Utf8Encode(text[0]));
        assert esc == esc[..n] + esc[n..];
      }
    }
  }

  lemma {:induction false} EscapeChars(esc: string, bs: seq<Byte>)
    requires Escapes(esc, bs)
    ensures forall c | c in esc :: c == '%' || IsHex(c)
    ensures bs != [] ==> '%' in esc
    decreases |bs|
  {
    if bs != [] {
      HexSpelled(esc[1], bs[0] / 16);
      HexSpelled(esc[2], bs[0] % 16);
      EscapeChars(esc[3..], bs[1..]);
      assert esc == [esc[0], esc[1], esc[2]] + esc[3..];
    }
  }

  lemma {:induction false} WrittenBlank(esc: string, text: string)
    requires Written(esc, text) && AllSpace(esc)
    ensures AllSpace(text)
    decreases |text|
  {
    if esc == "" {
      EmptyWritten(text);
    } else {
      WrittenEither(esc, text);
      var n := 3 * |Utf8Encode(text[0])|;
      assert text == [text[0]] + text[1..];
      if WrittenPlain(esc, text) {
        assert esc == [esc[0]] + esc[1..] && esc[0] in esc;
        WrittenBlank(esc[1..], text[1..]);
      } else {
        EscapeChars(esc[..n], Utf8Encode(text[0]));
        assert esc == esc[..n] + esc[n..];
        PercentIsNotSpace(esc);
      }
    }
  }

  lemma PercentIsNotSpace(s: string)
    ensures '%' in s ==> !AllSpace(s)
  {
    if '%' in s {
      assert !IsSpace('%');
    }
  }

  lemma WrittenNormal(esc: string, text: string)
    requires Written(esc, text) && !Blank(text) && !HasControl(text)
    ensures !Blank(esc) && !HasControl(esc) && |text| <= |esc|
  {
    WrittenChars(esc, text);
    StripEmpties(esc);
    StripEmpties(text);
    if AllSpace(esc) {
      WrittenBlank(esc, text);
    }
  }

  /** However a path is written, with any of its characters escaped in any spelling, it
      normalizes like the path itself. */
  lemma NormalizeWritten(esc: string, text: string)
    requires Written(esc, text) && |esc| <= 2048 && !Blank(text) && !HasControl(text)
    requires NoEscape(Passes(3, text))
    ensures Normalize(esc) == Normalize(text)
  {
    WrittenNormal(esc, text);
    UnquoteWritten(esc, text);
    UnquoteFixpoint(Passes(3, text));
    PassesSnoc(3, text);
    hide Unquote, Written, NoEscape;
    assert Passes(MAX_DECODE_PASSES, esc) == Passes(3, text) == Passes(MAX_DECODE_PASSES, text);
  }

  lemma {:induction false} PassesSnoc(n: nat, s: string)
    ensures Passes(n + 1, s) == Unquote(Passes(n, s))
    decreases n
  {
    hide Unquote;
    if n > 0 {
      PassesSnoc(n - 1, Unquote(s));
    }
  }

  /** What is refused, in full: only whitespace, more than 2048 characters, a control
      character, or a climb above the root. */
  lemma NormalizeRefuses(raw: string)
    ensures Normalize(raw).None? <==>
            || AllSpace(raw) || |raw| > 2048 || (exists c | c in raw :: c as int < 32 || c as int == 127)
            || Overdrawn(0, Split(Slashed(Passes(4, raw)), '/'))
  {
    StripEmpties(raw);
    hide Passes, Slashed, Split;
    RefusedIffOverdrawn([], Split(Slashed(Passes(4, raw)), '/'));
  }

  // -------------------------------------------------------------- containment

  predicate Inside(granted: string, requested: string) {
    granted == requested || granted + "/" <= requested
  }

  lemma {:induction false} SplitAtSeparator(a: string, b: string)
    ensures Split(a + "/" + b, '/') == Split(a, '/') + Split(b, '/')
    decreases |a|
  {
    var whole := a + "/" + b;
    if a == "" {
      assert whole[1..] == b;
    } else {
      assert whole[1..] == a[1..] + "/" + b;
      SplitAtSeparator(a[1..], b);
    }
  }

  /** On paths the string test is exactly component prefixing. */
  lemma InsideIsPrefix(granted: string, requested: string)
    requires granted != ""
    ensures Inside(granted, requested) <==> PathOf(granted) <= PathOf(requested)
  {
    var g, r := PathOf(granted), PathOf(requested);
    if granted + "/" <= requested {
      var rest := requested[|granted| + 1..];
      assert requested == granted + "/" + rest;
      SplitAtSeparator(granted, rest);
    }
    if g <= r {
      JoinPathOf(granted);
      JoinPathOf(requested);
      var tail := r[|g|..];
      assert r == g + tail;
      if tail == [] {
        assert r == g;
      } else {
        JoinConcat(g, tail);
      }
    }
  }

  /** Containment of non-root paths is a partial order. */
  lemma InsideIsPartialOrder(a: string, b: string, c: string)
    requires a != "" && b != "" && c != ""
    ensures Inside(a, a)
    ensures Inside(a, b) && Inside(b, a) ==> a == b
    ensures Inside(a, b) && Inside(b, c) ==> Inside(a, c)
  {
    InsideIsPrefix(a, b);
    InsideIsPrefix(b, a);
    InsideIsPrefix(b, c);
    InsideIsPrefix(a, c);
    JoinPathOf(a);
    JoinPathOf(b);
  }
}
