/** check_access: the decision whether a list of grants permits one operation. */
module Access {
  import opened Wrappers
  import opened Clocks
  import opened Paths

  datatype Grant = Grant(path: string, mode: string, expiresAt: Option<Time>, id: nat)

  datatype Reason =
    | Permitted
    | UnknownMode
    | MalformedPath
    | GrantExpired(id: nat)
    | GrantReadOnly(id: nat)
    | NotCovered

  datatype Decision = Decision(allowed: bool, grantId: Option<nat>, reason: Reason)

  function Deny(reason: Reason): Decision { Decision(false, None, reason) }

  /** The grant is well-formed and its path contains the normalized request. */
  predicate Covers(g: Grant, norm: string) {
    && Normalize(g.path).Some?
    && Normalize(g.path).value != ""
    && KnownMode(g.mode)
    && Inside(Normalize(g.path).value, norm)
  }

  predicate Live(g: Grant, now: Time) { g.expiresAt.Some? && now < g.expiresAt.value }

  predicate Suffices(granted: string, wanted: string) { wanted == WRITE ==> granted == WRITE }

  /** One grant on its own authorizes the request. */
  predicate Authorizes(g: Grant, norm: string, mode: string, now: Time) {
    Covers(g, norm) && Live(g, now) && Suffices(g.mode, mode)
  }

  /** Why a covering grant does not authorize. */
  function Shortfall(g: Grant, now: Time): Reason {
    if !Live(g, now) then GrantExpired(g.id) else GrantReadOnly(g.id)
  }

  /** The scan over the grants, with the closest refusal so far. */
  function Scan(norm: string, mode: string, grants: seq<Grant>, now: Time, best: Option<Decision>): Decision {
    if grants == [] then best.GetOr(Deny(NotCovered))
    else
      var g := grants[0];
      if Authorizes(g, norm, mode, now) then Decision(true, Some(g.id), Permitted)
      else if Covers(g, norm) && best.None? then
        Scan(norm, mode, grants[1..], now, Some(Deny(Shortfall(g, now))))
      else Scan(norm, mode, grants[1..], now, best)
  }

  function Decide(requested: string, mode: string, grants: seq<Grant>, now: Time): Decision {
    if !KnownMode(mode) then Deny(UnknownMode)
    else if Normalize(requested).None? then Deny(MalformedPath)
    else Scan(Normalize(requested).value, mode, grants, now, None)
  }

  /** check_access, scanning the grants in order and remembering the first refusal. */
  method CheckAccess(requested: string, mode: string, grants: seq<Grant>, now: Time) returns (d: Decision)
    ensures d == Decide(requested, mode, grants, now)
  {
    if !KnownMode(mode) {
      return Deny(UnknownMode);
    }
    var norm := NormalizePath(requested);
    if norm.None? {
      return Deny(MalformedPath);
    }
    var best: Option<Decision> := None;
    for i := 0 to |grants|
      invariant Scan(norm.value, mode, grants[i..], now, best) == Scan(norm.value, mode, grants, now, None)
    {
      var g := grants[i];
      assert grants[i..][0] == g && grants[i..][1..] == grants[i + 1..];
      var root := NormalizePath(g.path);
      if root.None? || root.value == "" {
        continue;
      }
      if !KnownMode(g.mode) {
        continue;
      }
      if !Inside(root.value, norm.value) {
        continue;
      }
      if g.expiresAt.None? || g.expiresAt.value <= now {
        if best.None? {
          best := Some(Deny(GrantExpired(g.id)));
        }
        continue;
      }
      if mode == WRITE && g.mode != WRITE {
        if best.None? {
          best := Some(Deny(GrantReadOnly(g.id)));
        }
        continue;
      }
      return Decision(true, Some(g.id), Permitted);
    }
    return if best.Some? then best.value else Deny(NotCovered);
  }

  // ------------------------------------------------ what the decision means

  /** grants[i] is the first grant that authorizes. */
  ghost predicate FirstAuthorizing(grants: seq<Grant>, i: nat, norm: string, mode: string, now: Time) {
    && i < |grants| && Authorizes(grants[i], norm, mode, now)
    && forall j | 0 <= j < i :: !Authorizes(grants[j], norm, mode, now)
  }

  /** grants[i] is the first grant whose scope contains the request. */
  ghost predicate FirstCovering(grants: seq<Grant>, i: nat, norm: string) {
    i < |grants| && Covers(grants[i], norm) && forall j | 0 <= j < i :: !Covers(grants[j], norm)
  }

  lemma {:induction false} ScanAllows(norm: string, mode: string, grants: seq<Grant>, now: Time,
                                      best: Option<Decision>)
    requires exists g | g in grants :: Authorizes(g, norm, mode, now)
    ensures exists i: nat :: FirstAuthorizing(grants, i, norm, mode, now) &&
                             Scan(norm, mode, grants, now, best) == Decision(true, Some(grants[i].id), Permitted)
    decreases |grants|
  {
    hide Covers, Live, Suffices;
    var g, rest := grants[0], grants[1..];
    if Authorizes(g, norm, mode, now) {
      assert FirstAuthorizing(grants, 0, norm, mode, now);
    } else {
      var best' := if Covers(g, norm) && best.None? then Some(Deny(Shortfall(g, now))) else best;
      var w :| w in grants && Authorizes(w, norm, mode, now);
      assert w in rest;
      ScanAllows(norm, mode, rest, now, best');
      var i: nat :| FirstAuthorizing(rest, i, norm, mode, now) &&
                    Scan(norm, mode, rest, now, best') == Decision(true, Some(rest[i].id), Permitted);
      assert grants[i + 1] == rest[i];
      assert FirstAuthorizing(grants, i + 1, norm, mode, now);
    }
  }

  ghost predicate NoneAuthorizes(norm: string, mode: string, grants: seq<Grant>, now: Time) {
    forall g | g in grants :: !Authorizes(g, norm, mode, now)
  }

  /** Once a refusal is remembered, later grants that do not authorize leave it alone. */
  lemma {:induction false} ScanKeepsRefusal(norm: string, mode: string, grants: seq<Grant>, now: Time, d: Decision)
    requires NoneAuthorizes(norm, mode, grants, now)
    ensures Scan(norm, mode, grants, now, Some(d)) == d
    decreases |grants|
  {
    if grants != [] {
      assert grants[0] in grants;
      ScanKeepsRefusal(norm, mode, grants[1..], now, d);
    }
  }

  lemma {:induction false} ScanRefuses(norm: string, mode: string, grants: seq<Grant>, now: Time, i: nat)
    requires NoneAuthorizes(norm, mode, grants, now) && FirstCovering(grants, i, norm)
    ensures Scan(norm, mode, grants, now, None) == Deny(Shortfall(grants[i], now))
    decreases |grants|
  {
    assert grants[0] in grants;
    if i == 0 {
      ScanKeepsRefusal(norm, mode, grants[1..], now, Deny(Shortfall(grants[0], now)));
    } else {
      assert !Covers(grants[0], norm);
      assert FirstCovering(grants[1..], i - 1, norm);
      ScanRefuses(norm, mode, grants[1..], now, i - 1);
    }
  }

  lemma {:induction false} ScanUncovered(norm: string, mode: string, grants: seq<Grant>, now: Time)
    requires forall g | g in grants :: !Covers(g, norm)
    ensures Scan(norm, mode, grants, now, None) == Deny(NotCovered)
    decreases |grants|
  {
    if grants != [] {
      assert grants[0] in grants;
      ScanUncovered(norm, mode, grants[1..], now);
    }
  }

  lemma ScanDenies(norm: string, mode: string, grants: seq<Grant>, now: Time)
    requires NoneAuthorizes(norm, mode, grants, now)
    ensures !Scan(norm, mode, grants, now, None).allowed
  {
    LeastCovering(grants, norm);
    if i: nat :| FirstCovering(grants, i, norm) {
      ScanRefuses(norm, mode, grants, now, i);
    } else {
      ScanUncovered(norm, mode, grants, now);
    }
  }

  /** The request as the decision sees it. */
  predicate WellFormed(requested: string, mode: string) { KnownMode(mode) && Normalize(requested).Some? }

  ghost predicate Allowed(requested: string, mode: string, grants: seq<Grant>, now: Time) {
    Decide(requested, mode, grants, now).allowed
  }

  ghost predicate SomeAuthorizes(requested: string, mode: string, grants: seq<Grant>, now: Time) {
    WellFormed(requested, mode) &&
    exists g | g in grants :: Authorizes(g, Normalize(requested).value, mode, now)
  }

  /** Allowed exactly when some single grant is live, in scope and of sufficient mode;
      the decision then names the first such grant. */
  lemma AllowedMeaning(requested: string, mode: string, grants: seq<Grant>, now: Time)
    ensures Allowed(requested, mode, grants, now) <==> SomeAuthorizes(requested, mode, grants, now)
    ensures Allowed(requested, mode, grants, now) ==>
              exists i: nat :: FirstAuthorizing(grants, i, Normalize(requested).value, mode, now) &&
                               Decide(requested, mode, grants, now) == Decision(true, Some(grants[i].id), Permitted)
  {
    if WellFormed(requested, mode) {
      var norm := Normalize(requested).value;
      if SomeAuthorizes(requested, mode, grants, now) {
        ScanAllows(norm, mode, grants, now, None);
      } else {
        ScanDenies(norm, mode, grants, now);
      }
    }
  }

  /** The grant, as written, is live, well-formed, and its path contains the request's,
      component by component. */
  predicate InScope(g: Grant, norm: string, now: Time) {
    && (g.mode == "read" || g.mode == "write")
    && g.expiresAt.Some? && now < g.expiresAt.value
    && Normalize(g.path).Some? && Normalize(g.path).value != ""
    && PathOf(Normalize(g.path).value) <= PathOf(norm)
  }

  lemma AuthorizesExactly(g: Grant, norm: string, mode: string, now: Time)
    ensures Authorizes(g, norm, mode, now) <==> InScope(g, norm, now) && (mode == "write" ==> g.mode == "write")
  {
    if Normalize(g.path).Some? && Normalize(g.path).value != "" {
      InsideIsPrefix(Normalize(g.path).value, norm);
    }
  }

  /** The verdict by mode: a write is allowed exactly under a live write grant on a
      component prefix, a read under either kind, anything else never. */
  lemma ModesExactly(requested: string, mode: string, grants: seq<Grant>, now: Time)
    ensures Allowed(requested, "write", grants, now) <==>
            Normalize(requested).Some? &&
            exists g | g in grants :: InScope(g, Normalize(requested).value, now) && g.mode == "write"
    ensures Allowed(requested, "read", grants, now) <==>
            Normalize(requested).Some? && exists g | g in grants :: InScope(g, Normalize(requested).value, now)
    ensures mode != "read" && mode != "write" ==> !Allowed(requested, mode, grants, now)
  {
    AllowedMeaning(requested, "write", grants, now);
    AllowedMeaning(requested, "read", grants, now);
    AllowedMeaning(requested, mode, grants, now);
    if Normalize(requested).Some? {
      var norm := Normalize(requested).value;
      forall g | g in grants
        ensures Authorizes(g, norm, "write", now) <==> InScope(g, norm, now) && g.mode == "write"
        ensures Authorizes(g, norm, "read", now) <==> InScope(g, norm, now)
      {
        AuthorizesExactly(g, norm, "write", now);
        AuthorizesExactly(g, norm, "read", now);
      }
    }
  }

  lemma {:induction false} LeastCovering(grants: seq<Grant>, norm: string)
    ensures (exists g | g in grants :: Covers(g, norm)) <==> exists i: nat :: FirstCovering(grants, i, norm)
    decreases |grants|
  {
    hide Covers;
    if grants != [] {
      LeastCovering(grants[1..], norm);
      if Covers(grants[0], norm) {
        assert FirstCovering(grants, 0, norm);
      } else if exists g | g in grants :: Covers(g, norm) {
        var g :| g in grants && Covers(g, norm);
        assert g in grants[1..];
        var i: nat :| FirstCovering(grants[1..], i, norm);
        assert FirstCovering(grants, i + 1, norm);
      }
    }
  }

  /** A refusal names the first grant whose scope contains the request, and says
      whether it is dead or read-only; without one the path is not covered. */
  lemma RefusedMeaning(requested: string, mode: string, grants: seq<Grant>, now: Time)
    requires WellFormed(requested, mode) && !Allowed(requested, mode, grants, now)
    ensures var norm := Normalize(requested).value;
            if exists g | g in grants :: Covers(g, norm) then
              exists i: nat :: FirstCovering(grants, i, norm) &&
                               Decide(requested, mode, grants, now) == Deny(Shortfall(grants[i], now))
            else Decide(requested, mode, grants, now) == Deny(NotCovered)
  {
    var norm := Normalize(requested).value;
    AllowedMeaning(requested, mode, grants, now);
    LeastCovering(grants, norm);
    if i: nat :| FirstCovering(grants, i, norm) {
      ScanRefuses(norm, mode, grants, now, i);
    } else {
      ScanUncovered(norm, mode, grants, now);
    }
  }

  /** Each grant of the one list that authorizes at t is in the other list and still
      authorizes at t'. Reordering, dropping dead or malformed grants, adding grants
      and going back in time are all instances. */
  ghost predicate Dominated(norm: string, mode: string, a: seq<Grant>, t: Time, b: seq<Grant>, t': Time) {
    forall g | g in a && Authorizes(g, norm, mode, t) :: g in b && Live(g, t')
  }

  lemma VerdictMonotone(requested: string, mode: string, a: seq<Grant>, t: Time, b: seq<Grant>, t': Time)
    requires Normalize(requested).Some? ==> Dominated(Normalize(requested).value, mode, a, t, b, t')
    ensures Allowed(requested, mode, a, t) ==> Allowed(requested, mode, b, t')
  {
    AllowedMeaning(requested, mode, a, t);
    AllowedMeaning(requested, mode, b, t');
  }

  /** The verdict depends on the set of grants only, not on their order. */
  lemma VerdictIgnoresOrder(requested: string, mode: string, a: seq<Grant>, b: seq<Grant>, now: Time)
    requires forall g :: g in a <==> g in b
    ensures Allowed(requested, mode, a, now) <==> Allowed(requested, mode, b, now)
  {
    VerdictMonotone(requested, mode, a, now, b, now);
    VerdictMonotone(requested, mode, b, now, a, now);
  }

  /** It grows with the grants and shrinks with time. */
  lemma VerdictGrowsWithGrants(requested: string, mode: string, a: seq<Grant>, more: seq<Grant>, now: Time, later: Time)
    requires now <= later
    ensures Allowed(requested, mode, a, now) ==> Allowed(requested, mode, a + more, now)
    ensures Allowed(requested, mode, a, later) ==> Allowed(requested, mode, a, now)
  {
    VerdictMonotone(requested, mode, a, now, a + more, now);
    VerdictMonotone(requested, mode, a, later, a, now);
  }

  /** The grants that are well-formed and live. */
  function Effectual(grants: seq<Grant>, now: Time): (kept: seq<Grant>)
    ensures forall g :: g in kept <==> g in grants && Live(g, now) && KnownMode(g.mode) && Normalize(g.path).Some?
  {
    if grants == [] then []
    else
      var g := grants[0];
      (if Live(g, now) && KnownMode(g.mode) && Normalize(g.path).Some? then [g] else []) + Effectual(grants[1..], now)
  }

  /** Expired grants and grants with a malformed path or mode never matter to the verdict. */
  lemma VerdictIgnoresDeadGrants(requested: string, mode: string, grants: seq<Grant>, now: Time)
    ensures Allowed(requested, mode, grants, now) <==> Allowed(requested, mode, Effectual(grants, now), now)
  {
    VerdictMonotone(requested, mode, grants, now, Effectual(grants, now), now);
    VerdictMonotone(requested, mode, Effectual(grants, now), now, grants, now);
  }
}
