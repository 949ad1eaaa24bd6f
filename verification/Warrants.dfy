/** Every transport request of the layer is backed by a grant: which grant, on which
    path, in which mode and at which clock reading. */
module Warrants {
  import opened Wrappers
  import opened Clocks
  import opened Paths
  import opened Percent
  import opened Access
  import opened Namespace
  import opened Grants
  import opened Lifecycle
  import opened Audit
  import opened Layer
  import opened LayerSafety
  import Dav
  import Texts

  // --------------------------------------------------------- what is required

  /** The paths a request touches, each with the mode that touching it takes. */
  function NeedsOf(req: Dav.Request): seq<(Dav.Path, string)> {
    match req
    case Propfind(p) => [(p, "read")]
    case Get(p) => [(p, "read")]
    case Put(p, _, _) => [(p, "write")]
    case Move(src, dst, _, _) => [(src, "write"), (dst, "write")]
    case Copy(src, dst, _, _) => [(src, "read"), (dst, "write")]
    case Delete(p, _) => [(p, "write")]
    case Mkcol(p, _) => [(p, "write")]
    case Lock(p) => [(p, "write")]
    case Unlock(p, _) => [(p, "write")]
  }

  /** Inside the instance, canonical, and outside the trash namespace. */
  predicate AddressOk(instance: string, addr: Dav.Path) {
    addr != [] && addr[0] == instance && CleanParts(addr[1..]) && !InTrash(addr[1..])
  }

  /** read or write is enough to read, only write to write. */
  predicate ModeSuffices(has: string, needs: string) {
    (has == "read" || has == "write") && (needs == "write" ==> has == "write")
  }

  predicate Meets(instance: string, need: (Dav.Path, string), w: Warrant) {
    w.instance == instance && Addresses(need.0, instance, w.norm) && ModeSuffices(w.mode, need.1)
  }

  predicate NeedsMet(instance: string, req: Dav.Request, ws: seq<Warrant>) {
    forall n | n in NeedsOf(req) :: AddressOk(instance, n.0) && exists w | w in ws :: Meets(instance, n, w)
  }

  /** The one request that takes no grant: listing where discovery is enabled. */
  predicate IsDiscovery(env: Env, instance: string, req: Dav.Request) {
    instance in env.discovery && req.Propfind? && AddressOk(instance, req.path)
  }

  // ------------------------------------------------------ what backs a warrant

  /** The item's path contains the path, both as the wall normalizes them. */
  predicate ItemCovers(it: Item, norm: string) {
    && Normalize(it.path).Some? && Normalize(it.path).value != "" && KnownMode(it.mode)
    && Normalize(norm).Some? && Inside(Normalize(it.path).value, Normalize(norm).value)
  }

  /** This item of this row authorizes what the warrant says, at its time. */
  predicate Authority(row: Row, it: Item, w: Warrant) {
    && row.state == Active && row.instance == w.instance
    && row.expiresAt.Some? && w.at < row.expiresAt.value
    && it in row.items && ItemCovers(it, w.norm) && ModeSuffices(it.mode, w.mode)
  }

  ghost predicate BackedBy(st: Store, w: Warrant) {
    exists id, it :: id in st.rows && Authority(st.rows[id], it, w)
  }

  ghost predicate ReadBetween(env: Env, t: Time, lo: nat, hi: nat) {
    exists k: nat | lo <= k < hi :: t == env.clock(k)
  }

  /** What the guard let through for some request. */
  ghost predicate Guarded(norm: string) { exists raw :: Guard(raw) == Some(norm) }

  predicate WellAddressed(instance: string, norm: string) {
    AddressOk(instance, Address(instance, norm)) && Addresses(Address(instance, norm), instance, norm)
  }

  ghost predicate WarrantFine(env: Env, st: Store, lo: nat, hi: nat, w: Warrant) {
    && BackedBy(st, w) && ReadBetween(env, w.at, lo, hi)
    && WellAddressed(w.instance, w.norm) && Guarded(w.norm)
  }

  ghost predicate CallFine(env: Env, st: Store, lo: nat, hi: nat, c: Call) {
    && c.instance in env.clients
    && (IsDiscovery(env, c.instance, c.req) || NeedsMet(c.instance, c.req, c.warrants))
    && forall w | w in c.warrants :: WarrantFine(env, st, lo, hi, w)
  }

  /** Requests were only added, each of them fine. */
  ghost predicate Grown(env: Env, st: Store, lo: nat, hi: nat, p: Plane, p': Plane) {
    p.calls <= p'.calls && forall i | |p.calls| <= i < |p'.calls| :: CallFine(env, st, lo, hi, p'.calls[i])
  }

  lemma FineLonger(env: Env, st: Store, lo: nat, hi: nat, hi': nat, c: Call)
    requires CallFine(env, st, lo, hi, c) && hi <= hi'
    ensures CallFine(env, st, lo, hi', c)
  {
    forall w | w in c.warrants ensures WarrantFine(env, st, lo, hi', w) {
      assert WarrantFine(env, st, lo, hi, w);
    }
  }

  lemma GrownTwice(env: Env, st: Store, lo: nat, hi: nat, hi': nat, p: Plane, p': Plane, p'': Plane)
    requires Grown(env, st, lo, hi, p, p') && Grown(env, st, lo, hi', p', p'') && hi <= hi'
    ensures Grown(env, st, lo, hi', p, p'')
  {
    forall i | |p.calls| <= i < |p''.calls| ensures CallFine(env, st, lo, hi', p''.calls[i]) {
      if i < |p'.calls| {
        FineLonger(env, st, lo, hi, hi', p'.calls[i]);
      }
    }
  }

  // ------------------------------------------------------- from wall to warrant

  lemma {:induction false} FlattenItemsMembers(rec: GrantRecord, items: seq<Item>, g: Grant)
    requires g in GrantsOfItems(rec, items)
    ensures exists it | it in items :: g == Grant(it.path, it.mode, rec.expiresAt, rec.id)
    decreases |items|
  {
    if g != GrantsOfItems(rec, items)[0] {
      FlattenItemsMembers(rec, items[1..], g);
      var it :| it in items[1..] && g == Grant(it.path, it.mode, rec.expiresAt, rec.id);
      assert it in items;
    } else {
      assert items[0] in items;
    }
  }

  lemma {:induction false} FlattenMembers(recs: seq<GrantRecord>, g: Grant) returns (rec: GrantRecord, it: Item)
    requires g in Flatten(recs)
    ensures rec in recs && it in rec.items && g == Grant(it.path, it.mode, rec.expiresAt, rec.id)
    decreases |recs|
  {
    if g in GrantsOfItems(recs[0], recs[0].items) {
      rec := recs[0];
      FlattenItemsMembers(rec, rec.items, g);
      it :| it in rec.items && g == Grant(it.path, it.mode, rec.expiresAt, rec.id);
    } else {
      rec, it := FlattenMembers(recs[1..], g);
    }
  }

  lemma {:induction false} FlattenItemsHas(rec: GrantRecord, items: seq<Item>, it: Item)
    requires it in items
    ensures Grant(it.path, it.mode, rec.expiresAt, rec.id) in GrantsOfItems(rec, items)
    decreases |items|
  {
    if it != items[0] {
      FlattenItemsHas(rec, items[1..], it);
    }
  }

  lemma {:induction false} FlattenHas(recs: seq<GrantRecord>, rec: GrantRecord, it: Item)
    requires rec in recs && it in rec.items
    ensures Grant(it.path, it.mode, rec.expiresAt, rec.id) in Flatten(recs)
    decreases |recs|
  {
    if rec == recs[0] {
      FlattenItemsHas(rec, rec.items, it);
    } else {
      FlattenHas(recs[1..], rec, it);
    }
  }

  /** A live row of the store with a sufficient item is among the grants the wall reads. */
  lemma BackedIsRead(env: Env, st: Store, tick: nat, w: Warrant)
    requires EnvOk(env) && StoreOk(st, env.cfg) && BackedBy(st, w)
    requires w.at == env.clock(ActiveGrants(st, env.cfg, Some(w.instance), env.clock, tick).1)
    ensures var recs := ActiveGrants(st, env.cfg, Some(w.instance), env.clock, tick).0;
            exists g | g in Flatten(recs) :: Authorizes(g, Normalize(w.norm).value, w.mode, w.at)
  {
    var (recs, k) := ActiveGrants(st, env.cfg, Some(w.instance), env.clock, tick);
    ActiveGrantsMeaning(st, env.cfg, Some(w.instance), env.clock, tick);
    hide ActiveGrants, RowOk;
    var id, it :| id in st.rows && Authority(st.rows[id], it, w);
    assert Candidate(st.rows[id], Some(w.instance)) && StateAt(st.rows[id], env.cfg, env.clock(k)) == Active;
    assert Listed(recs, id);
    var rec :| rec in recs && rec.id == id;
    assert SeenAt(rec, st, env.cfg, env.clock, tick, k);
    FlattenHas(recs, rec, it);
    ItemAuthorizes(st.rows[id], it, w, id);
  }

  lemma ItemAuthorizes(row: Row, it: Item, w: Warrant, id: nat)
    requires Authority(row, it, w)
    ensures Authorizes(Grant(it.path, it.mode, row.expiresAt, id), Normalize(w.norm).value, w.mode, w.at)
  {
    hide Normalize, Inside;
  }

  /** The wall's decision, exactly: allowed if and only if the mode is known and some item
      of some row on the instance is live at the wall's own reading, contains the path
      and suffices in mode. */
  lemma JudgeExactly(env: Env, st: Store, tick: nat, instance: string, norm: string, mode: string)
    requires EnvOk(env) && StoreOk(st, env.cfg)
    ensures var (d, at, k) := Judge(env, st, tick, instance, norm, mode);
            && tick < k && ReadBetween(env, at, tick, k)
            && (d.allowed <==> (mode == "read" || mode == "write") && BackedBy(st, Warrant(instance, norm, mode, at)))
  {
    var (recs, k) := ActiveGrants(st, env.cfg, Some(instance), env.clock, tick);
    ActiveGrantsMeaning(st, env.cfg, Some(instance), env.clock, tick);
    var at := env.clock(k);
    var grants := Flatten(recs);
    AllowedMeaning(norm, mode, grants, at);
    if Decide(norm, mode, grants, at).allowed {
      var g :| g in grants && Authorizes(g, Normalize(norm).value, mode, at);
      var rec, it := FlattenMembers(recs, g);
      assert SeenAt(rec, st, env.cfg, env.clock, tick, k) && Candidate(st.rows[rec.id], Some(instance));
      assert Authority(st.rows[rec.id], it, Warrant(instance, norm, mode, at));
    } else if BackedBy(st, Warrant(instance, norm, mode, at)) {
      BackedIsRead(env, st, tick, Warrant(instance, norm, mode, at));
      assert !WellFormed(norm, mode);
    }
  }

  /** The address of a guarded path spells it and is outside the trash. */
  lemma GuardedAddress(instance: string, path: string)
    requires Guard(path).Some?
    ensures AddressOk(instance, Address(instance, Guard(path).value))
    ensures Addresses(Address(instance, Guard(path).value), instance, Guard(path).value)
  {
    GuardedShape(path);
    OneAddress(Address(instance, Guard(path).value), instance, Guard(path).value);
    assert Address(instance, Guard(path).value)[1..] == PathOf(Guard(path).value);
  }

  lemma AuthorizeKeeps(env: Env, st: Store, tick: nat, p: Plane, instance: string, path: string, mode: string)
    requires EnvOk(env) && StoreOk(st, env.cfg) && PlaneOk(env, p)
    ensures var a := Authorize(env, st, tick, p, instance, path, mode);
            && PlaneOk(env, a.plane) && a.plane.calls == p.calls && tick <= a.tick
            && (a.granted.Ok? ==>
                  var w := a.granted.value;
                  instance in env.clients && w.instance == instance && w.mode == mode &&
                  Guard(path) == Some(w.norm) && WellAddressed(instance, w.norm) &&
                  WarrantFine(env, st, tick, a.tick, w))
  {
    if instance !in env.clients {
      RefusalKeeps(env, p, instance, path, mode, "unknown instance '" + instance + "'");
    } else if Guard(path).None? {
      RefusalKeeps(env, p, instance, path, mode, "forbidden namespace");
    } else {
      var norm := Guard(path).value;
      var (d, at, k) := Judge(env, st, tick, instance, norm, mode);
      JudgeExactly(env, st, tick, instance, norm, mode);
      GuardedAddress(instance, path);
      RefusalKeeps(env, p, instance, norm, mode, Explain(d.reason));
    }
  }

  lemma SingleNamed(verb: Verb, instance: string, norm: string)
    requires !verb.MoveFile? && !verb.Checkout? && !verb.Checkin? && WellAddressed(instance, norm)
    ensures StepNamed(instance, SingleStep(verb, instance, norm))
  {
  }

  lemma CheckoutNamed(instance: string, norm: string, who: Option<string>)
    requires WellAddressed(instance, norm)
    ensures StepNamed(instance, LockStep(instance, norm, who)) && StepNamed(instance, FetchStep(instance, norm, who))
  {
  }

  lemma CheckinNamed(instance: string, norm: string, data: Dav.Bytes, t: Dav.Token, who: Option<string>)
    requires WellAddressed(instance, norm)
    ensures StepNamed(instance, PutStep(instance, norm, data, t, who))
    ensures StepNamed(instance, UnlockStep(instance, norm, t, who))
  {
  }

  lemma MoveNamed(instance: string, src: string, dst: string)
    requires WellAddressed(instance, src) && WellAddressed(instance, dst)
    ensures StepNamed(instance, MoveStep(instance, src, dst))
  {
    assert NamesBoth(instance, src + " -> " + dst, Address(instance, src), Address(instance, dst));
  }

  /** A logged step under warrants that meet its needs. */
  lemma StepGrows(env: Env, st: Store, lo: nat, hi: nat, p: Plane, instance: string, step: Step, ws: seq<Warrant>)
    requires EnvOk(env) && PlaneOk(env, p) && StepDisciplined(p.calls, step.req) && instance in env.clients
    requires StepNamed(instance, step)
    requires IsDiscovery(env, instance, step.req) || NeedsMet(instance, step.req, ws)
    requires forall w | w in ws :: WarrantFine(env, st, lo, hi, w)
    ensures var (p', r) := AuditAnd(env, p, instance, step, ws);
            && PlaneOk(env, p') && Grown(env, st, lo, hi, p, p')
            && |p.calls| <= |p'.calls| <= |p.calls| + 1
            && (|p'.calls| > |p.calls| ==> p'.calls[|p.calls|].req == step.req)
            && (r.Ok? ==> |p'.calls| == |p.calls| + 1 && p'.calls[|p.calls|].answer == r.value)
            && (r.Err? ==> r.error.NotLogged? || r.error.Failed?)
            && (r.Ok? ==> !r.value.Refused? && (step.req.Put? ==> r.value.Done?))
  {
    AuditAndKeeps(env, p, instance, step, ws);
  }

  lemma OneWarrantMeets(instance: string, req: Dav.Request, w: Warrant)
    requires w.instance == instance && WellAddressed(instance, w.norm)
    requires forall n | n in NeedsOf(req) :: n.0 == Address(instance, w.norm) && ModeSuffices(w.mode, n.1)
    ensures NeedsMet(instance, req, [w])
  {
    assert w in [w];
    forall n | n in NeedsOf(req) ensures AddressOk(instance, n.0) && exists v | v in [w] :: Meets(instance, n, v) {
      assert Meets(instance, n, w);
    }
  }

  // -------------------------------------------------------------- verb by verb

  ghost predicate Kept(env: Env, st: Store, tick: nat, p: Plane, r: Ran) {
    PlaneOk(env, r.plane) && tick <= r.tick && Grown(env, st, tick, r.tick, p, r.plane)
  }

  lemma RunListKeeps(env: Env, st: Store, tick: nat, p: Plane, instance: string, path: string)
    requires EnvOk(env) && StoreOk(st, env.cfg) && PlaneOk(env, p)
    ensures Kept(env, st, tick, p, RunList(env, st, tick, p, instance, path))
  {
    hide PlaneOk, AuditAnd, NeedsMet, CallFine, StoreOk, EnvOk, BackedBy, ReadBetween, Guard, AddressOk, Judge;
    hide Addresses, Address;
    if instance in env.clients && Guard(path).Some? {
      var norm := Guard(path).value;
      GuardedAddress(instance, path);
      if instance in env.discovery {
        assert StepNamed(instance, DiscoveryStep(instance, norm));
        StepGrows(env, st, tick, tick, p, instance, DiscoveryStep(instance, norm), []);
      } else {
        var (d, at, k) := Judge(env, st, tick, instance, norm, READ);
        JudgeExactly(env, st, tick, instance, norm, READ);
        if d.allowed {
          var w := Warrant(instance, norm, READ, at);
          var step := SingleStep(ListDir(path), instance, norm);
          assert StepNamed(instance, step);
          OneWarrantMeets(instance, step.req, w);
          StepGrows(env, st, tick, k, p, instance, step, [w]);
        }
      }
    }
  }

  lemma RunSingleKeeps(env: Env, st: Store, tick: nat, p: Plane, instance: string, verb: Verb, path: string)
    requires !verb.MoveFile? && !verb.Checkout? && !verb.Checkin?
    requires EnvOk(env) && StoreOk(st, env.cfg) && PlaneOk(env, p)
    ensures Kept(env, st, tick, p, RunSingle(env, st, tick, p, instance, verb, path))
  {
    hide PlaneOk, Authorize, AuditAnd, NeedsMet, CallFine, StoreOk, EnvOk, BackedBy, ReadBetween, Guard, WellAddressed;
    AuthorizeKeeps(env, st, tick, p, instance, path, ModeOf(verb));
    var a := Authorize(env, st, tick, p, instance, path, ModeOf(verb));
    if a.granted.Ok? {
      var step := SingleStep(verb, instance, a.granted.value.norm);
      SingleNamed(verb, instance, a.granted.value.norm);
      OneWarrantMeets(instance, step.req, a.granted.value);
      StepGrows(env, st, tick, a.tick, a.plane, instance, step, [a.granted.value]);
    }
  }

  lemma MoveMeets(instance: string, src: Warrant, dst: Warrant)
    requires src.instance == instance && dst.instance == instance && src.mode == WRITE && dst.mode == WRITE
    requires WellAddressed(instance, src.norm) && WellAddressed(instance, dst.norm)
    ensures NeedsMet(instance, MoveStep(instance, src.norm, dst.norm).req, [src, dst])
  {
    var ws, req := [src, dst], MoveStep(instance, src.norm, dst.norm).req;
    assert src in ws && dst in ws;
    forall n | n in NeedsOf(req) ensures AddressOk(instance, n.0) && exists w | w in ws :: Meets(instance, n, w) {
      assert Meets(instance, n, src) || Meets(instance, n, dst);
    }
  }

  lemma WarrantLonger(env: Env, st: Store, lo: nat, hi: nat, lo': nat, hi': nat, w: Warrant)
    requires WarrantFine(env, st, lo, hi, w) && lo' <= lo && hi <= hi'
    ensures WarrantFine(env, st, lo', hi', w)
  {
    var k: nat :| lo <= k < hi && w.at == env.clock(k);
    assert lo' <= k < hi' && w.at == env.clock(k);
  }

  lemma RunMoveKeeps(env: Env, st: Store, tick: nat, p: Plane, instance: string, src: string, dst: string)
    requires EnvOk(env) && StoreOk(st, env.cfg) && PlaneOk(env, p)
    ensures Kept(env, st, tick, p, RunMove(env, st, tick, p, instance, src, dst))
  {
    hide PlaneOk, Authorize, AuditAnd, NeedsMet, CallFine, StoreOk, EnvOk, BackedBy, ReadBetween, Guard, WellAddressed;
    AuthorizeKeeps(env, st, tick, p, instance, src, WRITE);
    var a := Authorize(env, st, tick, p, instance, src, WRITE);
    if a.granted.Ok? {
      AuthorizeKeeps(env, st, a.tick, a.plane, instance, dst, WRITE);
      var b := Authorize(env, st, a.tick, a.plane, instance, dst, WRITE);
      if b.granted.Ok? {
        var v, w := a.granted.value, b.granted.value;
        WarrantLonger(env, st, tick, a.tick, tick, b.tick, v);
        WarrantLonger(env, st, a.tick, b.tick, tick, b.tick, w);
        MoveMeets(instance, v, w);
        MoveNamed(instance, v.norm, w.norm);
        StepGrows(env, st, tick, b.tick, b.plane, instance, MoveStep(instance, v.norm, w.norm), [v, w]);
      }
    }
  }

  /** The second step may follow the first: it carries no token, or unlocks after a put. */
  predicate MayFollow(first: Dav.Request, second: Dav.Request) {
    match second
    case Get(_) => true
    case Unlock(_, t) => t.holder.Nobody? || (first.Put? && first.token == Some(t))
    case _ => false
  }

  /** Two logged steps under one warrant, and which requests they add. */
  lemma InTurnGrows(env: Env, st: Store, lo: nat, hi: nat, p: Plane, instance: string, first: Step, second: Step,
                    w: Warrant)
    requires EnvOk(env) && PlaneOk(env, p) && instance in env.clients
    requires (first.req.Lock? || first.req.Put?) && MayFollow(first.req, second.req)
    requires NeedsMet(instance, first.req, [w]) && NeedsMet(instance, second.req, [w])
    requires WarrantFine(env, st, lo, hi, w) && StepNamed(instance, first) && StepNamed(instance, second)
    ensures var (p', r1, r2) := InTurn(env, p, instance, first, second, [w]);
            var n, m := |p.calls|, |p'.calls|;
            && PlaneOk(env, p') && Grown(env, st, lo, hi, p, p') && n <= m <= n + 2
            && (m > n ==> p'.calls[n].req == first.req)
            && (m > n + 1 ==> p'.calls[n + 1].req == second.req && !p'.calls[n].answer.Refused? &&
                              (first.req.Put? ==> p'.calls[n].answer.Done?))
            && (r2.Err? ==> r2.error.NotLogged? || r2.error.Failed?)
            && (r2.Ok? ==> r1.Ok? && m == n + 2 && p'.calls[n].answer == r1.value && p'.calls[n + 1].answer == r2.value)
  {
    hide PlaneOk, AuditAnd, WarrantFine, CallFine, NeedsMet, EnvOk, StepNamed;
    StepGrows(env, st, lo, hi, p, instance, first, [w]);
    var (p1, r1) := AuditAnd(env, p, instance, first, [w]);
    if r1.Ok? {
      assert StepDisciplined(p1.calls, second.req);
      StepGrows(env, st, lo, hi, p1, instance, second, [w]);
      var (p2, r2) := AuditAnd(env, p1, instance, second, [w]);
      GrownTwice(env, st, lo, hi, hi, p, p1, p2);
      assert p2.calls[|p.calls|] == p1.calls[|p.calls|];
    }
  }

  lemma RunCheckoutKeeps(env: Env, st: Store, tick: nat, p: Plane, instance: string, path: string, who: Option<string>)
    requires EnvOk(env) && StoreOk(st, env.cfg) && PlaneOk(env, p)
    ensures var r := RunCheckout(env, st, tick, p, instance, path, who);
            && Kept(env, st, tick, p, r)
            && (r.outcome.CheckedOut? ==>
                  var n := |p.calls|;
                  |r.plane.calls| == n + 2 && Guard(path).Some? &&
                  r.plane.calls[n].req.Lock? && Addresses(r.plane.calls[n].req.path, instance, Guard(path).value) &&
                  r.plane.calls[n].answer == Dav.Locked(r.outcome.token) &&
                  r.plane.calls[n + 1].req == Dav.Get(r.plane.calls[n].req.path) &&
                  r.plane.calls[n + 1].answer == Dav.Content(r.outcome.content))
  {
    hide PlaneOk, Authorize, AuditAnd, WarrantFine, NeedsMet, InTurn, Guard, CallFine, StoreOk, EnvOk;
    AuthorizeKeeps(env, st, tick, p, instance, path, WRITE);
    var a := Authorize(env, st, tick, p, instance, path, WRITE);
    if a.granted.Ok? {
      var w := a.granted.value;
      var lock, fetch := LockStep(instance, w.norm, who), FetchStep(instance, w.norm, who);
      CheckoutNamed(instance, w.norm, who);
      OneWarrantMeets(instance, lock.req, w);
      OneWarrantMeets(instance, fetch.req, w);
      InTurnGrows(env, st, tick, a.tick, a.plane, instance, lock, fetch, w);
      var (p', r1, r2) := InTurn(env, a.plane, instance, lock, fetch, [w]);
      assert RunCheckout(env, st, tick, p, instance, path, who) == Ran(a.tick, p', Fetched(r1, r2));
    }
  }

  lemma RunCheckinKeeps(env: Env, st: Store, tick: nat, p: Plane, instance: string, path: string, data: Dav.Bytes,
                        t: Dav.Token, who: Option<string>)
    requires EnvOk(env) && StoreOk(st, env.cfg) && PlaneOk(env, p)
    ensures var r := RunCheckin(env, st, tick, p, instance, path, data, t, who);
            && Kept(env, st, tick, p, r)
            && |p.calls| <= |r.plane.calls| <= |p.calls| + 2
            && (|r.plane.calls| > |p.calls| ==>
                  var put := r.plane.calls[|p.calls|];
                  put.req.Put? && put.req.data == data &&
                  if t.holder.Nobody? then put.req.token == None else PutWith(put, t))
            && (|r.plane.calls| == |p.calls| + 2 ==>
                  r.plane.calls[|p.calls|].answer.Done? && r.plane.calls[|p.calls| + 1].req.Unlock? &&
                  r.plane.calls[|p.calls| + 1].req.held == t)
            && (r.outcome.Success? ==> |r.plane.calls| == |p.calls| + 2)
  {
    hide PlaneOk, Authorize, AuditAnd, WarrantFine, NeedsMet, InTurn, Guard, CallFine, StoreOk, EnvOk;
    AuthorizeKeeps(env, st, tick, p, instance, path, WRITE);
    var a := Authorize(env, st, tick, p, instance, path, WRITE);
    if a.granted.Ok? {
      var w := a.granted.value;
      var put, unlock := PutStep(instance, w.norm, data, t, who), UnlockStep(instance, w.norm, t, who);
      CheckinNamed(instance, w.norm, data, t, who);
      OneWarrantMeets(instance, put.req, w);
      OneWarrantMeets(instance, unlock.req, w);
      InTurnGrows(env, st, tick, a.tick, a.plane, instance, put, unlock, w);
      var (p', r1, r2) := InTurn(env, a.plane, instance, put, unlock, [w]);
      assert RunCheckin(env, st, tick, p, instance, path, data, t, who) == Ran(a.tick, p', Finish(r2));
    }
  }

  /** Every verb keeps the layer's invariant and only makes requests that grants of the
      store back at a reading within the verb. */
  lemma RunKeeps(env: Env, st: Store, tick: nat, p: Plane, instance: string, verb: Verb)
    requires EnvOk(env) && StoreOk(st, env.cfg) && PlaneOk(env, p)
    ensures Kept(env, st, tick, p, Run(env, st, tick, p, instance, verb))
  {
    match verb
    case ListDir(path) => RunListKeeps(env, st, tick, p, instance, path);
    case MoveFile(src, dst) => RunMoveKeeps(env, st, tick, p, instance, src, dst);
    case Checkout(path, who) => RunCheckoutKeeps(env, st, tick, p, instance, path, who);
    case Checkin(path, data, t, who) => RunCheckinKeeps(env, st, tick, p, instance, path, data, t, who);
    case ReadFile(path, who) => RunSingleKeeps(env, st, tick, p, instance, verb, path);
    case WriteFile(path, data, who) => RunSingleKeeps(env, st, tick, p, instance, verb, path);
    case Trash(path) => RunSingleKeeps(env, st, tick, p, instance, verb, path);
    case MakeDir(path) => RunSingleKeeps(env, st, tick, p, instance, verb, path);
  }

  // ---------------------------------------------------------------- checkouts

  /** While no put with the token follows a lock that was read after, the bytes read are
      the content and the lock is held. */
  lemma ReadUnderLock(env: Env, p: Plane, i: nat, j: nat, t: Dav.Token)
    requires PlaneOk(env, p) && TookLock(p.calls, i, t) && i < j < |p.calls|
    requires p.calls[j].req == Dav.Get(p.calls[i].req.path) && p.calls[j].answer.Content?
    requires !PutSince(p.calls, i, t)
    ensures Dav.Holds(p.server, p.calls[i].req.path, t)
    ensures Dav.ContentAt(p.server, p.calls[i].req.path) == Some(p.calls[j].answer.data)
  {
    assert LockKept(p.calls, p.server, i, t);
  }

  /** What a checkout returns is the file's content under a lock that is held. */
  lemma CheckoutReturnsLockedContent(env: Env, st: Store, tick: nat, p: Plane, instance: string, path: string,
                                     who: Option<string>)
    requires EnvOk(env) && StoreOk(st, env.cfg) && PlaneOk(env, p)
    requires RunCheckout(env, st, tick, p, instance, path, who).outcome.CheckedOut?
    ensures var r := RunCheckout(env, st, tick, p, instance, path, who);
            Guard(path).Some? && |r.plane.calls| == |p.calls| + 2 && r.plane.calls[|p.calls|].req.Lock? &&
            var at := r.plane.calls[|p.calls|].req.path;
            && Addresses(at, instance, Guard(path).value)
            && TookLock(r.plane.calls, |p.calls|, r.outcome.token)
            && Dav.Holds(r.plane.server, at, r.outcome.token)
            && Dav.ContentAt(r.plane.server, at) == Some(r.outcome.content)
  {
    hide PlaneOk, RunCheckout, Guard, CallFine, StoreOk, EnvOk, Dav.Holds, Dav.ContentAt;
    RunCheckoutKeeps(env, st, tick, p, instance, path, who);
    var r := RunCheckout(env, st, tick, p, instance, path, who);
    var n := |p.calls|;
    assert !PutSince(r.plane.calls, n, r.outcome.token);
    ReadUnderLock(env, r.plane, n, n + 1, r.outcome.token);
  }

  lemma UnlockSinceLonger(calls: seq<Call>, longer: seq<Call>, i: nat, path: Dav.Path, t: Dav.Token)
    requires calls <= longer && i < |calls| && UnlockSince(longer, i, path, t)
    ensures UnlockSince(calls, i, path, t) || exists j | |calls| <= j < |longer| :: UnlockReached(longer[j], path, t)
  {
    var j :| i < j < |longer| && UnlockReached(longer[j], path, t);
    if j < |calls| {
      assert UnlockReached(calls[j], path, t);
    }
  }

  /** A checkin that fails leaves the lock held wherever it failed: at the wall, at either
      log entry, or at a put that was refused, lost or unanswered. The lock can only be
      gone when the put was confirmed and an unlock of the locked path, or of something
      below it, arrived after it. */
  lemma FailedCheckinKeepsLock(env: Env, st: Store, tick: nat, p: Plane, instance: string, path: string,
                               data: Dav.Bytes, t: Dav.Token, who: Option<string>, i: nat)
    requires EnvOk(env) && StoreOk(st, env.cfg) && PlaneOk(env, p)
    requires TookLock(p.calls, i, t) && !UnlockSince(p.calls, i, p.calls[i].req.path, t)
    ensures var after := RunCheckin(env, st, tick, p, instance, path, data, t, who).plane;
            var n, locked := |p.calls|, p.calls[i].req.path;
            && p.calls <= after.calls
            && (Dav.Holds(after.server, locked, t) ||
                (|after.calls| == n + 2 && after.calls[n].req.Put? && after.calls[n].answer.Done? &&
                 UnlockReached(after.calls[n + 1], locked, t)))
  {
    hide RunCheckin, WrittenBefore, WriterOk, Dav.ServerOk, CallFine, StoreOk, EnvOk, Dav.Holds, ReadsCurrent;
    RunCheckinKeeps(env, st, tick, p, instance, path, data, t, who);
    var after := RunCheckin(env, st, tick, p, instance, path, data, t, who).plane;
    assert TookLock(after.calls, i, t) && LockKept(after.calls, after.server, i, t);
    if UnlockSince(after.calls, i, p.calls[i].req.path, t) {
      UnlockSinceLonger(p.calls, after.calls, i, p.calls[i].req.path, t);
    }
  }

  // --------------------------------------------- the path that was authorized

  lemma NormalizedAgain(raw: string, p: string)
    requires Normalize(raw) == Some(p) && NoEscape(p) && Normalize(p).Some?
    ensures Normalize(p) == Some(p)
  {
    NormalizeAgain(raw);
  }

  /** The wall normalizes a second time. For a request that settles within the decoding
      cap the path it authorized is the path handed to the transport, and whenever the
      wall allows, the two are the same exactly if the path has no escape left. */
  lemma AuthorizedPathIsTransportPath(path: string, mode: string, grants: seq<Grant>, now: Time)
    requires Guard(path).Some? && Decide(Guard(path).value, mode, grants, now).allowed
    ensures var norm := Guard(path).value;
            && Normalize(path) == Some(norm)
            && (Normalize(norm) == Some(norm) <==> NoEscape(norm))
            && (FullyDecoded(path) ==> Normalize(norm) == Some(norm))
  {
    var norm := Guard(path).value;
    GuardedShape(path);
    AllowedMeaning(norm, mode, grants, now);
    assert norm != "" by {
      assert Normalize("").None?;
    }
    NormalizeAgain(path);
    NormalizedShape(path);
  }

  /** Past the cap the two part: an input with up to four layers more than the cap takes
      off is handed to the transport still encoded, while the wall decodes it to the end
      and lets a grant on another path authorize it. */
  lemma WallDecodesFurther(k: nat, now: Time, id: nat)
    requires k < MAX_DECODE_PASSES
    ensures Guard(Nested(k + 4)) == Some(Nested(k)) && Nested(k) != "a"
    ensures Decide(Nested(k), READ, [Grant("a", READ, Some(now + 1), id)], now) == Decision(true, Some(id), Permitted)
  {
    CapLeavesEscape(k);
    NestedOpens(k);
    LetterGrant(now, id);
    hide Normalize, Nested;
    NotForbidden(Nested(k));
    assert KnownMode(READ);
  }

  lemma LetterGrant(now: Time, id: nat)
    ensures Authorizes(Grant("a", READ, Some(now + 1), id), "a", READ, now)
  {
    LetterIsNormal();
  }

  lemma NotForbidden(path: string)
    requires path != "" && path[0] == '%'
    ensures !Forbidden(path)
  {
    assert Texts.Lower(path)[0] == '%';
  }

  /** Between fully decoded paths the warrant's containment is component prefixing. */
  lemma CoversIsPrefix(it: Item, norm: string)
    requires ItemCovers(it, norm) && ItemOk(it) && Guarded(norm)
    requires NoEscape(it.path) && NoEscape(norm)
    ensures PathOf(it.path) <= PathOf(norm) && it.path != ""
  {
    var a :| Normalize(a) == Some(it.path);
    var b :| Guard(b) == Some(norm);
    GuardedShape(b);
    assert norm != "" by {
      assert Normalize("").None?;
    }
    NormalizedAgain(a, it.path);
    NormalizedAgain(b, norm);
    InsideIsPrefix(it.path, norm);
  }
}
