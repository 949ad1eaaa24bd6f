/** What the verbs do to the files: the effect behind a success, and that a refusal has
    none. Other clients may act before each request. */
module Effects {
  import opened Wrappers
  import opened Paths
  import opened Namespace
  import opened Grants
  import opened Audit
  import opened Layer
  import opened LayerSafety
  import opened Warrants
  import Dav

  /** The server as the next request meets it. */
  function Met(env: Env, p: Plane): Dav.Server { Dav.ServeAll(p.server, env.foreign(p.sent)) }

  ghost predicate SameOutside(before: Dav.Server, after: Dav.Server, at: Dav.Path) {
    && (forall f: Dav.Path | !(at <= f) :: Dav.ContentAt(after, f) == Dav.ContentAt(before, f))
    && (forall g: Dav.Path | !(at <= g) :: g in after.folders <==> g in before.folders)
  }

  /** No file or folder is at p or below. */
  predicate Vacant(s: Dav.Server, p: Dav.Path) {
    (forall f | f in s.files :: !(p <= f)) && (forall g | g in s.folders :: !(p <= g))
  }

  predicate NoContact(p: Plane, p': Plane) {
    p'.server == p.server && p'.sent == p.sent && p'.calls == p.calls
  }

  lemma LoggingContactsNobody(env: Env, p: Plane, q: Audit.Request)
    ensures NoContact(p, Logged(env, p, q).0)
  {
  }

  lemma AuthorizeContactsNobody(env: Env, st: Store, tick: nat, p: Plane, instance: string, path: string, mode: string)
    ensures var a := Authorize(env, st, tick, p, instance, path, mode);
            NoContact(p, a.plane) &&
            (a.granted.Ok? ==> Guard(path).Some? && a.granted.value.norm == Guard(path).value)
  {
    hide Guard, Judge, Record;
  }

  /** A logged step that succeeded was served once, after what the others did. */
  lemma AuditAndServes(env: Env, p: Plane, instance: string, step: Step, ws: seq<Warrant>)
    ensures var (p', r) := AuditAnd(env, p, instance, step, ws);
            && (r.Ok? ==> (p'.server, r.value) == Dav.Serve(Met(env, p), Dav.Broker, step.req) && p'.sent == p.sent + 1)
            && (r == Err(NotLogged) ==> NoContact(p, p'))
            && (r.Err? ==> r.error.NotLogged? || r.error.Failed?)
  {
    LoggingContactsNobody(env, p, EntryOf(env, instance, step));
    hide Logged, Dav.Serve;
  }

  lemma FinishedStep(r: Result<Dav.Answer, Outcome>)
    requires r.Err? ==> r.error.NotLogged? || r.error.Failed?
    ensures Finish(r).Success? <==> r.Ok?
    ensures !Finish(r).Denied?
  {
  }

  /** What a served request means. */
  lemma ServedMeans(s: Dav.Server, req: Dav.Request)
    ensures var (s', a) := Dav.Serve(s, Dav.Broker, req);
            a.Refused? ||
            match req
            case Get(p) => s' == s && Dav.ContentAt(s, p) == Some(a.data)
            case Propfind(_) => s' == s
            case Put(p, data, _) => Dav.ContentAt(s', p) == Some(data) && SameOutside(s, s', p)
            case Delete(p, _) => Vacant(s', p) && SameOutside(s, s', p)
            case Mkcol(p, _) => Vacant(s, p) && s' == s.(folders := s.folders + {p})
            case _ => true
  {
    if req.Mkcol? {
      VacantUnless(s, req.path);
    }
  }

  /** The outcome of a successful verb on the address it is for, from one server to the next. */
  ghost predicate VerbEffect(verb: Verb, answer: Dav.Answer, s: Dav.Server, s': Dav.Server, at: Dav.Path)
    requires !verb.MoveFile? && !verb.Checkout? && !verb.Checkin?
  {
    && SameOutside(s, s', at)
    && match verb
       case ReadFile(_, _) => answer.Content? && Dav.ContentAt(s', at) == Some(answer.data) && s' == s
       case WriteFile(_, data, _) => Dav.ContentAt(s', at) == Some(data)
       case Trash(_) => Vacant(s', at)
       case MakeDir(_) => Vacant(s, at) && s' == s.(folders := s.folders + {at})
       case ListDir(_) => s' == s
  }

  /** read returns the content, write stores the bytes, trash removes the file and all
      below it, mkdir makes the folder where nothing was, list changes nothing; none
      touches anything outside the path. */
  lemma SingleEffect(env: Env, st: Store, tick: nat, p: Plane, instance: string, verb: Verb, path: string)
    requires !verb.MoveFile? && !verb.Checkout? && !verb.Checkin?
    requires RunSingle(env, st, tick, p, instance, verb, path).outcome.Success?
    ensures var r := RunSingle(env, st, tick, p, instance, verb, path);
            Guard(path).Some? &&
            exists at :: Addresses(at, instance, Guard(path).value) &&
                         VerbEffect(verb, r.outcome.answer, Met(env, p), r.plane.server, at)
  {
    hide Authorize, AuditAnd, Guard, Dav.Serve, Dav.ServeAll;
    AuthorizeContactsNobody(env, st, tick, p, instance, path, ModeOf(verb));
    var a := Authorize(env, st, tick, p, instance, path, ModeOf(verb));
    var step := SingleStep(verb, instance, a.granted.value.norm);
    AuditAndServes(env, a.plane, instance, step, [a.granted.value]);
    FinishedStep(AuditAnd(env, a.plane, instance, step, [a.granted.value]).1);
    NotRefused(env, a.plane, instance, step, [a.granted.value]);
    ServedMeans(Met(env, p), step.req);
    GetAnswers(Met(env, p), step.req);
    GuardedAddress(instance, path);
    hide Addresses, AddressOk;
    assert Addresses(Address(instance, Guard(path).value), instance, Guard(path).value);
  }

  lemma NotRefused(env: Env, p: Plane, instance: string, step: Step, ws: seq<Warrant>)
    ensures var (p', r) := AuditAnd(env, p, instance, step, ws);
            r.Ok? ==> !r.value.Refused?
  {
    hide Logged, Transport;
  }

  lemma GetAnswers(s: Dav.Server, req: Dav.Request)
    ensures req.Get? ==> Dav.Serve(s, Dav.Broker, req).1.Content? || Dav.Serve(s, Dav.Broker, req).1.Refused?
  {
  }

  function FileAt(files: map<Dav.Path, Dav.Bytes>, f: Dav.Path): Option<Dav.Bytes> {
    if f in files then Some(files[f]) else None
  }

  /** The files below src are now those below dst, none is left below src, and the rest
      is as it was. */
  ghost predicate FilesRelocated(before: map<Dav.Path, Dav.Bytes>, after: map<Dav.Path, Dav.Bytes>, src: Dav.Path,
                                 dst: Dav.Path)
  {
    && (forall f | f in before && src <= f :: FileAt(after, dst + f[|src|..]) == Some(before[f]))
    && (forall f | f in after && dst <= f :: FileAt(before, src + f[|dst|..]) == Some(after[f]))
    && (forall f | f in after :: !(src <= f))
    && (forall f: Dav.Path | !(src <= f) && !(dst <= f) :: FileAt(after, f) == FileAt(before, f))
  }

  /** The same for folders. */
  ghost predicate FoldersRelocated(before: set<Dav.Path>, after: set<Dav.Path>, src: Dav.Path, dst: Dav.Path) {
    && (forall g | g in before && src <= g :: dst + g[|src|..] in after)
    && (forall g | g in after && dst <= g :: src + g[|dst|..] in before)
    && (forall g | g in after :: !(src <= g))
    && (forall g: Dav.Path | !(src <= g) && !(dst <= g) :: g in after <==> g in before)
  }

  ghost predicate Relocated(before: Dav.Server, after: Dav.Server, src: Dav.Path, dst: Dav.Path) {
    FilesRelocated(before.files, after.files, src, dst) && FoldersRelocated(before.folders, after.folders, src, dst)
  }

  lemma CopiedMeaning(files: map<Dav.Path, Dav.Bytes>, src: Dav.Path, dst: Dav.Path, f: Dav.Path)
    ensures FileAt(Dav.Copied(files, src, dst), f) == if dst <= f then FileAt(files, src + f[|dst|..]) else None
  {
    if dst <= f && src + f[|dst|..] in files {
      var g := src + f[|dst|..];
      assert g[|src|..] == f[|dst|..] && dst + f[|dst|..] == f;
      assert src <= g && f == dst + g[|src|..];
    }
  }

  lemma GraftedFiles(files: map<Dav.Path, Dav.Bytes>, base: map<Dav.Path, Dav.Bytes>, src: Dav.Path, dst: Dav.Path)
    requires Dav.Apart(src, dst)
    requires forall f :: FileAt(base, f) == if src <= f || dst <= f then None else FileAt(files, f)
    ensures FilesRelocated(files, base + Dav.Copied(files, src, dst), src, dst)
  {
    hide Dav.Copied;
    var copied := Dav.Copied(files, src, dst);
    var after := base + copied;
    forall f: Dav.Path ensures FileAt(after, f) == if dst <= f then FileAt(files, src + f[|dst|..])
                                         else if src <= f then None else FileAt(files, f) {
      CopiedMeaning(files, src, dst, f);
      assert FileAt(after, f) == if f in copied then FileAt(copied, f) else FileAt(base, f);
    }
    forall f | f in files && src <= f ensures FileAt(after, dst + f[|src|..]) == Some(files[f]) {
      assert (dst + f[|src|..])[|dst|..] == f[|src|..] && src + f[|src|..] == f;
    }
    forall f | f in after ensures !(src <= f) && (dst <= f ==> FileAt(files, src + f[|dst|..]) == Some(after[f])) {
      assert FileAt(after, f) == Some(after[f]);
      if dst <= f && src <= f {
        Comparable(src, dst, f);
      }
    }
  }

  lemma GraftedFolders(folders: set<Dav.Path>, base: set<Dav.Path>, src: Dav.Path, dst: Dav.Path)
    requires Dav.Apart(src, dst)
    requires forall g :: g in base <==> g in folders && !(src <= g) && !(dst <= g)
    ensures FoldersRelocated(folders, base + Dav.CopiedFolders(folders, src, dst), src, dst)
  {
    var after := base + Dav.CopiedFolders(folders, src, dst);
    forall g | g in folders && src <= g ensures (dst + g[|src|..])[|dst|..] == g[|src|..] && src + g[|src|..] == g {
    }
    forall g | g in after ensures !(src <= g) {
      if dst <= g && src <= g {
        Comparable(src, dst, g);
      }
    }
  }

  lemma MoveServed(s: Dav.Server, src: Dav.Path, dst: Dav.Path)
    ensures var (s', a) := Dav.Serve(s, Dav.Broker, Dav.Move(src, dst, false, None));
            !a.Refused? ==> Relocated(s, s', src, dst) && Vacant(s, dst)
  {
    var (s', a) := Dav.Serve(s, Dav.Broker, Dav.Move(src, dst, false, None));
    if !a.Refused? {
      var base := Dav.Pruned(Dav.Pruned(s, dst), src);
      GraftedFiles(s.files, base.files, src, dst);
      GraftedFolders(s.folders, base.folders, src, dst);
      VacantUnless(s, dst);
    }
  }

  lemma VacantUnless(s: Dav.Server, p: Dav.Path)
    ensures Vacant(s, p) <==> !Dav.Exists(s, p)
  {
    forall f | f in s.files || f in s.folders ensures p <= f <==> f == p || p < f {
    }
  }

  lemma Comparable(a: Dav.Path, b: Dav.Path, f: Dav.Path)
    requires a <= f && b <= f
    ensures a <= b || b <= a
  {
    if |a| <= |b| {
      assert b[..|a|] == f[..|a|] == a;
    } else {
      assert a[..|b|] == f[..|b|] == b;
    }
  }

  /** A successful move relocates the whole tree, over nothing that was there. */
  lemma MoveEffect(env: Env, st: Store, tick: nat, p: Plane, instance: string, src: string, dst: string)
    requires RunMove(env, st, tick, p, instance, src, dst).outcome.Success?
    ensures var r, s := RunMove(env, st, tick, p, instance, src, dst), Met(env, p);
            Guard(src).Some? && Guard(dst).Some? &&
            exists from, to :: Addresses(from, instance, Guard(src).value) &&
                               Addresses(to, instance, Guard(dst).value) &&
                               Relocated(s, r.plane.server, from, to) && Vacant(s, to)
  {
    hide Authorize, AuditAnd, Guard, Dav.Serve, Dav.ServeAll, Relocated;
    AuthorizeContactsNobody(env, st, tick, p, instance, src, WRITE);
    var a := Authorize(env, st, tick, p, instance, src, WRITE);
    AuthorizeContactsNobody(env, st, a.tick, a.plane, instance, dst, WRITE);
    var b := Authorize(env, st, a.tick, a.plane, instance, dst, WRITE);
    var step, ws := MoveStep(instance, a.granted.value.norm, b.granted.value.norm), [a.granted.value, b.granted.value];
    AuditAndServes(env, b.plane, instance, step, ws);
    FinishedStep(AuditAnd(env, b.plane, instance, step, ws).1);
    NotRefused(env, b.plane, instance, step, ws);
    MoveServed(Met(env, p), Address(instance, a.granted.value.norm), Address(instance, b.granted.value.norm));
    GuardedAddress(instance, src);
    GuardedAddress(instance, dst);
  }

  lemma UnlockServed(s: Dav.Server, path: Dav.Path, t: Dav.Token)
    ensures var (s', a) := Dav.Serve(s, Dav.Broker, Dav.Unlock(path, t));
            s'.files == s.files && (Dav.ServerOk(s) && Dav.Holds(s, path, t) ==> !a.Refused? && path !in s'.locks)
  {
    if Dav.Holds(s, path, t) {
      assert path[..|path|] == path;
    }
  }

  /** A successful checkin under a lock the broker holds stores the bytes and releases the
      lock: between its two requests nobody else could change them. */
  lemma CheckinEffect(env: Env, st: Store, tick: nat, p: Plane, instance: string, path: string, data: Dav.Bytes,
                      t: Dav.Token, who: Option<string>, at: Dav.Path)
    requires EnvOk(env) && Dav.ServerOk(p.server) && Guard(path).Some? && t.holder.Broker?
    requires Addresses(at, instance, Guard(path).value) && Dav.Holds(p.server, at, t)
    requires RunCheckin(env, st, tick, p, instance, path, data, t, who).outcome.Success?
    ensures var r := RunCheckin(env, st, tick, p, instance, path, data, t, who);
            Dav.ContentAt(r.plane.server, at) == Some(data) && at !in r.plane.server.locks
  {
    GuardedShape(path);
    OneAddress(at, instance, Guard(path).value);
    hide Authorize, AuditAnd, Guard, Dav.Serve, Dav.ServeAll, Dav.Holds, Dav.ContentAt, Dav.ServerOk;
    AuthorizeContactsNobody(env, st, tick, p, instance, path, WRITE);
    var a := Authorize(env, st, tick, p, instance, path, WRITE);
    var norm, ws := a.granted.value.norm, [a.granted.value];
    var put, unlock := PutStep(instance, norm, data, t, who), UnlockStep(instance, norm, t, who);
    var (p1, r1) := AuditAnd(env, a.plane, instance, put, ws);
    AuditAndServes(env, a.plane, instance, put, ws);
    NotRefused(env, a.plane, instance, put, ws);
    var (p2, r2) := AuditAnd(env, p1, instance, unlock, ws);
    AuditAndServes(env, p1, instance, unlock, ws);
    FinishedStep(r2);
    PutKeepsLock(env, a.plane, p1.server, at, data, t);
    Dav.BurstStable(p1.server, env.foreign(p1.sent), at, t);
    UnlockServed(Met(env, p1), at, t);
    ContentByFiles(Met(env, p1), p2.server, at);
  }

  lemma ContentByFiles(s: Dav.Server, s': Dav.Server, at: Dav.Path)
    requires s'.files == s.files
    ensures Dav.ContentAt(s', at) == Dav.ContentAt(s, at)
  {
  }

  lemma PutKeepsLock(env: Env, p: Plane, s': Dav.Server, at: Dav.Path, data: Dav.Bytes, t: Dav.Token)
    requires EnvOk(env) && Dav.ServerOk(p.server) && t.holder.Broker? && Dav.Holds(p.server, at, t)
    requires var (s, a) := Dav.Serve(Met(env, p), Dav.Broker, Dav.Put(at, data, Some(t))); s' == s && !a.Refused?
    ensures Dav.ServerOk(s') && Dav.Holds(s', at, t) && Dav.ContentAt(s', at) == Some(data)
  {
    Dav.BurstStable(p.server, env.foreign(p.sent), at, t);
    Dav.ServeKeepsOk(Met(env, p), Dav.Broker, Dav.Put(at, data, Some(t)));
  }

  lemma InTurnNotDenied(env: Env, p: Plane, instance: string, first: Step, second: Step, ws: seq<Warrant>)
    ensures var (p', r1, r2) := InTurn(env, p, instance, first, second, ws);
            !Fetched(r1, r2).Denied? && !Finish(r2).Denied?
  {
    hide AuditAnd;
    AuditAndServes(env, p, instance, first, ws);
    var (p1, r1) := AuditAnd(env, p, instance, first, ws);
    AuditAndServes(env, p1, instance, second, ws);
  }

  lemma DeniedSingle(env: Env, st: Store, tick: nat, p: Plane, instance: string, verb: Verb, path: string)
    requires !verb.MoveFile? && !verb.Checkout? && !verb.Checkin?
    ensures var r := RunSingle(env, st, tick, p, instance, verb, path);
            r.outcome.Denied? ==> NoContact(p, r.plane)
  {
    hide Authorize, AuditAnd, Finish;
    AuthorizeContactsNobody(env, st, tick, p, instance, path, ModeOf(verb));
    var a := Authorize(env, st, tick, p, instance, path, ModeOf(verb));
    if a.granted.Ok? {
      var step := SingleStep(verb, instance, a.granted.value.norm);
      AuditAndServes(env, a.plane, instance, step, [a.granted.value]);
      FinishedStep(AuditAnd(env, a.plane, instance, step, [a.granted.value]).1);
    }
  }

  lemma DeniedList(env: Env, st: Store, tick: nat, p: Plane, instance: string, path: string)
    ensures var r := RunList(env, st, tick, p, instance, path);
            r.outcome.Denied? ==> r.plane == p
  {
    hide AuditAnd, Finish, Judge, Guard;
    if Guard(path).Some? {
      var norm := Guard(path).value;
      AuditAndServes(env, p, instance, DiscoveryStep(instance, norm), []);
      FinishedStep(AuditAnd(env, p, instance, DiscoveryStep(instance, norm), []).1);
      var (d, at, k) := Judge(env, st, tick, instance, norm, READ);
      var step, ws := SingleStep(ListDir(path), instance, norm), [Warrant(instance, norm, READ, at)];
      AuditAndServes(env, p, instance, step, ws);
      FinishedStep(AuditAnd(env, p, instance, step, ws).1);
    }
  }

  lemma DeniedMove(env: Env, st: Store, tick: nat, p: Plane, instance: string, src: string, dst: string)
    ensures var r := RunMove(env, st, tick, p, instance, src, dst);
            r.outcome.Denied? ==> NoContact(p, r.plane)
  {
    hide Authorize, AuditAnd, Finish, Guard;
    AuthorizeContactsNobody(env, st, tick, p, instance, src, WRITE);
    var a := Authorize(env, st, tick, p, instance, src, WRITE);
    if a.granted.Ok? {
      AuthorizeContactsNobody(env, st, a.tick, a.plane, instance, dst, WRITE);
      var b := Authorize(env, st, a.tick, a.plane, instance, dst, WRITE);
      if b.granted.Ok? {
        var step, ws := MoveStep(instance, a.granted.value.norm, b.granted.value.norm), [a.granted.value,
              b.granted.value];
        AuditAndServes(env, b.plane, instance, step, ws);
        FinishedStep(AuditAnd(env, b.plane, instance, step, ws).1);
      }
    }
  }

  lemma DeniedCheckout(env: Env, st: Store, tick: nat, p: Plane, instance: string, path: string, who: Option<string>)
    ensures var r := RunCheckout(env, st, tick, p, instance, path, who);
            r.outcome.Denied? ==> NoContact(p, r.plane)
  {
    hide Authorize, InTurn, Finish, Fetched, Guard;
    AuthorizeContactsNobody(env, st, tick, p, instance, path, WRITE);
    var a := Authorize(env, st, tick, p, instance, path, WRITE);
    if a.granted.Ok? {
      var norm := a.granted.value.norm;
      InTurnNotDenied(env, a.plane, instance, LockStep(instance, norm, who), FetchStep(instance, norm, who),
            [a.granted.value]);
    }
  }

  lemma DeniedCheckin(env: Env, st: Store, tick: nat, p: Plane, instance: string, path: string, data: Dav.Bytes,
                      t: Dav.Token, who: Option<string>)
    ensures var r := RunCheckin(env, st, tick, p, instance, path, data, t, who);
            r.outcome.Denied? ==> NoContact(p, r.plane)
  {
    hide Authorize, InTurn, Finish, Fetched, Guard;
    AuthorizeContactsNobody(env, st, tick, p, instance, path, WRITE);
    var a := Authorize(env, st, tick, p, instance, path, WRITE);
    if a.granted.Ok? {
      var norm := a.granted.value.norm;
      InTurnNotDenied(env, a.plane, instance, PutStep(instance, norm, data, t, who), UnlockStep(instance, norm, t, who),
                      [a.granted.value]);
    }
  }

  /** A verb that is denied has contacted no server. */
  lemma DeniedTouchesNothing(env: Env, st: Store, tick: nat, p: Plane, instance: string, verb: Verb)
    requires Run(env, st, tick, p, instance, verb).outcome.Denied?
    ensures NoContact(p, Run(env, st, tick, p, instance, verb).plane)
  {
    hide RunList, RunSingle, RunMove, RunCheckout, RunCheckin;
    match verb
    case ListDir(path) => DeniedList(env, st, tick, p, instance, path);
    case MoveFile(src, dst) => DeniedMove(env, st, tick, p, instance, src, dst);
    case Checkout(path, who) => DeniedCheckout(env, st, tick, p, instance, path, who);
    case Checkin(path, data, t, who) => DeniedCheckin(env, st, tick, p, instance, path, data, t, who);
    case ReadFile(path, _) => DeniedSingle(env, st, tick, p, instance, verb, path);
    case WriteFile(path, _, _) => DeniedSingle(env, st, tick, p, instance, verb, path);
    case Trash(path) => DeniedSingle(env, st, tick, p, instance, verb, path);
    case MakeDir(path) => DeniedSingle(env, st, tick, p, instance, verb, path);
  }
}
