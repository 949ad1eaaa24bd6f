/** When a verb is denied, exactly, and what a denial leaves in the log. */
module Refusals {
  import opened Wrappers
  import opened Clocks
  import opened Paths
  import opened Access
  import opened Namespace
  import opened Grants
  import opened Lifecycle
  import opened Audit
  import opened Layer
  import opened LayerSafety
  import opened Warrants
  import opened Effects
  import Dav
  import Texts

  // ---------------------------------------------------------- who is admitted

  /** The reading the wall judges by when the grants are read from reading tick on. */
  function JudgedAt(env: Env, st: Store, tick: nat, instance: string): nat {
    ActiveGrants(st, env.cfg, Some(instance), env.clock, tick).1
  }

  /** The instance is configured, the path outside the trash namespaces, and an item of a
      live row covers it in this mode. */
  ghost predicate Admits(env: Env, st: Store, tick: nat, instance: string, path: string, mode: string) {
    && instance in env.clients && Guard(path).Some?
    && BackedBy(st, Warrant(instance, Guard(path).value, mode, env.clock(JudgedAt(env, st, tick, instance))))
  }

  lemma JudgeReads(env: Env, st: Store, tick: nat, instance: string, norm: string, mode: string)
    ensures var (d, at, k) := Judge(env, st, tick, instance, norm, mode);
            k == JudgedAt(env, st, tick, instance) + 1 && at == env.clock(JudgedAt(env, st, tick, instance))
  {
    hide ActiveGrants, Decide;
  }

  /** Authorization succeeds exactly for what is admitted, and judges one reading. */
  lemma AuthorizeExactly(env: Env, st: Store, tick: nat, p: Plane, instance: string, path: string, mode: string)
    requires EnvOk(env) && StoreOk(st, env.cfg) && (mode == "read" || mode == "write")
    ensures var a := Authorize(env, st, tick, p, instance, path, mode);
            && (a.granted.Ok? <==> Admits(env, st, tick, instance, path, mode))
            && (a.granted.Ok? ==> a.plane == p && a.tick == JudgedAt(env, st, tick, instance) + 1)
  {
    if instance in env.clients && Guard(path).Some? {
      var norm := Guard(path).value;
      JudgeReads(env, st, tick, instance, norm, mode);
      JudgeExactly(env, st, tick, instance, norm, mode);
    }
    hide Judge, Guard, BackedBy, StoreOk, EnvOk;
  }

  // ------------------------------------------------------------ verb by verb

  lemma SingleDenied(env: Env, st: Store, tick: nat, p: Plane, instance: string, verb: Verb, path: string)
    requires !verb.MoveFile? && !verb.Checkout? && !verb.Checkin?
    ensures var r := RunSingle(env, st, tick, p, instance, verb, path);
            var a := Authorize(env, st, tick, p, instance, path, ModeOf(verb));
            && (r.outcome.Denied? <==> a.granted.Err?)
            && (a.granted.Err? ==> r.plane == a.plane && r.outcome == Denied(a.granted.error))
  {
    hide Authorize, AuditAnd, Finish;
    var a := Authorize(env, st, tick, p, instance, path, ModeOf(verb));
    if a.granted.Ok? {
      var step := SingleStep(verb, instance, a.granted.value.norm);
      AuditAndServes(env, a.plane, instance, step, [a.granted.value]);
      FinishedStep(AuditAnd(env, a.plane, instance, step, [a.granted.value]).1);
    }
  }

  lemma MoveDenied(env: Env, st: Store, tick: nat, p: Plane, instance: string, src: string, dst: string)
    ensures var r := RunMove(env, st, tick, p, instance, src, dst);
            var a := Authorize(env, st, tick, p, instance, src, WRITE);
            var b := Authorize(env, st, a.tick, a.plane, instance, dst, WRITE);
            && (r.outcome.Denied? <==> a.granted.Err? || b.granted.Err?)
            && (a.granted.Err? ==> r.plane == a.plane && r.outcome == Denied(a.granted.error))
            && (a.granted.Ok? && b.granted.Err? ==> r.plane == b.plane && r.outcome == Denied(b.granted.error))
  {
    hide Authorize, AuditAnd, Finish;
    var a := Authorize(env, st, tick, p, instance, src, WRITE);
    var b := Authorize(env, st, a.tick, a.plane, instance, dst, WRITE);
    if a.granted.Ok? && b.granted.Ok? {
      var ws := [a.granted.value, b.granted.value];
      var step := MoveStep(instance, ws[0].norm, ws[1].norm);
      AuditAndServes(env, b.plane, instance, step, ws);
      FinishedStep(AuditAnd(env, b.plane, instance, step, ws).1);
    }
  }

  lemma CheckoutDenied(env: Env, st: Store, tick: nat, p: Plane, instance: string, path: string, who: Option<string>)
    ensures var r := RunCheckout(env, st, tick, p, instance, path, who);
            var a := Authorize(env, st, tick, p, instance, path, WRITE);
            && (r.outcome.Denied? <==> a.granted.Err?)
            && (a.granted.Err? ==> r.plane == a.plane && r.outcome == Denied(a.granted.error))
  {
    hide Authorize, InTurn, Finish, Fetched;
    var a := Authorize(env, st, tick, p, instance, path, WRITE);
    if a.granted.Ok? {
      var norm := a.granted.value.norm;
      InTurnNotDenied(env, a.plane, instance, LockStep(instance, norm, who), FetchStep(instance, norm, who),
                      [a.granted.value]);
    }
  }

  lemma CheckinDenied(env: Env, st: Store, tick: nat, p: Plane, instance: string, path: string, data: Dav.Bytes,
                      t: Dav.Token, who: Option<string>)
    ensures var r := RunCheckin(env, st, tick, p, instance, path, data, t, who);
            var a := Authorize(env, st, tick, p, instance, path, WRITE);
            && (r.outcome.Denied? <==> a.granted.Err?)
            && (a.granted.Err? ==> r.plane == a.plane && r.outcome == Denied(a.granted.error))
  {
    hide Authorize, InTurn, Finish, Fetched;
    var a := Authorize(env, st, tick, p, instance, path, WRITE);
    if a.granted.Ok? {
      var norm := a.granted.value.norm;
      InTurnNotDenied(env, a.plane, instance, PutStep(instance, norm, data, t, who), UnlockStep(instance, norm, t, who),
                      [a.granted.value]);
    }
  }

  lemma ListDenied(env: Env, st: Store, tick: nat, p: Plane, instance: string, path: string)
    requires EnvOk(env) && StoreOk(st, env.cfg)
    ensures RunList(env, st, tick, p, instance, path).outcome.Denied? <==>
            !(instance in env.clients && Guard(path).Some? &&
              (instance in env.discovery || Admits(env, st, tick, instance, path, "read")))
  {
    if instance in env.clients && Guard(path).Some? {
      var norm := Guard(path).value;
      JudgeReads(env, st, tick, instance, norm, READ);
      JudgeExactly(env, st, tick, instance, norm, READ);
      hide AuditAnd, Finish, Judge, Guard, BackedBy, StoreOk, EnvOk;
      AuditAndServes(env, p, instance, DiscoveryStep(instance, norm), []);
      FinishedStep(AuditAnd(env, p, instance, DiscoveryStep(instance, norm), []).1);
      var (d, at, k) := Judge(env, st, tick, instance, norm, READ);
      var step, ws := SingleStep(ListDir(path), instance, norm), [Warrant(instance, norm, READ, at)];
      AuditAndServes(env, p, instance, step, ws);
      FinishedStep(AuditAnd(env, p, instance, step, ws).1);
    }
  }

  /** What each verb asks for. */
  ghost predicate Entitles(env: Env, st: Store, tick: nat, instance: string, verb: Verb) {
    match verb
    case ListDir(path) =>
      instance in env.clients && Guard(path).Some? &&
      (instance in env.discovery || Admits(env, st, tick, instance, path, "read"))
    case ReadFile(path, _) => Admits(env, st, tick, instance, path, "read")
    case WriteFile(path, _, _) => Admits(env, st, tick, instance, path, "write")
    case Trash(path) => Admits(env, st, tick, instance, path, "write")
    case MakeDir(path) => Admits(env, st, tick, instance, path, "write")
    case Checkout(path, _) => Admits(env, st, tick, instance, path, "write")
    case Checkin(path, _, _, _) => Admits(env, st, tick, instance, path, "write")
    case MoveFile(src, dst) =>
      Admits(env, st, tick, instance, src, "write") &&
      Admits(env, st, JudgedAt(env, st, tick, instance) + 1, instance, dst, "write")
  }

  /** A verb is denied exactly if what it asks for is not admitted: reading needs a read or
      a write item, everything else a write item, a move one at each end, and listing
      nothing where discovery is enabled. */
  lemma DeniedExactly(env: Env, st: Store, tick: nat, p: Plane, instance: string, verb: Verb)
    requires EnvOk(env) && StoreOk(st, env.cfg)
    ensures Run(env, st, tick, p, instance, verb).outcome.Denied? <==> !Entitles(env, st, tick, instance, verb)
  {
    hide RunList, RunSingle, RunMove, RunCheckout, RunCheckin, Authorize, Admits, EnvOk, StoreOk;
    match verb
    case ListDir(path) => ListDenied(env, st, tick, p, instance, path);
    case MoveFile(src, dst) =>
      MoveDenied(env, st, tick, p, instance, src, dst);
      AuthorizeExactly(env, st, tick, p, instance, src, "write");
      var a := Authorize(env, st, tick, p, instance, src, "write");
      AuthorizeExactly(env, st, a.tick, a.plane, instance, dst, "write");
    case Checkout(path, who) =>
      CheckoutDenied(env, st, tick, p, instance, path, who);
      AuthorizeExactly(env, st, tick, p, instance, path, "write");
    case Checkin(path, data, t, who) =>
      CheckinDenied(env, st, tick, p, instance, path, data, t, who);
      AuthorizeExactly(env, st, tick, p, instance, path, "write");
    case ReadFile(path, _) =>
      SingleDenied(env, st, tick, p, instance, verb, path);
      AuthorizeExactly(env, st, tick, p, instance, path, "read");
    case WriteFile(path, _, _) =>
      SingleDenied(env, st, tick, p, instance, verb, path);
      AuthorizeExactly(env, st, tick, p, instance, path, "write");
    case Trash(path) =>
      SingleDenied(env, st, tick, p, instance, verb, path);
      AuthorizeExactly(env, st, tick, p, instance, path, "write");
    case MakeDir(path) =>
      SingleDenied(env, st, tick, p, instance, verb, path);
      AuthorizeExactly(env, st, tick, p, instance, path, "write");
  }

  // --------------------------------------------------------- what is logged

  /** Why, as the log has it. */
  function ReasonText(instance: string, refusal: Refusal): string {
    match refusal
    case NoSuchInstance => "unknown instance '" + instance + "'"
    case ForbiddenPath => "forbidden namespace"
    case ByWall(reason) => Explain(reason)
  }

  /** What the log calls the path: as asked for, or, from the wall on, as normalized. */
  predicate ShownAs(path: string, refusal: Refusal, shown: string) {
    if refusal.ByWall? then Guard(path) == Some(shown) else shown == path
  }

  predicate FieldIs(line: Line, field: Field, text: string) {
    HasText(line, field) && line.rec.chained[field].text == text
  }

  /** The line says that this was refused, and why. */
  predicate SaysRefused(line: Line, instance: string, shown: string, mode: string, reason: string) {
    && FieldIs(line, Audit.Verdict, "refused") && FieldIs(line, Instance, instance) && FieldIs(line, FilePath, shown)
    && FieldIs(line, Operation, mode) && FieldIs(line, Why, reason)
  }

  predicate SecretAmong(secrets: seq<string>, values: seq<string>) {
    exists s, v | s in secrets && v in values :: s != "" && Texts.Occurs(s, v)
  }

  /** The refusal is the file's new last line, unless the write failed or one of its fields
      would have put a secret into the log. */
  ghost predicate RefusalLogged(env: Env, p: Plane, p': Plane, instance: string, path: string, mode: string,
                                refusal: Refusal)
  {
    exists shown :: ShownAs(path, refusal, shown) &&
      var reason := ReasonText(instance, refusal);
      if env.faults(p.writes).AppendFails? || SecretAmong(env.secrets, [instance, shown, mode, "refused", reason]) then
        p'.log.disk.Lines() == p.log.disk.Lines()
      else
        exists line :: p'.log.disk.Lines() == p.log.disk.Lines() + [line] &&
                       SaysRefused(line, instance, shown, mode, reason)
  }

  lemma TaintedIsAmong(secrets: seq<string>, q: Audit.Request)
    ensures Tainted(secrets, q) <==> SecretAmong(secrets, [q.instance, q.path, q.operation, q.decision, q.reason])
  {
    var values := [q.instance, q.path, q.operation, q.decision, q.reason];
    assert values[0] in values && values[1] in values && values[2] in values;
    assert values[3] in values && values[4] in values;
    hide Texts.Occurs;
  }

  lemma OneRefusal(env: Env, p: Plane, instance: string, path: string, shown: string, mode: string, refusal: Refusal)
    requires ShownAs(path, refusal, shown)
    ensures RefusalLogged(env, p, LogRefusal(env, p, instance, shown, mode, ReasonText(instance, refusal)), instance,
                          path, mode, refusal)
  {
    hide Guard, Explain, SecretAmong;
    var reason := ReasonText(instance, refusal);
    var q := RefusalEntry(env, instance, shown, mode, reason);
    var p' := LogRefusal(env, p, instance, shown, mode, reason);
    TaintedIsAmong(env.secrets, q);
    LineSays(env, p, q);
    var line := LineFor(env, p, q);
    hide Tainted, LineFor;
    if !Tainted(env.secrets, q) && !env.faults(p.writes).AppendFails? {
      RefusalAppends(env, p, q);
      assert SaysRefused(line, instance, shown, mode, reason);
    }
  }

  lemma RefusalAppends(env: Env, p: Plane, q: Audit.Request)
    requires !Tainted(env.secrets, q) && !env.faults(p.writes).AppendFails?
    ensures Logged(env, p, q).0.log.disk.Lines() == p.log.disk.Lines() + [LineFor(env, p, q)]
  {
    hide Tainted, FieldsOf;
  }

  lemma AuthorizeLogs(env: Env, st: Store, tick: nat, p: Plane, instance: string, path: string, mode: string)
    ensures var a := Authorize(env, st, tick, p, instance, path, mode);
            if a.granted.Err? then RefusalLogged(env, p, a.plane, instance, path, mode, a.granted.error)
            else a.plane == p
  {
    hide Judge, LogRefusal, RefusalLogged;
    if instance !in env.clients {
      OneRefusal(env, p, instance, path, path, mode, NoSuchInstance);
    } else if Guard(path).None? {
      OneRefusal(env, p, instance, path, path, mode, ForbiddenPath);
    } else {
      var norm := Guard(path).value;
      var (d, at, k) := Judge(env, st, tick, instance, norm, mode);
      OneRefusal(env, p, instance, path, norm, mode, ByWall(d.reason));
    }
  }

  /** Which path, in which mode, a denial is logged for. */
  ghost predicate DenialLogged(env: Env, p: Plane, p': Plane, instance: string, verb: Verb, refusal: Refusal) {
    match verb
    case ListDir(_) => p' == p
    case ReadFile(path, _) => RefusalLogged(env, p, p', instance, path, "read", refusal)
    case WriteFile(path, _, _) => RefusalLogged(env, p, p', instance, path, "write", refusal)
    case Trash(path) => RefusalLogged(env, p, p', instance, path, "write", refusal)
    case MakeDir(path) => RefusalLogged(env, p, p', instance, path, "write", refusal)
    case Checkout(path, _) => RefusalLogged(env, p, p', instance, path, "write", refusal)
    case Checkin(path, _, _, _) => RefusalLogged(env, p, p', instance, path, "write", refusal)
    case MoveFile(src, dst) =>
      || RefusalLogged(env, p, p', instance, src, "write", refusal)
      || RefusalLogged(env, p, p', instance, dst, "write", refusal)
  }

  /** Every denied verb but a listing leaves its refusal in the log when that can be
      written; a denied listing leaves nothing. */
  lemma DeniedIsLogged(env: Env, st: Store, tick: nat, p: Plane, instance: string, verb: Verb)
    requires Run(env, st, tick, p, instance, verb).outcome.Denied?
    ensures var r := Run(env, st, tick, p, instance, verb);
            DenialLogged(env, p, r.plane, instance, verb, r.outcome.refusal)
  {
    hide RunList, RunSingle, RunMove, RunCheckout, RunCheckin, Authorize, RefusalLogged;
    match verb
    case ListDir(path) => DeniedList(env, st, tick, p, instance, path);
    case MoveFile(src, dst) =>
      MoveDenied(env, st, tick, p, instance, src, dst);
      AuthorizeLogs(env, st, tick, p, instance, src, "write");
      var a := Authorize(env, st, tick, p, instance, src, "write");
      AuthorizeLogs(env, st, a.tick, a.plane, instance, dst, "write");
    case Checkout(path, who) =>
      CheckoutDenied(env, st, tick, p, instance, path, who);
      AuthorizeLogs(env, st, tick, p, instance, path, "write");
    case Checkin(path, data, t, who) =>
      CheckinDenied(env, st, tick, p, instance, path, data, t, who);
      AuthorizeLogs(env, st, tick, p, instance, path, "write");
    case ReadFile(path, _) =>
      SingleDenied(env, st, tick, p, instance, verb, path);
      AuthorizeLogs(env, st, tick, p, instance, path, "read");
    case WriteFile(path, _, _) =>
      SingleDenied(env, st, tick, p, instance, verb, path);
      AuthorizeLogs(env, st, tick, p, instance, path, "write");
    case Trash(path) =>
      SingleDenied(env, st, tick, p, instance, verb, path);
      AuthorizeLogs(env, st, tick, p, instance, path, "write");
    case MakeDir(path) =>
      SingleDenied(env, st, tick, p, instance, verb, path);
      AuthorizeLogs(env, st, tick, p, instance, path, "write");
  }
}
