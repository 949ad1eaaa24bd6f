/** The file-operation layer: authorization, write-before-operate, and the verbs. */
module Layer {
  import opened Wrappers
  import opened Clocks
  import opened Paths
  import opened Access
  import opened Namespace
  import opened Grants
  import opened Audit
  import Dav
  import Replies
  import Texts

  /** Everything a run fixes from outside: configuration and what the environment will do. */
  datatype Env = Env(
    cfg: Config, clients: set<string>, discovery: set<string>, principal: Option<string>,
    clock: Readings, hash: Hash, secrets: seq<string>, stamps: nat -> string, faults: nat -> Io,
    foreign: nat -> seq<Dav.Request>, net: nat -> Dav.Delivery)

  /** One successful check of the wall. */
  datatype Warrant = Warrant(instance: string, norm: string, mode: string, at: Time)

  /** One request to the transport: what was asked of it, what became of that, the log at
      that moment, and the checks it was made under. */
  datatype Call = Call(
    instance: string, req: Dav.Request, fate: Dav.Delivery, answer: Dav.Answer, disk: Disk, warrants: seq<Warrant>)

  /** The layer's side of the world; marks says of each log line whether its checkpoint
      write succeeded. */
  datatype Plane = Plane(
    log: Writer, writes: nat, marks: seq<bool>, server: Dav.Server, sent: nat, calls: seq<Call>)

  datatype Refusal = NoSuchInstance | ForbiddenPath | ByWall(reason: Reason)

  datatype Verb =
    | ListDir(path: string)
    | ReadFile(path: string, principal: Option<string>)
    | WriteFile(path: string, data: Dav.Bytes, principal: Option<string>)
    | MoveFile(src: string, dst: string)
    | Trash(path: string)
    | MakeDir(path: string)
    | Checkout(path: string, principal: Option<string>)
    | Checkin(path: string, data: Dav.Bytes, token: Dav.Token, principal: Option<string>)

  datatype Outcome =
    | Denied(refusal: Refusal)
    | NotLogged
    | Failed
    | Success(answer: Dav.Answer)
    | CheckedOut(token: Dav.Token, content: Dav.Bytes)

  function Explain(reason: Reason): string {
    match reason
    case Permitted => "ok"
    case UnknownMode => "unknown mode"
    case MalformedPath => "malformed or hostile path"
    case GrantExpired(id) => "grant " + Replies.PrintNat(id) + " expired"
    case GrantReadOnly(id) => "grant " + Replies.PrintNat(id) + " is read-only; write not permitted"
    case NotCovered => "path not covered by any active grant"
  }

  /** An instance's file namespace on the servers. */
  function Address(instance: string, norm: string): Dav.Path { [instance] + PathOf(norm) }

  /** addr names the path on the instance: its components, put together, spell the path. */
  predicate Addresses(addr: Dav.Path, instance: string, path: string) {
    addr != [] && addr[0] == instance && CleanParts(addr[1..]) && Texts.Join(addr[1..], '/') == path
  }

  /** Each canonical path has that address and no other. */
  lemma OneAddress(addr: Dav.Path, instance: string, path: string)
    requires Canonical(path)
    ensures Addresses(addr, instance, path) <==> addr == Address(instance, path)
  {
    JoinPathOf(path);
    assert Address(instance, path)[1..] == PathOf(path);
    if Addresses(addr, instance, path) {
      PathOfJoin(addr[1..]);
      assert addr == [addr[0]] + addr[1..];
    }
  }

  // ------------------------------------------------------------ authorization

  function GrantsOfItems(rec: GrantRecord, items: seq<Item>): seq<Grant> {
    if items == [] then []
    else [Grant(items[0].path, items[0].mode, rec.expiresAt, rec.id)] + GrantsOfItems(rec, items[1..])
  }

  /** Each item's path paired with its own mode. */
  function Flatten(recs: seq<GrantRecord>): seq<Grant> {
    if recs == [] then [] else GrantsOfItems(recs[0], recs[0].items) + Flatten(recs[1..])
  }

  /** The wall's decision, its clock reading, and the next reading. */
  function Judge(env: Env, st: Store, tick: nat, instance: string, norm: string, mode: string): (Decision, Time, nat) {
    var (recs, k) := ActiveGrants(st, env.cfg, Some(instance), env.clock, tick);
    (Decide(norm, mode, Flatten(recs), env.clock(k)), env.clock(k), k + 1)
  }

  /** One line written to the audit log. */
  function Logged(env: Env, p: Plane, q: Audit.Request): (Plane, RecordResult) {
    var (w, r) := Record(env.hash, env.secrets, p.log, q, env.stamps(p.writes), env.faults(p.writes));
    (p.(log := w, writes := p.writes + (if r.SecretRefused? then 0 else 1),
        marks := if r.Recorded? || r.CheckpointFailed? then p.marks + [r.Recorded?] else p.marks), r)
  }

  function RefusalEntry(env: Env, instance: string, path: string, operation: string, reason: string): Audit.Request {
    Audit.Request(instance, path, operation, None, "refused", reason, env.principal)
  }

  /** Best-effort visibility: whatever becomes of the entry, the refusal stands. */
  function LogRefusal(env: Env, p: Plane, instance: string, path: string, operation: string, reason: string): Plane {
    Logged(env, p, RefusalEntry(env, instance, path, operation, reason)).0
  }

  datatype Auth = Auth(tick: nat, plane: Plane, granted: Result<Warrant, Refusal>)

  function Authorize(env: Env, st: Store, tick: nat, p: Plane, instance: string, path: string, mode: string): Auth {
    if instance !in env.clients then
      Auth(tick, LogRefusal(env, p, instance, path, mode, "unknown instance '" + instance + "'"), Err(NoSuchInstance))
    else if Guard(path).None? then
      Auth(tick, LogRefusal(env, p, instance, path, mode, "forbidden namespace"), Err(ForbiddenPath))
    else
      var norm := Guard(path).value;
      var (d, at, k) := Judge(env, st, tick, instance, norm, mode);
      if d.allowed then Auth(k, p, Ok(Warrant(instance, norm, mode, at)))
      else Auth(k, LogRefusal(env, p, instance, norm, mode, Explain(d.reason)), Err(ByWall(d.reason)))
  }

  // ------------------------------------------------------ write before operate

  /** A request that may only follow its own log entry. */
  datatype Step = Step(operation: string, path: string, reason: string, principal: Option<string>, req: Dav.Request)

  function EntryOf(env: Env, instance: string, step: Step): Audit.Request {
    Audit.Request(instance, step.path, step.operation, None, "allowed", step.reason,
                  if step.principal.Some? then step.principal else env.principal)
  }

  function Transport(env: Env, p: Plane, instance: string, step: Step, ws: seq<Warrant>): (Plane, Dav.Answer) {
    if Unsendable(step.req) then
      (p.(calls := p.calls + [Call(instance, step.req, Dav.Lost, Dav.Refused, p.log.disk, ws)]), Dav.Refused)
    else
      var (server, answer) := Dav.Contact(p.server, env.foreign(p.sent), step.req, env.net(p.sent));
      (p.(server := server, sent := p.sent + 1,
          calls := p.calls + [Call(instance, step.req, env.net(p.sent), answer, p.log.disk, ws)]), answer)
  }

  /** The adapter refuses to unlock without a token. */
  predicate Unsendable(req: Dav.Request) { req.Unlock? && req.held.holder.Nobody? }

  /** _audit_and: the transport is contacted only after the entry and its checkpoint. */
  function AuditAnd(env: Env, p: Plane, instance: string, step: Step, ws: seq<Warrant>)
    : (Plane, Result<Dav.Answer, Outcome>)
  {
    var (p', r) := Logged(env, p, EntryOf(env, instance, step));
    if !r.Recorded? then (p', Err(NotLogged))
    else
      var (p'', answer) := Transport(env, p', instance, step, ws);
      (p'', if answer.Refused? then Err(Failed) else Ok(answer))
  }

  /** Two logged steps, the second only if the first succeeded; otherwise both results
      are the first one's. */
  function InTurn(env: Env, p: Plane, instance: string, first: Step, second: Step, ws: seq<Warrant>)
    : (Plane, Result<Dav.Answer, Outcome>, Result<Dav.Answer, Outcome>)
  {
    var (p1, r1) := AuditAnd(env, p, instance, first, ws);
    if r1.Err? then (p1, r1, r1)
    else
      var (p2, r2) := AuditAnd(env, p1, instance, second, ws);
      (p2, r1, r2)
  }

  function Finish(r: Result<Dav.Answer, Outcome>): Outcome {
    match r case Ok(answer) => Success(answer) case Err(o) => o
  }

  // ------------------------------------------------------------------ the verbs

  datatype Ran = Ran(tick: nat, plane: Plane, outcome: Outcome)

  const GRANTED_READ := "granted read"
  const GRANTED_WRITE := "granted write"

  /** The step of a verb that needs one check and one request. */
  function SingleStep(verb: Verb, instance: string, norm: string): Step
    requires !verb.MoveFile? && !verb.Checkout? && !verb.Checkin?
  {
    var at := Address(instance, norm);
    match verb
    case ListDir(_) => Step("list", norm, GRANTED_READ, None, Dav.Propfind(at))
    case ReadFile(_, who) => Step("read", norm, GRANTED_READ, who, Dav.Get(at))
    case WriteFile(_, data, who) => Step("write", norm, GRANTED_WRITE, who, Dav.Put(at, data, None))
    case Trash(_) => Step("trash", norm, GRANTED_WRITE, None, Dav.Delete(at, None))
    case MakeDir(_) => Step("mkdir", norm, GRANTED_WRITE, None, Dav.Mkcol(at, None))
  }

  function ModeOf(verb: Verb): string {
    if verb.ListDir? || verb.ReadFile? then READ else WRITE
  }

  function DiscoveryStep(instance: string, norm: string): Step {
    Step("list", norm, "discovery", None, Dav.Propfind(Address(instance, norm)))
  }

  /** list: refusals before the wall and by the wall leave no log line. */
  function RunList(env: Env, st: Store, tick: nat, p: Plane, instance: string, path: string): Ran {
    if instance !in env.clients then Ran(tick, p, Denied(NoSuchInstance))
    else if Guard(path).None? then Ran(tick, p, Denied(ForbiddenPath))
    else
      var norm := Guard(path).value;
      if instance in env.discovery then
        var (p', r) := AuditAnd(env, p, instance, DiscoveryStep(instance, norm), []);
        Ran(tick, p', Finish(r))
      else
        var (d, at, k) := Judge(env, st, tick, instance, norm, READ);
        if !d.allowed then Ran(k, p, Denied(ByWall(d.reason)))
        else
          var (p', r) := AuditAnd(env, p, instance, SingleStep(ListDir(path), instance, norm),
                                  [Warrant(instance, norm, READ, at)]);
          Ran(k, p', Finish(r))
  }

  function RunSingle(env: Env, st: Store, tick: nat, p: Plane, instance: string, verb: Verb, path: string): Ran
    requires !verb.MoveFile? && !verb.Checkout? && !verb.Checkin?
  {
    var a := Authorize(env, st, tick, p, instance, path, ModeOf(verb));
    if a.granted.Err? then Ran(a.tick, a.plane, Denied(a.granted.error))
    else
      var (p', r) := AuditAnd(env, a.plane, instance, SingleStep(verb, instance, a.granted.value.norm),
            [a.granted.value]);
      Ran(a.tick, p', Finish(r))
  }

  function MoveStep(instance: string, src: string, dst: string): Step {
    Step("move", src + " -> " + dst, GRANTED_WRITE, None,
         Dav.Move(Address(instance, src), Address(instance, dst), false, None))
  }

  /** move: both ends are checked, the source first. */
  function RunMove(env: Env, st: Store, tick: nat, p: Plane, instance: string, src: string, dst: string): Ran {
    var a := Authorize(env, st, tick, p, instance, src, WRITE);
    if a.granted.Err? then Ran(a.tick, a.plane, Denied(a.granted.error))
    else
      var b := Authorize(env, st, a.tick, a.plane, instance, dst, WRITE);
      if b.granted.Err? then Ran(b.tick, b.plane, Denied(b.granted.error))
      else
        var (p', r) := AuditAnd(env, b.plane, instance, MoveStep(instance, a.granted.value.norm, b.granted.value.norm),
                                [a.granted.value, b.granted.value]);
        Ran(b.tick, p', Finish(r))
  }

  function LockStep(instance: string, norm: string, who: Option<string>): Step {
    Step("checkout", norm, GRANTED_WRITE, who, Dav.Lock(Address(instance, norm)))
  }

  function FetchStep(instance: string, norm: string, who: Option<string>): Step {
    Step("read", norm, "checkout read", who, Dav.Get(Address(instance, norm)))
  }

  /** checkout: lock, then read the locked revision. */
  function RunCheckout(env: Env, st: Store, tick: nat, p: Plane, instance: string, path: string,
                       who: Option<string>): Ran {
    var a := Authorize(env, st, tick, p, instance, path, WRITE);
    if a.granted.Err? then Ran(a.tick, a.plane, Denied(a.granted.error))
    else
      var norm := a.granted.value.norm;
      var (p', r1, r2) := InTurn(env, a.plane, instance, LockStep(instance, norm, who), FetchStep(instance, norm, who),
                                 [a.granted.value]);
      Ran(a.tick, p', Fetched(r1, r2))
  }

  /** The token from the first answer with the bytes of the second. */
  function Fetched(r1: Result<Dav.Answer, Outcome>, r2: Result<Dav.Answer, Outcome>): Outcome {
    if r2.Err? then r2.error
    else if r1.Ok? && r1.value.Locked? && r2.value.Content? then CheckedOut(r1.value.lock, r2.value.data)
    else Failed
  }

  function PutStep(instance: string, norm: string, data: Dav.Bytes, t: Dav.Token, who: Option<string>): Step {
    Step("checkin", norm, GRANTED_WRITE, who,
         Dav.Put(Address(instance, norm), data, if t.holder.Nobody? then None else Some(t)))
  }

  function UnlockStep(instance: string, norm: string, t: Dav.Token, who: Option<string>): Step {
    Step("checkin-unlock", norm, "lock released", who, Dav.Unlock(Address(instance, norm), t))
  }

  /** checkin: write under the lock, then release it. An empty token writes without one. */
  function RunCheckin(env: Env, st: Store, tick: nat, p: Plane, instance: string, path: string, data: Dav.Bytes,
                      t: Dav.Token, who: Option<string>): Ran
  {
    var a := Authorize(env, st, tick, p, instance, path, WRITE);
    if a.granted.Err? then Ran(a.tick, a.plane, Denied(a.granted.error))
    else
      var norm := a.granted.value.norm;
      var (p', r1, r2) := InTurn(env, a.plane, instance, PutStep(instance, norm, data, t, who),
                                 UnlockStep(instance, norm, t, who), [a.granted.value]);
      Ran(a.tick, p', Finish(r2))
  }

  function Run(env: Env, st: Store, tick: nat, p: Plane, instance: string, verb: Verb): Ran {
    match verb
    case ListDir(path) => RunList(env, st, tick, p, instance, path)
    case MoveFile(src, dst) => RunMove(env, st, tick, p, instance, src, dst)
    case Checkout(path, who) => RunCheckout(env, st, tick, p, instance, path, who)
    case Checkin(path, data, t, who) => RunCheckin(env, st, tick, p, instance, path, data, t, who)
    case ReadFile(path, _) => RunSingle(env, st, tick, p, instance, verb, path)
    case WriteFile(path, _, _) => RunSingle(env, st, tick, p, instance, verb, path)
    case Trash(path) => RunSingle(env, st, tick, p, instance, verb, path)
    case MakeDir(path) => RunSingle(env, st, tick, p, instance, verb, path)
  }

  // --------------------------------------------------------- the layer object

  class NextcloudLayer {
    const store: GrantStore
    const log: AuditLog
    const adapter: Dav.WebDavAdapter
    const clients: set<string>
    const discovery: set<string>
    const principal: Option<string>
    ghost var marks: seq<bool>
    ghost var calls: seq<Call>

    function Setting(): Env {
      Env(store.cfg, clients, discovery, principal, store.clock.readings, log.hash, log.secrets, log.stamps,
          log.file.faults, adapter.server.foreign, adapter.server.net)
    }

    ghost function Model(): Plane
      reads this, log, log.file, adapter.server
    {
      Plane(log.Model(), log.file.writes, marks, adapter.server.state, adapter.server.sent, calls)
    }

    constructor (store: GrantStore, log: AuditLog, adapter: Dav.WebDavAdapter, clients: set<string>,
                 discovery: set<string>, principal: Option<string>)
      ensures this.store == store && this.log == log && this.adapter == adapter
      ensures Setting() == Env(store.cfg, clients, discovery, principal, store.clock.readings, log.hash, log.secrets,
                               log.stamps, log.file.faults, adapter.server.foreign, adapter.server.net)
    {
      this.store := store;
      this.log := log;
      this.adapter := adapter;
      this.clients := clients;
      this.discovery := discovery;
      this.principal := principal;
      marks := [];
      calls := [];
    }

    method WriteLine(q: Audit.Request) returns (r: RecordResult)
      modifies this, log, log.file
      ensures (Model(), r) == Logged(Setting(), old(Model()), q)
    {
      r := log.Write(q);
      if r.Recorded? || r.CheckpointFailed? {
        marks := marks + [r.Recorded?];
      }
    }

    method Refuse(instance: string, path: string, operation: string, reason: string)
      modifies this, log, log.file
      ensures Model() == LogRefusal(Setting(), old(Model()), instance, path, operation, reason)
    {
      var r := WriteLine(RefusalEntry(Setting(), instance, path, operation, reason));
    }

    /** The wall: the active grants are read first, then the clock once more. */
    method Judged(instance: string, norm: string, mode: string) returns (d: Decision, at: Time)
      modifies store.clock
      ensures (d, at, store.clock.next) ==
              Judge(Setting(), store.Model(), old(store.clock.next), instance, norm, mode)
    {
      var recs := store.ListActive(Some(instance));
      at := store.clock.Now();
      d := CheckAccess(norm, mode, Flatten(recs), at);
    }

    method Authorized(instance: string, path: string, mode: string) returns (r: Result<Warrant, Refusal>)
      modifies this, store.clock, log, log.file
      ensures Auth(store.clock.next, Model(), r) ==
              Authorize(Setting(), store.Model(), old(store.clock.next), old(Model()), instance, path, mode)
    {
      if instance !in clients {
        Refuse(instance, path, mode, "unknown instance '" + instance + "'");
        return Err(NoSuchInstance);
      }
      var norm := Guard(path);
      if norm.None? {
        Refuse(instance, path, mode, "forbidden namespace");
        return Err(ForbiddenPath);
      }
      var d, at := Judged(instance, norm.value, mode);
      if !d.allowed {
        Refuse(instance, norm.value, mode, Explain(d.reason));
        return Err(ByWall(d.reason));
      }
      return Ok(Warrant(instance, norm.value, mode, at));
    }

    /** The transport call of a logged step. */
    method Reach(instance: string, step: Step, ghost ws: seq<Warrant>) returns (a: Dav.Answer)
      modifies this, adapter.server
      ensures (Model(), a) == Transport(Setting(), old(Model()), instance, step, ws)
    {
      ghost var server, burst, fate := adapter.server.state, adapter.server.foreign(adapter.server.sent),
        adapter.server.net(adapter.server.sent);
      Dav.AnswerShape(server, burst, step.req, fate);
      match step.req {
        case Lock(p) =>
          var token := adapter.TakeLock(p);
          a := if token.Ok? then Dav.Locked(token.value) else Dav.Refused;
        case Put(p, data, token) =>
          var done := adapter.Upload(p, data, token);
          a := if done.Ok? then Dav.Done else Dav.Refused;
        case Unlock(p, held) =>
          var done := adapter.ReleaseLock(p, held);
          a := if done.Ok? then Dav.Done else Dav.Refused;
        case _ =>
          var answer := adapter.Perform(step.req);
          a := if answer.Ok? then answer.value else Dav.Refused;
      }
      fate := if Unsendable(step.req) then Dav.Lost else fate;
      calls := calls + [Call(instance, step.req, fate, a, log.file.disk, ws)];
    }

    method AuditThen(instance: string, step: Step, ghost ws: seq<Warrant>) returns (r: Result<Dav.Answer, Outcome>)
      modifies this, log, log.file, adapter.server
      ensures (Model(), r) == AuditAnd(Setting(), old(Model()), instance, step, ws)
    {
      var written := WriteLine(EntryOf(Setting(), instance, step));
      if !written.Recorded? {
        return Err(NotLogged);
      }
      var a := Reach(instance, step, ws);
      return if a.Refused? then Err(Failed) else Ok(a);
    }

    method List(instance: string, path: string) returns (o: Outcome)
      modifies this, store.clock, log, log.file, adapter.server
      ensures Ran(store.clock.next, Model(), o) ==
              RunList(Setting(), store.Model(), old(store.clock.next), old(Model()), instance, path)
    {
      if instance !in clients {
        return Denied(NoSuchInstance);
      }
      var norm := Guard(path);
      if norm.None? {
        return Denied(ForbiddenPath);
      }
      if instance in discovery {
        var r := AuditThen(instance, DiscoveryStep(instance, norm.value), []);
        return Finish(r);
      }
      var d, at := Judged(instance, norm.value, READ);
      if !d.allowed {
        return Denied(ByWall(d.reason));
      }
      var r := AuditThen(instance, SingleStep(ListDir(path), instance, norm.value), [Warrant(instance, norm.value,
            READ, at)]);
      return Finish(r);
    }

    /** read, write, trash and mkdir. */
    method Single(instance: string, verb: Verb, path: string) returns (o: Outcome)
      requires !verb.MoveFile? && !verb.Checkout? && !verb.Checkin?
      modifies this, store.clock, log, log.file, adapter.server
      ensures Ran(store.clock.next, Model(), o) ==
              RunSingle(Setting(), store.Model(), old(store.clock.next), old(Model()), instance, verb, path)
    {
      var w := Authorized(instance, path, ModeOf(verb));
      if w.Err? {
        return Denied(w.error);
      }
      var r := AuditThen(instance, SingleStep(verb, instance, w.value.norm), [w.value]);
      return Finish(r);
    }

    method MoveTo(instance: string, src: string, dst: string) returns (o: Outcome)
      modifies this, store.clock, log, log.file, adapter.server
      ensures Ran(store.clock.next, Model(), o) ==
              RunMove(Setting(), store.Model(), old(store.clock.next), old(Model()), instance, src, dst)
    {
      var from := Authorized(instance, src, WRITE);
      if from.Err? {
        return Denied(from.error);
      }
      var to := Authorized(instance, dst, WRITE);
      if to.Err? {
        return Denied(to.error);
      }
      var r := AuditThen(instance, MoveStep(instance, from.value.norm, to.value.norm), [from.value, to.value]);
      return Finish(r);
    }

    method CheckOut(instance: string, path: string, who: Option<string>) returns (o: Outcome)
      modifies this, store.clock, log, log.file, adapter.server
      ensures Ran(store.clock.next, Model(), o) ==
              RunCheckout(Setting(), store.Model(), old(store.clock.next), old(Model()), instance, path, who)
    {
      var w := Authorized(instance, path, WRITE);
      if w.Err? {
        return Denied(w.error);
      }
      var lock := AuditThen(instance, LockStep(instance, w.value.norm, who), [w.value]);
      if lock.Err? {
        return Fetched(lock, lock);
      }
      var content := AuditThen(instance, FetchStep(instance, w.value.norm, who), [w.value]);
      return Fetched(lock, content);
    }

    method CheckIn(instance: string, path: string, data: Dav.Bytes, t: Dav.Token, who: Option<string>)
      returns (o: Outcome)
      modifies this, store.clock, log, log.file, adapter.server
      ensures Ran(store.clock.next, Model(), o) ==
              RunCheckin(Setting(), store.Model(), old(store.clock.next), old(Model()), instance, path, data, t, who)
    {
      var w := Authorized(instance, path, WRITE);
      if w.Err? {
        return Denied(w.error);
      }
      var written := AuditThen(instance, PutStep(instance, w.value.norm, data, t, who), [w.value]);
      if written.Err? {
        return Finish(written);
      }
      var unlocked := AuditThen(instance, UnlockStep(instance, w.value.norm, t, who), [w.value]);
      return Finish(unlocked);
    }
  }
}
