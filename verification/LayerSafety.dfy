/** What every run of the layer keeps: write-before-operate, no lost update, and the
    warrant behind every transport request. */
module LayerSafety {
  import opened Wrappers
  import opened Clocks
  import opened Audit
  import opened Layer
  import Dav

  // ------------------------------------------------------ write before operate

  predicate SaysAllowed(line: Line) {
    line.Entry? && Verdict in line.rec.chained && line.rec.chained[Verdict] == Text("allowed")
  }

  /** The log's allowed entries whose checkpoint write succeeded, in order. */
  function Effective(lines: seq<Line>, marks: seq<bool>): seq<Line>
    requires |marks| == |lines|
  {
    if lines == [] then []
    else
      var n := |lines| - 1;
      Effective(lines[..n], marks[..n]) + (if marks[n] && SaysAllowed(lines[n]) then [lines[n]] else [])
  }

  /** What an entry with this operation and path announces on the instance. */
  ghost predicate Names(instance: string, operation: string, path: string, req: Dav.Request) {
    match req
    case Propfind(p) => operation == "list" && Addresses(p, instance, path)
    case Get(p) => operation == "read" && Addresses(p, instance, path)
    case Put(p, _, token) =>
      Addresses(p, instance, path) && (operation == "checkin" || (operation == "write" && token.None?))
    case Delete(p, token) => operation == "trash" && Addresses(p, instance, path) && token.None?
    case Mkcol(p, token) => operation == "mkdir" && Addresses(p, instance, path) && token.None?
    case Lock(p) => operation == "checkout" && Addresses(p, instance, path)
    case Unlock(p, _) => operation == "checkin-unlock" && Addresses(p, instance, path)
    case Move(src, dst, overwrite, token) =>
      operation == "move" && !overwrite && token.None? && NamesBoth(instance, path, src, dst)
    case Copy(_, _, _, _) => false
  }

  ghost predicate NamesBoth(instance: string, path: string, src: Dav.Path, dst: Dav.Path) {
    exists a, b :: path == a + " -> " + b && Addresses(src, instance, a) && Addresses(dst, instance, b)
  }

  predicate HasText(line: Line, field: Field) {
    line.Entry? && field in line.rec.chained && line.rec.chained[field].Text?
  }

  /** The line, as written, announces the request that was made. */
  ghost predicate Describes(line: Line, c: Call) {
    && SaysAllowed(line) && HasText(line, Instance) && HasText(line, Operation) && HasText(line, FilePath)
    && line.rec.chained[Instance].text == c.instance
    && Names(c.instance, line.rec.chained[Operation].text, line.rec.chained[FilePath].text, c.req)
  }

  /** At the moment of the call the log verified, with the call's entry as its last line. */
  ghost predicate LoggedFirst(h: Hash, line: Line, c: Call) {
    var lines := c.disk.Lines();
    lines != [] && lines[|lines| - 1] == line && Verify(h, c.disk).ok && Describes(line, c)
  }

  /** The transport calls are, in order, the effective log entries. */
  ghost predicate WrittenBefore(h: Hash, p: Plane) {
    && |p.marks| == |p.log.disk.Lines()|
    && var entries := Effective(p.log.disk.Lines(), p.marks);
       |p.calls| == |entries| && forall i | 0 <= i < |entries| :: LoggedFirst(h, entries[i], p.calls[i])
  }

  // --------------------------------------------------------- lock discipline

  predicate PutWith(c: Call, t: Dav.Token) { c.req.Put? && c.req.token == Some(t) }

  /** An unlock of path, or of something below it, with the token arrived. */
  predicate UnlockReached(c: Call, path: Dav.Path, t: Dav.Token) { Dav.Releases(c.req, path, t) && !c.fate.Lost? }

  predicate PutSince(calls: seq<Call>, i: nat, t: Dav.Token) {
    exists j | i < j < |calls| :: PutWith(calls[j], t)
  }

  predicate UnlockSince(calls: seq<Call>, i: nat, path: Dav.Path, t: Dav.Token) {
    exists j | i < j < |calls| :: UnlockReached(calls[j], path, t)
  }

  /** Call i took the lock t on a path. */
  predicate TookLock(calls: seq<Call>, i: nat, t: Dav.Token) {
    i < |calls| && calls[i].req.Lock? && calls[i].answer == Dav.Locked(t)
  }

  /** Reads since the lock was taken show what is still there. */
  predicate ReadsCurrent(calls: seq<Call>, i: nat, path: Dav.Path, server: Dav.Server) {
    forall j | i < j < |calls| && calls[j].req == Dav.Get(path) && calls[j].answer.Content? ::
      Dav.ContentAt(server, path) == Some(calls[j].answer.data)
  }

  ghost predicate LockKept(calls: seq<Call>, server: Dav.Server, i: nat, t: Dav.Token)
    requires TookLock(calls, i, t)
  {
    var path := calls[i].req.path;
    && t.holder.Broker?
    && (!UnlockSince(calls, i, path, t) ==> Dav.Holds(server, path, t))
    && (!PutSince(calls, i, t) ==> Dav.Holds(server, path, t) && ReadsCurrent(calls, i, path, server))
  }

  /** An unlock directly follows a put with the same token, unless it has none. */
  predicate UnlockFollowsPut(calls: seq<Call>, j: nat)
    requires j < |calls|
  {
    calls[j].req.Unlock? && !Unsendable(calls[j].req) ==> j > 0 && PutWith(calls[j - 1], calls[j].req.held)
  }

  ghost predicate Disciplined(calls: seq<Call>, server: Dav.Server) {
    && (forall j | 0 <= j < |calls| :: UnlockFollowsPut(calls, j))
    && (forall i, t | 0 <= i < |calls| && TookLock(calls, i, t) :: LockKept(calls, server, i, t))
  }

  // ------------------------------------------------------------ the invariant

  ghost predicate PlaneOk(env: Env, p: Plane) {
    && WriterOk(env.hash, p.log)
    && WrittenBefore(env.hash, p)
    && Dav.ServerOk(p.server)
    && Disciplined(p.calls, p.server)
  }

  ghost predicate EnvOk(env: Env) {
    Monotone(env.clock) && forall n: nat :: Dav.Foreign(env.foreign(n))
  }

  lemma EffectiveSnoc(lines: seq<Line>, marks: seq<bool>, line: Line, mark: bool)
    requires |marks| == |lines|
    ensures Effective(lines + [line], marks + [mark]) ==
            Effective(lines, marks) + (if mark && SaysAllowed(line) then [line] else [])
  {
    assert (lines + [line])[..|lines|] == lines && (marks + [mark])[..|lines|] == marks;
  }

  function LineFor(env: Env, p: Plane, q: Audit.Request): Line {
    NewLine(env.hash, p.log, FieldsOf(q, env.stamps(p.writes)))
  }

  lemma LineSays(env: Env, p: Plane, q: Audit.Request)
    ensures SaysAllowed(LineFor(env, p, q)) <==> q.decision == "allowed"
    ensures LineFor(env, p, q).Entry?
    ensures var f := LineFor(env, p, q).rec.chained;
            && Operation in f && f[Operation] == Text(q.operation)
            && FilePath in f && f[FilePath] == Text(q.path)
            && Instance in f && f[Instance] == Text(q.instance)
            && Audit.Verdict in f && f[Audit.Verdict] == Text(q.decision)
            && Why in f && f[Why] == Text(q.reason)
            && (q.principal.Some? <==> Principal in f)
            && (q.principal.Some? ==> f[Principal] == Text(q.principal.value))
  {
  }

  /** The log part of one entry, whatever becomes of the write. */
  lemma AppendedLog(env: Env, p: Plane, q: Audit.Request, io: Io)
    requires PlaneOk(env, p) && !io.AppendFails?
    ensures var w := Append(env.hash, p.log, FieldsOf(q, env.stamps(p.writes)), io);
            && WriterOk(env.hash, w)
            && w.disk.Lines() == p.log.disk.Lines() + [LineFor(env, p, q)]
            && (io.Sound? ==> Verify(env.hash, w.disk).ok)
            && Effective(w.disk.Lines(), p.marks + [io.Sound?]) ==
               Effective(p.log.disk.Lines(), p.marks) +
               (if io.Sound? && SaysAllowed(LineFor(env, p, q)) then [LineFor(env, p, q)] else [])
  {
    var fields := FieldsOf(q, env.stamps(p.writes));
    var w := Append(env.hash, p.log, fields, io);
    AppendKeeps(env.hash, p.log, fields, io);
    EffectiveSnoc(p.log.disk.Lines(), p.marks, LineFor(env, p, q), io.Sound?);
    WriterVerdict(env.hash, w);
  }

  /** What logging one entry does to the plane. */
  lemma LoggedKeeps(env: Env, p: Plane, q: Audit.Request)
    requires PlaneOk(env, p)
    ensures var (p', r) := Logged(env, p, q);
            && p'.calls == p.calls && p'.server == p.server && p'.sent == p.sent
            && WriterOk(env.hash, p'.log) && |p'.marks| == |p'.log.disk.Lines()|
            && p'.log.disk.Lines() == p.log.disk.Lines() +
                                      (if r.Recorded? || r.CheckpointFailed? then [LineFor(env, p, q)] else [])
            && (r.Recorded? ==> Verify(env.hash, p'.log.disk).ok)
            && Effective(p'.log.disk.Lines(), p'.marks) ==
               Effective(p.log.disk.Lines(), p.marks) +
               (if r.Recorded? && q.decision == "allowed" then [LineFor(env, p, q)] else [])
  {
    var io := env.faults(p.writes);
    LineSays(env, p, q);
    if !Tainted(env.secrets, q) && !io.AppendFails? {
      AppendedLog(env, p, q, io);
    }
  }

  lemma RefusalKeeps(env: Env, p: Plane, instance: string, path: string, operation: string, reason: string)
    requires PlaneOk(env, p)
    ensures var p' := LogRefusal(env, p, instance, path, operation, reason);
            PlaneOk(env, p') && p'.calls == p.calls
  {
    LoggedKeeps(env, p, RefusalEntry(env, instance, path, operation, reason));
  }

  /** A broker step carries a token only in a put, or in an unlock right after that put. */
  predicate StepDisciplined(calls: seq<Call>, req: Dav.Request) {
    match req
    case Unlock(_, t) => Unsendable(req) || (calls != [] && PutWith(calls[|calls| - 1], t))
    case Move(_, _, _, token) => token.None?
    case Copy(_, _, _, token) => token.None?
    case Delete(_, token) => token.None?
    case Mkcol(_, token) => token.None?
    case _ => true
  }

  lemma SinceSnoc(calls: seq<Call>, c: Call, i: nat, path: Dav.Path, t: Dav.Token)
    requires i < |calls|
    ensures PutSince(calls + [c], i, t) <==> PutSince(calls, i, t) || PutWith(c, t)
    ensures UnlockSince(calls + [c], i, path, t) <==> UnlockSince(calls, i, path, t) || UnlockReached(c, path, t)
  {
    var longer := calls + [c];
    assert longer[|calls|] == c && forall j | 0 <= j < |calls| :: longer[j] == calls[j];
    if j :| i < j < |calls| && PutWith(calls[j], t) {
      assert PutWith(longer[j], t);
    }
    if j :| i < j < |calls| && UnlockReached(calls[j], path, t) {
      assert UnlockReached(longer[j], path, t);
    }
  }

  /** A disciplined step that is not a put with the token does not carry the token, as
      long as no put with it has happened since the lock. */
  lemma StepPresents(calls: seq<Call>, req: Dav.Request, i: nat, t: Dav.Token)
    requires StepDisciplined(calls, req) && TookLock(calls, i, t) && !PutSince(calls, i, t) && t.holder.Broker?
    ensures Dav.Presents(req, t) <==> req.Put? && req.token == Some(t)
  {
    if req.Unlock? && !Unsendable(req) {
      assert PutWith(calls[|calls| - 1], req.held);
    }
  }

  lemma TransportKeepsLock(env: Env, p: Plane, c: Call, i: nat, t: Dav.Token)
    requires EnvOk(env) && Dav.ServerOk(p.server) && Disciplined(p.calls, p.server)
    requires StepDisciplined(p.calls, c.req) && TookLock(p.calls, i, t) && c.fate == env.net(p.sent)
    requires c.answer == Dav.Contact(p.server, env.foreign(p.sent), c.req, c.fate).1
    ensures TookLock(p.calls + [c], i, t)
    ensures LockKept(p.calls + [c], Dav.Contact(p.server, env.foreign(p.sent), c.req, c.fate).0, i, t)
  {
    var calls := p.calls + [c];
    var path := p.calls[i].req.path;
    var burst := env.foreign(p.sent);
    var server := Dav.Contact(p.server, burst, c.req, c.fate).0;
    assert calls[i] == p.calls[i];
    assert LockKept(p.calls, p.server, i, t);
    if Dav.Holds(p.server, path, t) {
      Dav.ContactStable(p.server, burst, c.req, c.fate, path, t);
    }
    SinceSnoc(p.calls, c, i, path, t);
    if !PutSince(calls, i, t) {
      StepPresents(p.calls, c.req, i, t);
      ReadsStayCurrent(p, burst, c, i, path, server);
    }
  }

  lemma ReadsStayCurrent(p: Plane, burst: seq<Dav.Request>, c: Call, i: nat, path: Dav.Path, server: Dav.Server)
    requires i < |p.calls| && ReadsCurrent(p.calls, i, path, p.server)
    requires (server, c.answer) == Dav.Contact(p.server, burst, c.req, c.fate)
    requires Dav.ContentAt(server, path) == Dav.ContentAt(p.server, path)
    ensures ReadsCurrent(p.calls + [c], i, path, server)
  {
    Dav.GetReads(Dav.ServeAll(p.server, burst), Dav.Broker, path);
    forall j | i < j < |p.calls| + 1 && (p.calls + [c])[j].req == Dav.Get(path) && (p.calls + [c])[j].answer.Content?
      ensures Dav.ContentAt(server, path) == Some((p.calls + [c])[j].answer.data)
    {
      if j < |p.calls| {
        assert (p.calls + [c])[j] == p.calls[j];
      }
    }
  }

  /** One more call: each lock keeps what it is owed, given the locks taken before do. */
  lemma DisciplinedSnoc(calls: seq<Call>, c: Call, before: Dav.Server, after: Dav.Server)
    requires Disciplined(calls, before) && StepDisciplined(calls, c.req)
    requires forall i, t | 0 <= i < |calls| && TookLock(calls, i, t) :: LockKept(calls + [c], after, i, t)
    requires forall t | c.req.Lock? && c.answer == Dav.Locked(t) :: t.holder.Broker? && Dav.Holds(after, c.req.path, t)
    ensures Disciplined(calls + [c], after)
  {
    var n, longer := |calls|, calls + [c];
    forall j | 0 <= j <= n ensures UnlockFollowsPut(longer, j) {
      if j < n {
        assert UnlockFollowsPut(calls, j);
      }
    }
    forall i, t | 0 <= i <= n && TookLock(longer, i, t) ensures LockKept(longer, after, i, t) {
      if i < n {
        assert TookLock(calls, i, t);
      }
    }
  }

  /** A request the adapter refuses to send changes nothing. */
  lemma UnsentKeeps(calls: seq<Call>, server: Dav.Server, c: Call)
    requires Disciplined(calls, server) && Unsendable(c.req) && c.fate.Lost? && c.answer.Refused?
    ensures Disciplined(calls + [c], server)
  {
    forall i, t | 0 <= i < |calls| && TookLock(calls, i, t) ensures LockKept(calls + [c], server, i, t) {
      var path := calls[i].req.path;
      assert LockKept(calls, server, i, t);
      SinceSnoc(calls, c, i, path, t);
      if !PutSince(calls, i, t) {
        forall j | i < j < |calls| + 1 && (calls + [c])[j].req == Dav.Get(path) && (calls + [c])[j].answer.Content?
          ensures Dav.ContentAt(server, path) == Some((calls + [c])[j].answer.data)
        {
          assert (calls + [c])[j] == calls[j];
        }
      }
    }
    DisciplinedSnoc(calls, c, server, server);
  }

  lemma TransportKeeps(env: Env, p: Plane, instance: string, step: Step, ws: seq<Warrant>)
    requires EnvOk(env) && Dav.ServerOk(p.server) && Disciplined(p.calls, p.server)
    requires StepDisciplined(p.calls, step.req)
    ensures var (p', a) := Transport(env, p, instance, step, ws);
            Dav.ServerOk(p'.server) && Disciplined(p'.calls, p'.server)
  {
    var (p', a) := Transport(env, p, instance, step, ws);
    var n := |p.calls|;
    var c := p'.calls[n];
    assert p'.calls == p.calls + [c];
    if Unsendable(step.req) {
      UnsentKeeps(p.calls, p.server, c);
    } else {
      Dav.ContactKeepsOk(p.server, env.foreign(p.sent), step.req, env.net(p.sent));
      forall i, t | 0 <= i < n && TookLock(p.calls, i, t) ensures LockKept(p'.calls, p'.server, i, t) {
        TransportKeepsLock(env, p, c, i, t);
      }
      if step.req.Lock? {
        Dav.LockTakes(Dav.ServeAll(p.server, env.foreign(p.sent)), Dav.Broker, step.req.path);
      }
      DisciplinedSnoc(p.calls, c, p.server, p'.server);
    }
  }

  /** The step's entry announces the step's request. */
  ghost predicate StepNamed(instance: string, step: Step) { Names(instance, step.operation, step.path, step.req) }

  /** The entry just logged and the call made after it go together. */
  lemma EntryDescribes(env: Env, p: Plane, instance: string, step: Step, c: Call)
    requires StepNamed(instance, step) && c.req == step.req && c.instance == instance
    ensures Describes(LineFor(env, p, EntryOf(env, instance, step)), c)
  {
    LineSays(env, p, EntryOf(env, instance, step));
  }

  lemma WrittenSnoc(h: Hash, p: Plane, p': Plane, line: Line, c: Call)
    requires WrittenBefore(h, p) && p'.calls == p.calls + [c] && |p'.marks| == |p'.log.disk.Lines()|
    requires Effective(p'.log.disk.Lines(), p'.marks) == Effective(p.log.disk.Lines(), p.marks) + [line]
    requires LoggedFirst(h, line, c)
    ensures WrittenBefore(h, p')
  {
    hide LoggedFirst, Effective;
  }

  /** One logged step: the invariant is kept, and the transport sees at most this request. */
  lemma AuditAndKeeps(env: Env, p: Plane, instance: string, step: Step, ws: seq<Warrant>)
    requires EnvOk(env) && PlaneOk(env, p) && StepDisciplined(p.calls, step.req) && StepNamed(instance, step)
    ensures var (p', r) := AuditAnd(env, p, instance, step, ws);
            && PlaneOk(env, p')
            && (p'.calls == p.calls ||
                (|p'.calls| == |p.calls| + 1 && p'.calls[..|p.calls|] == p.calls &&
                 var c := p'.calls[|p.calls|];
                 c.instance == instance && c.req == step.req && c.warrants == ws &&
                 (if r.Ok? then c.answer == r.value && !c.answer.Refused? else c.answer.Refused?)))
            && (r.Ok? ==> |p'.calls| == |p.calls| + 1 && !r.value.Refused? && (step.req.Put? ==> r.value.Done?))
  {
    var q := EntryOf(env, instance, step);
    var (p1, logged) := Logged(env, p, q);
    LoggedKeeps(env, p, q);
    hide Logged, Disciplined, Names;
    if logged.Recorded? {
      TransportKeeps(env, p1, instance, step, ws);
      Dav.AnswerShape(p1.server, env.foreign(p1.sent), step.req, env.net(p1.sent));
      hide Dav.Contact, WriterOk;
      var (p2, a) := Transport(env, p1, instance, step, ws);
      var c := p2.calls[|p.calls|];
      EntryDescribes(env, p, instance, step, c);
      WrittenSnoc(env.hash, p, p2, LineFor(env, p, q), c);
    }
  }
}
