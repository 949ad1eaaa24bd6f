/** A WebDAV server that honours exclusive write locks (sections 6, 7, 9.10, 9.11 and 10.4
    of RFC 4918; no lock timeout, no owner override), and the adapter's calls to it. */
module Dav {
  import opened Wrappers
  import Percent

  type Path = seq<string>

  type Bytes = seq<Percent.Byte>

  /** Who obtained a lock token: the broker, or some other client of the server. The empty
      token is nobody's. */
  datatype Holder = Broker | Other | Nobody

  datatype Token = Token(holder: Holder, serial: nat)

  /** Folders are listed once they are made; one that only holds files need not be. */
  datatype Server = Server(files: map<Path, Bytes>, folders: set<Path>, locks: map<Path, Token>, issued: nat)

  datatype Request =
    | Propfind(path: Path)
    | Get(path: Path)
    | Put(path: Path, data: Bytes, token: Option<Token>)
    | Move(src: Path, dst: Path, overwrite: bool, token: Option<Token>)
    | Copy(src: Path, dst: Path, overwrite: bool, token: Option<Token>)
    | Delete(path: Path, token: Option<Token>)
    | Mkcol(path: Path, token: Option<Token>)
    | Lock(path: Path)
    | Unlock(path: Path, held: Token)

  datatype Answer = Done | Content(data: Bytes) | Locked(lock: Token) | Refused

  // ------------------------------------------------------------- server rules

  /** The request carries this lock token. */
  predicate Presents(req: Request, t: Token) {
    match req
    case Put(_, _, token) => token == Some(t)
    case Move(_, _, _, token) => token == Some(t)
    case Copy(_, _, _, token) => token == Some(t)
    case Delete(_, token) => token == Some(t)
    case Mkcol(_, token) => token == Some(t)
    case Unlock(_, held) => held == t
    case _ => false
  }

  /** No lock covers p, except the one whose token is presented. */
  predicate Writable(s: Server, p: Path, token: Option<Token>) {
    forall q | q in s.locks && q <= p :: token == Some(s.locks[q])
  }

  /** The same for p and everything below it. */
  predicate TreeWritable(s: Server, p: Path, token: Option<Token>) {
    forall q | q in s.locks && (q <= p || p <= q) :: token == Some(s.locks[q])
  }

  /** The lock with this token whose scope contains p. */
  function Covering(s: Server, p: Path, t: Token, n: nat): (r: Option<Path>)
    requires n <= |p|
    ensures r.Some? ==> r.value <= p && r.value in s.locks && s.locks[r.value] == t
  {
    if p[..n] in s.locks && s.locks[p[..n]] == t then Some(p[..n])
    else if n == 0 then None
    else Covering(s, p, t, n - 1)
  }

  /** An If header must name a lock on the resource. */
  predicate IfHolds(s: Server, p: Path, token: Option<Token>) {
    token.Some? ==> Covering(s, p, token.value, |p|).Some?
  }

  predicate IsCollection(s: Server, p: Path) {
    p in s.folders || (exists f | f in s.files :: p < f) || (exists g | g in s.folders :: p < g)
  }

  predicate Exists(s: Server, p: Path) { p in s.files || IsCollection(s, p) }

  predicate Apart(a: Path, b: Path) { !(a <= b) && !(b <= a) }

  /** The tree below p is cut off. */
  function Pruned(s: Server, p: Path): Server {
    s.(files := map f | f in s.files && !(p <= f) :: s.files[f], folders := set g | g in s.folders && !(p <= g))
  }

  /** The folders under dst after src was copied there, and the files. */
  function CopiedFolders(folders: set<Path>, src: Path, dst: Path): set<Path> {
    set g | g in folders && src <= g :: dst + g[|src|..]
  }

  function Copied(files: map<Path, Bytes>, src: Path, dst: Path): map<Path, Bytes> {
    map f | f in (set g | g in files && src <= g :: dst + g[|src|..]) && src + f[|dst|..] in files
      :: files[src + f[|dst|..]]
  }

  /** base with the tree that s has below src, put below dst. */
  function Grafted(base: Server, s: Server, src: Path, dst: Path): Server {
    base.(files := base.files + Copied(s.files, src, dst), folders := base.folders + CopiedFolders(s.folders, src, dst))
  }

  function Serve(s: Server, who: Holder, req: Request): (Server, Answer) {
    match req
    case Propfind(_) => (s, Done)
    case Get(p) => (s, if p in s.files then Content(s.files[p]) else Refused)
    case Put(p, data, token) =>
      if !IfHolds(s, p, token) || !Writable(s, p, token) || IsCollection(s, p) then (s, Refused)
      else (s.(files := s.files[p := data]), Done)
    case Move(src, dst, overwrite, token) =>
      if !IfHolds(s, src, token) || !TreeWritable(s, src, token) || !TreeWritable(s, dst, token) ||
         !Apart(src, dst) || !Exists(s, src) || (Exists(s, dst) && !overwrite) then (s, Refused)
      else (Grafted(Pruned(Pruned(s, dst), src), s, src, dst), Done)
    case Copy(src, dst, overwrite, token) =>
      if !IfHolds(s, dst, token) || !TreeWritable(s, dst, token) ||
         !Apart(src, dst) || !Exists(s, src) || (Exists(s, dst) && !overwrite) then (s, Refused)
      else (Grafted(Pruned(s, dst), s, src, dst), Done)
    case Delete(p, token) =>
      if !IfHolds(s, p, token) || !TreeWritable(s, p, token) || !Exists(s, p) then (s, Refused)
      else (Pruned(s, p), Done)
    case Mkcol(p, token) =>
      if !IfHolds(s, p, token) || !Writable(s, p, token) || Exists(s, p) then (s, Refused)
      else (s.(folders := s.folders + {p}), Done)
    case Lock(p) =>
      if !TreeWritable(s, p, None) then (s, Refused)
      else
        var t := Token(who, s.issued);
        (s.(files := if Exists(s, p) then s.files else s.files[p := []], locks := s.locks[p := t],
            issued := s.issued + 1),
         Locked(t))
    case Unlock(p, held) =>
      var q := Covering(s, p, held, |p|);
      if q.None? then (s, Refused)
      else (s.(locks := map l | l in s.locks && l != q.value :: s.locks[l]), Done)
  }

  // ------------------------------------------------------------ what locks buy

  predicate ServerOk(s: Server) {
    && (forall p | p in s.locks :: s.locks[p].serial < s.issued)
    && (forall p, q | p in s.locks && q in s.locks && s.locks[p] == s.locks[q] :: p == q)
  }

  predicate Holds(s: Server, p: Path, t: Token) { p in s.locks && s.locks[p] == t }

  function ContentAt(s: Server, p: Path): Option<Bytes> {
    if p in s.files then Some(s.files[p]) else None
  }

  lemma CopiedUnder(files: map<Path, Bytes>, src: Path, dst: Path)
    ensures forall f | f in Copied(files, src, dst) :: dst <= f
  {
  }

  lemma ServeKeepsOk(s: Server, who: Holder, req: Request)
    requires ServerOk(s)
    ensures ServerOk(Serve(s, who, req).0)
  {
  }

  /** A request that does not carry the token leaves the lock and the locked content alone. */
  lemma LockedContentStable(s: Server, who: Holder, req: Request, p: Path, t: Token)
    requires ServerOk(s) && Holds(s, p, t) && !Presents(req, t)
    ensures Holds(Serve(s, who, req).0, p, t)
    ensures ContentAt(Serve(s, who, req).0, p) == ContentAt(s, p)
  {
    match req
    case Move(src, dst, overwrite, token) => CopiedUnder(s.files, src, dst);
    case Copy(src, dst, overwrite, token) => CopiedUnder(s.files, src, dst);
    case _ =>
  }

  /** An unlock for p or below it that carries the token. */
  predicate Releases(req: Request, p: Path, t: Token) { req.Unlock? && req.held == t && p <= req.path }

  /** Only such an unlock releases the lock. */
  lemma OnlyUnlockReleases(s: Server, who: Holder, req: Request, p: Path, t: Token)
    requires ServerOk(s) && Holds(s, p, t) && !Releases(req, p, t)
    ensures Holds(Serve(s, who, req).0, p, t)
  {
  }

  lemma LockTakes(s: Server, who: Holder, p: Path)
    ensures var (s', a) := Serve(s, who, Lock(p));
            a.Locked? ==> Holds(s', p, a.lock) && a.lock.holder == who
  {
  }

  /** The bytes read under a lock are the content. */
  lemma GetReads(s: Server, who: Holder, p: Path)
    ensures var (s', a) := Serve(s, who, Get(p));
            s' == s && (a.Content? ==> ContentAt(s, p) == Some(a.data))
  {
  }

  // --------------------------------------------------------- broker exchanges

  /** A request reaches the server and its answer the broker, or not. A server that refuses
      for reasons of its own is one that the request did not reach. */
  datatype Delivery = Lost | Served | AnswerLost

  /** Requests of other clients between two of the broker's. */
  function ServeAll(s: Server, burst: seq<Request>): Server
    decreases |burst|
  {
    if burst == [] then s else Serve(ServeAll(s, burst[..|burst| - 1]), Other, burst[|burst| - 1]).0
  }

  /** Other clients do not have the broker's tokens. */
  predicate Foreign(burst: seq<Request>) {
    forall r | r in burst :: ForeignRequest(r)
  }

  predicate ForeignRequest(r: Request) {
    match r
    case Put(_, _, Some(t)) => t.holder.Other?
    case Move(_, _, _, Some(t)) => t.holder.Other?
    case Copy(_, _, _, Some(t)) => t.holder.Other?
    case Delete(_, Some(t)) => t.holder.Other?
    case Mkcol(_, Some(t)) => t.holder.Other?
    case Unlock(_, t) => t.holder.Other?
    case _ => true
  }

  /** What the broker's next request does: first the others act, then it is delivered. */
  function Contact(s: Server, burst: seq<Request>, req: Request, d: Delivery): (Server, Answer) {
    var s0 := ServeAll(s, burst);
    match d
    case Lost => (s0, Refused)
    case Served => Serve(s0, Broker, req)
    case AnswerLost => (Serve(s0, Broker, req).0, Refused)
  }

  lemma {:induction false} BurstStable(s: Server, burst: seq<Request>, p: Path, t: Token)
    requires ServerOk(s) && Foreign(burst)
    ensures ServerOk(ServeAll(s, burst))
    ensures Holds(s, p, t) && t.holder.Broker? ==>
              Holds(ServeAll(s, burst), p, t) && ContentAt(ServeAll(s, burst), p) == ContentAt(s, p)
    decreases |burst|
  {
    if burst != [] {
      var init, last := burst[..|burst| - 1], burst[|burst| - 1];
      assert last in burst && ForeignRequest(last);
      BurstStable(s, init, p, t);
      ServeKeepsOk(ServeAll(s, init), Other, last);
      if Holds(s, p, t) && t.holder.Broker? {
        LockedContentStable(ServeAll(s, init), Other, last, p, t);
      }
    }
  }

  /** Across one of the broker's exchanges, whatever the others do around it. */
  lemma ContactStable(s: Server, burst: seq<Request>, req: Request, d: Delivery, p: Path, t: Token)
    requires ServerOk(s) && Foreign(burst) && Holds(s, p, t) && t.holder.Broker?
    ensures !Presents(req, t) ==>
              Holds(Contact(s, burst, req, d).0, p, t) && ContentAt(Contact(s, burst, req, d).0, p) == ContentAt(s, p)
    ensures !(Releases(req, p, t) && !d.Lost?) ==> Holds(Contact(s, burst, req, d).0, p, t)
  {
    BurstStable(s, burst, p, t);
    var s0 := ServeAll(s, burst);
    if !d.Lost? {
      if !Presents(req, t) {
        LockedContentStable(s0, Broker, req, p, t);
      }
      if !Releases(req, p, t) {
        OnlyUnlockReleases(s0, Broker, req, p, t);
      }
    }
  }

  lemma ContactKeepsOk(s: Server, burst: seq<Request>, req: Request, d: Delivery)
    requires ServerOk(s) && Foreign(burst)
    ensures ServerOk(Contact(s, burst, req, d).0)
  {
    BurstStable(s, burst, [], Token(Broker, 0));
    ServeKeepsOk(ServeAll(s, burst), Broker, req);
  }

  /** What the three locking requests can answer. */
  lemma AnswerShape(s: Server, burst: seq<Request>, req: Request, d: Delivery)
    ensures var a := Contact(s, burst, req, d).1;
            (req.Lock? ==> a.Locked? || a.Refused?) && (req.Put? || req.Unlock? ==> a.Done? || a.Refused?)
  {
  }

  // -------------------------------------------------------------- the adapter

  /** The server as the broker's process meets it. */
  class DavServer {
    const foreign: nat -> seq<Request>
    const net: nat -> Delivery
    var sent: nat
    var state: Server

    constructor (state: Server, foreign: nat -> seq<Request>, net: nat -> Delivery)
      ensures this.state == state && this.foreign == foreign && this.net == net && sent == 0
    {
      this.state := state;
      this.foreign := foreign;
      this.net := net;
      sent := 0;
    }

    /** One request; other clients may have acted since the last one. */
    method Send(req: Request) returns (a: Answer)
      modifies this
      ensures (state, a) == Contact(old(state), foreign(old(sent)), req, net(old(sent)))
      ensures sent == old(sent) + 1
    {
      var others := foreign(sent);
      for i := 0 to |others|
        invariant sent == old(sent) && state == ServeAll(old(state), others[..i])
      {
        assert others[..i + 1][..i] == others[..i];
        state := Serve(state, Other, others[i]).0;
      }
      assert others[..|others|] == others;
      var fate := net(sent);
      sent := sent + 1;
      if fate.Lost? {
        return Refused;
      }
      var (state', answer) := Serve(state, Broker, req);
      state := state';
      return if fate.Served? then answer else Refused;
    }
  }

  class WebDavAdapter {
    const server: DavServer

    constructor (server: DavServer)
      ensures this.server == server
    {
      this.server := server;
    }

    /** lock: the token from the answer's header, or an error. */
    method TakeLock(p: Path) returns (r: Result<Token, ()>)
      modifies server
      ensures var (s, a) := Contact(old(server.state), server.foreign(old(server.sent)), Lock(p),
            server.net(old(server.sent)));
              server.state == s && r == if a.Locked? then Ok(a.lock) else Err(())
      ensures server.sent == old(server.sent) + 1
    {
      var a := server.Send(Lock(p));
      return if a.Locked? then Ok(a.lock) else Err(());
    }

    /** put, with an If header when a token is given. */
    method Upload(p: Path, data: Bytes, token: Option<Token>) returns (r: Result<(), ()>)
      modifies server
      ensures var (s, a) := Contact(old(server.state), server.foreign(old(server.sent)), Put(p, data, token),
                                    server.net(old(server.sent)));
              server.state == s && r == if a.Refused? then Err(()) else Ok(())
      ensures server.sent == old(server.sent) + 1
    {
      var a := server.Send(Put(p, data, token));
      return if a.Refused? then Err(()) else Ok(());
    }

    /** unlock; the empty token is refused before anything is sent. */
    method ReleaseLock(p: Path, token: Token) returns (r: Result<(), ()>)
      modifies server
      ensures token.holder.Nobody? ==>
                r == Err(()) && server.state == old(server.state) && server.sent == old(server.sent)
      ensures !token.holder.Nobody? ==>
                var (s, a) := Contact(old(server.state), server.foreign(old(server.sent)), Unlock(p, token),
                                      server.net(old(server.sent)));
                && server.state == s && server.sent == old(server.sent) + 1
                && r == if a.Refused? then Err(()) else Ok(())
    {
      if token.holder.Nobody? {
        return Err(());
      }
      var a := server.Send(Unlock(p, token));
      return if a.Refused? then Err(()) else Ok(());
    }

    /** Any of the remaining verbs: propfind, get, move, mkcol, delete. */
    method Perform(req: Request) returns (r: Result<Answer, ()>)
      modifies server
      ensures var (s, a) := Contact(old(server.state), server.foreign(old(server.sent)), req,
            server.net(old(server.sent)));
              server.state == s && r == if a.Refused? then Err(()) else Ok(a)
      ensures server.sent == old(server.sent) + 1
    {
      var a := server.Send(req);
      return if a.Refused? then Err(()) else Ok(a);
    }
  }
}
