/** The whole broker: requests, the approver's messages, other senders, sweeps, restarts
    and file operations in any order, and what holds after every run. */
module Broker {
  import opened Grants
  import opened Lifecycle
  import opened Audit
  import opened Layer
  import opened LayerSafety
  import opened Warrants
  import opened Bot
  import opened BotSafety
  import Dav

  /** inflight: requests whose message is on its way, and whether a failure rolls them
      back. Between sending and the answer any other event may come. */
  datatype World = World(desk: Desk, plane: Plane, inflight: map<nat, bool>)

  datatype Event =
    | Ask(instance: string, reason: string, items: seq<RawItem>)
    | Answered(id: nat, post: Post)
    | React(sender: string, event: string, emoji: string)
    | Reply(sender: string, text: string)
    | SweepNow(sends: nat)
    | NewProcess
    | Operate(instance: string, verb: Verb)

  function RoomOf(env: Env, approver: string): Room { Room(env.cfg, env.clock, approver) }

  function Begin(server: Dav.Server): World {
    World(Desk(EMPTY, 0, map[], {}, []), Plane(Writer(BLANK_DISK, GENESIS, 0), 0, [], server, 0, []),
          map[])
  }

  /** Opening the log again takes the chain head from the file. */
  function LogReopened(p: Plane): Plane {
    match Recover(p.log.disk) case Ok(w) => p.(log := w) case Err(_) => p
  }

  function OperateStep(env: Env, w: World, instance: string, verb: Verb): World {
    var r := Run(env, w.desk.store, w.desk.tick, w.plane, instance, verb);
    w.(desk := w.desk.(tick := r.tick), plane := r.plane)
  }

  /** A row that is new now is on its way to the room. */
  function Sent(w: World, d': Desk, rollback: bool): World {
    var id := w.desk.store.nextId;
    w.(desk := d', inflight := if id in d'.store.rows then w.inflight[id := rollback] else w.inflight)
  }

  function Next(env: Env, approver: string, w: World, e: Event): World {
    var room := RoomOf(env, approver);
    match e
    case Ask(instance, reason, items) => Sent(w, AskFor(room, w.desk, instance, reason, items).0, true)
    case Answered(id, post) =>
      if id !in w.inflight then w
      else w.(desk := Deliver(room, w.desk, id, post, w.inflight[id]), inflight := w.inflight - {id})
    case React(sender, event, emoji) => w.(desk := HandleReaction(room, w.desk, sender, event, emoji))
    case Reply(sender, text) => Sent(w, HandleReply(room, w.desk, sender, text, Unreachable), false)
    case SweepNow(sends) => w.(desk := Sweep(room, w.desk, sends).0)
    case NewProcess => World(Restart(w.desk), LogReopened(w.plane), map[])
    case Operate(instance, verb) => OperateStep(env, w, instance, verb)
  }

  function RunOf(env: Env, approver: string, server: Dav.Server, events: seq<Event>): World
    decreases |events|
  {
    if events == [] then Begin(server)
    else
      var n := |events| - 1;
      Next(env, approver, RunOf(env, approver, server, events[..n]), events[n])
  }

  // ----------------------------------------------------------- the invariant

  predicate InflightOk(inflight: map<nat, bool>, d: Desk) { forall id | id in inflight :: id in d.store.rows }

  ghost predicate WorldOk(env: Env, approver: string, w: World) {
    DeskOk(RoomOf(env, approver), w.desk) && PlaneOk(env, w.plane) && InflightOk(w.inflight, w.desk)
  }

  // ------------------------------------------------------------- every step

  ghost predicate WorldLater(env: Env, approver: string, w: World, w': World) {
    && Later(RoomOf(env, approver), w.desk, w'.desk)
    && w.plane.calls <= w'.plane.calls
  }

  lemma OperateKeeps(env: Env, approver: string, w: World, instance: string, verb: Verb)
    requires WorldOk(env, approver, w) && EnvOk(env)
    ensures WorldOk(env, approver, OperateStep(env, w, instance, verb))
    ensures WorldLater(env, approver, w, OperateStep(env, w, instance, verb))
  {
    assert StoreOk(w.desk.store, env.cfg);
    hide DeskOk, PlaneOk, CallFine, Run, Later;
    RunKeeps(env, w.desk.store, w.desk.tick, w.plane, instance, verb);
    IdleKeeps(RoomOf(env, approver), w.desk, OperateStep(env, w, instance, verb).desk);
  }

  lemma DeskStepKeeps(env: Env, approver: string, w: World, d': Desk, inflight: map<nat, bool>)
    requires WorldOk(env, approver, w) && DeskOk(RoomOf(env, approver), d') && Later(RoomOf(env, approver), w.desk, d')
    requires InflightOk(w.inflight, d') ==> InflightOk(inflight, d')
    ensures var w' := w.(desk := d', inflight := inflight);
            WorldOk(env, approver, w') && WorldLater(env, approver, w, w')
  {
    InflightLater(RoomOf(env, approver), w.inflight, w.desk, d');
  }

  lemma InflightLater(room: Room, inflight: map<nat, bool>, d: Desk, d': Desk)
    requires InflightOk(inflight, d) && Later(room, d, d')
    ensures InflightOk(inflight, d')
  {
  }

  lemma SentKeeps(env: Env, approver: string, w: World, d': Desk, rollback: bool)
    requires WorldOk(env, approver, w) && DeskOk(RoomOf(env, approver), d') && Later(RoomOf(env, approver), w.desk, d')
    ensures WorldOk(env, approver, Sent(w, d', rollback)) && WorldLater(env, approver, w, Sent(w, d', rollback))
  {
    hide WorldOk, WorldLater, DeskOk, Later;
    DeskStepKeeps(env, approver, w, d', Sent(w, d', rollback).inflight);
  }

  /** Every event, whoever sends it, keeps the invariant and only moves the world forward. */
  lemma NextKeeps(env: Env, approver: string, w: World, e: Event)
    requires WorldOk(env, approver, w) && EnvOk(env)
    ensures WorldOk(env, approver, Next(env, approver, w, e))
    ensures WorldLater(env, approver, w, Next(env, approver, w, e))
  {
    var room := RoomOf(env, approver);
    hide DeskOk, Later, PlaneOk, AskFor, Deliver, HandleReaction, HandleReply, Sweep, Restart, OperateStep;
    match e
    case Ask(instance, reason, items) =>
      AskKeeps(room, w.desk, instance, reason, items);
      SentKeeps(env, approver, w, AskFor(room, w.desk, instance, reason, items).0, true);
    case Answered(id, post) =>
      if id in w.inflight {
        DeliverKeeps(room, w.desk, id, post, w.inflight[id]);
        DeskStepKeeps(env, approver, w, Deliver(room, w.desk, id, post, w.inflight[id]), w.inflight - {id});
      } else {
        DeskLaterSelf(room, w.desk);
      }
    case React(sender, event, emoji) =>
      HandleReactionKeeps(room, w.desk, sender, event, emoji);
      DeskStepKeeps(env, approver, w, HandleReaction(room, w.desk, sender, event, emoji), w.inflight);
    case Reply(sender, text) =>
      HandleReplyKeeps(room, w.desk, sender, text, Unreachable);
      SentKeeps(env, approver, w, HandleReply(room, w.desk, sender, text, Unreachable), false);
    case SweepNow(sends) =>
      SweepKeeps(room, w.desk, sends);
      DeskStepKeeps(env, approver, w, Sweep(room, w.desk, sends).0, w.inflight);
    case NewProcess =>
      RestartKeeps(room, w.desk);
      DeskStepKeeps(env, approver, w, Restart(w.desk), map[]);
      ReopenedSame(env, w.plane);
    case Operate(instance, verb) =>
      OperateKeeps(env, approver, w, instance, verb);
  }

  /** The bot's own sequence, message sent and answered with nothing in between, is the two
      events one after the other. */
  lemma RequestIsTwoEvents(env: Env, approver: string, w: World, instance: string, reason: string, items: seq<RawItem>,
                           post: Post)
    requires WorldOk(env, approver, w) && EnvOk(env)
    ensures var room := RoomOf(env, approver);
            var w1 := Next(env, approver, w, Ask(instance, reason, items));
            RequestAccess(room, w.desk, instance, reason, items, post).0 ==
            match AskFor(room, w.desk, instance, reason, items).1
            case Ok(id) => Next(env, approver, w1, Answered(id, post)).desk
            case Err(_) => w1.desk
  {
    var room := RoomOf(env, approver);
    hide DeskOk, Later, AskFor, PostReq, RejectRow, PlaneOk, CleanItems, NewRow;
    AskKeeps(room, w.desk, instance, reason, items);
  }

  lemma UndoIsTwoEvents(room: Room, d: Desk, id: nat, post: Post)
    ensures var (d1, r) := UndoReq(room, d, id, Unreachable);
            UndoReq(room, d, id, post) == (if r.Some? then Deliver(room, d1, r.value, post, false) else d1, r)
  {
    hide AskFor;
  }

  lemma ReopenedSame(env: Env, p: Plane)
    requires PlaneOk(env, p)
    ensures LogReopened(p) == p
  {
    Audit.ReopenKeeps(env.hash, p.log);
  }

  lemma BeginOk(env: Env, approver: string, server: Dav.Server)
    requires Dav.ServerOk(server)
    ensures WorldOk(env, approver, Begin(server))
  {
  }

  // --------------------------------------------------------------- every run

  /** The invariant over every run. */
  lemma {:induction false} RunsOk(env: Env, approver: string, server: Dav.Server, events: seq<Event>)
    requires EnvOk(env) && Dav.ServerOk(server)
    ensures WorldOk(env, approver, RunOf(env, approver, server, events))
    decreases |events|
  {
    hide WorldOk, WorldLater, Next;
    if events == [] {
      BeginOk(env, approver, server);
    } else {
      var n := |events| - 1;
      RunsOk(env, approver, server, events[..n]);
      NextKeeps(env, approver, RunOf(env, approver, server, events[..n]), events[n]);
    }
  }

  /** In every run the requests to the transport are, in order, what the log's effective
      entries announce, and at each the log verified with its entry last. */
  lemma EveryCallWrittenFirst(env: Env, approver: string, server: Dav.Server, events: seq<Event>)
    requires EnvOk(env) && Dav.ServerOk(server)
    ensures WrittenBefore(env.hash, RunOf(env, approver, server, events).plane)
  {
    RunsOk(env, approver, server, events);
  }

  /** In every run, with other clients acting between the broker's requests: once a lock
      is taken, until a put with its token is sent the lock is held and whatever was read
      since is the file's content; until an unlock of the path, or of something below it,
      arrives with the token the lock is held. */
  lemma NoLostUpdate(env: Env, approver: string, server: Dav.Server, events: seq<Event>, i: nat, t: Dav.Token)
    requires EnvOk(env) && Dav.ServerOk(server)
    requires TookLock(RunOf(env, approver, server, events).plane.calls, i, t)
    ensures var p := RunOf(env, approver, server, events).plane;
            var path := p.calls[i].req.path;
            && (!PutSince(p.calls, i, t) ==> Dav.Holds(p.server, path, t) && ReadsCurrent(p.calls, i, path, p.server))
            && (!UnlockSince(p.calls, i, path, t) ==> Dav.Holds(p.server, path, t))
  {
    RunsOk(env, approver, server, events);
    var p := RunOf(env, approver, server, events).plane;
    assert LockKept(p.calls, p.server, i, t);
  }

  /** From any moment of a run to any later one rows only evolve, facts and calls are only
      added. */
  lemma {:induction false} RunsMoveForward(env: Env, approver: string, server: Dav.Server, events: seq<Event>, i: nat)
    requires EnvOk(env) && Dav.ServerOk(server) && i <= |events|
    ensures WorldLater(env, approver, RunOf(env, approver, server, events[..i]), RunOf(env, approver, server, events))
    decreases |events|
  {
    hide WorldOk, Next, Later;
    var room := RoomOf(env, approver);
    var from := RunOf(env, approver, server, events[..i]);
    if i == |events| {
      assert events[..i] == events;
      DeskLaterSelf(room, from.desk);
    } else {
      var n := |events| - 1;
      assert events[..n][..i] == events[..i];
      var mid := RunOf(env, approver, server, events[..n]);
      RunsMoveForward(env, approver, server, events[..n], i);
      RunsOk(env, approver, server, events[..n]);
      NextKeeps(env, approver, mid, events[n]);
      LaterTwice(room, from.desk, mid.desk, Next(env, approver, mid, events[n]).desk);
    }
  }
}
