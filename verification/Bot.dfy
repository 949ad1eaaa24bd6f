/** The approval bot: the approver's reactions and replies, the undo windows, mass
    revocation, and the two-phase request flow in front of it. */
module Bot {
  import opened Wrappers
  import opened Clocks
  import opened Grants
  import Replies

  /** What a run fixes: the store's configuration, the clock, the allowlisted approver. */
  datatype Room = Room(cfg: Config, clock: Readings, approver: string)

  const UNDO_GRACE: Time := 15 * SECOND

  const APPROVE_EMOJI := "\U{1F44D}"
  const REJECT_EMOJI := "\U{1F44E}"
  const REVOKE_EMOJI := "\U{1F6C7}"

  /** An armed undo: until when, and what a new request would ask for. */
  datatype Window = Window(deadline: Time, instance: string, reason: string, items: seq<Item>)

  /** What the undo bookkeeping is about, in order. */
  datatype Fact =
    | Asked(id: nat)
    | Armed(id: nat, since: Time)
    | Reopened(from: nat, id: nat, at: Time)

  /** Whether a message reached the room, and the event that carries it. */
  datatype Post = Unreachable | Posted(event: string)

  datatype Posting = Delivered | Undelivered | EventTaken

  datatype Filed = Filed(id: nat) | Invalid(error: StoreError) | RolledBack | Unmapped

  /** The bot with the store behind it; tick counts clock readings. */
  datatype Desk = Desk(store: Store, tick: nat, windows: map<nat, Window>, swept: set<nat>, facts: seq<Fact>)

  // --------------------------------------------------------------- filing

  function AskFor(room: Room, d: Desk, instance: string, reason: string, items: seq<RawItem>)
    : (Desk, Result<nat, StoreError>)
  {
    var (st, r) := Create(d.store, room.cfg, instance, reason, items, room.clock(d.tick));
    match r
    case Err(e) => (d.(store := st), Err(e))
    case Ok(id) =>
      (d.(store := st, tick := d.tick + 2, facts := d.facts + [Asked(id)]), Ok(id))
  }

  /** post_request: the message, then the persisted mapping from its event. */
  function PostReq(d: Desk, id: nat, post: Post): (Desk, Posting) {
    match post
    case Unreachable => (d, Undelivered)
    case Posted(event) =>
      var (st, r) := RecordPosted(d.store, event, id);
      (d.(store := st), if r.Ok? then Delivered else EventTaken)
  }

  /** Create, post, roll back if the room is unreachable. A taken event is not rolled back. */
  function RequestAccess(room: Room, d: Desk, instance: string, reason: string, items: seq<RawItem>, post: Post)
    : (Desk, Filed)
  {
    var (d1, r) := AskFor(room, d, instance, reason, items);
    if r.Err? then (d1, Invalid(r.error))
    else
      var (d2, posting) := PostReq(d1, r.value, post);
      match posting
      case Delivered => (d2, Filed(r.value))
      case EventTaken => (d2, Unmapped)
      case Undelivered => (RejectRow(room, d2, r.value).0, RolledBack)
  }

  /** What happens once the message was sent or failed; only an agent's request is
      rolled back. Other events may have come in between. */
  function Deliver(room: Room, d: Desk, id: nat, post: Post, rollback: bool): Desk {
    var (d1, posting) := PostReq(d, id, post);
    if posting.Undelivered? && rollback then RejectRow(room, d1, id).0 else d1
  }

  // -------------------------------------------------------------- decisions

  function RejectRow(room: Room, d: Desk, id: nat): (Desk, bool) {
    var t0, t1 := room.clock(d.tick), room.clock(d.tick + 1);
    var (st, r) := Reject(d.store, room.cfg, id, t0, t1);
    (d.(store := st, tick := d.tick + DecisionReads(d.store, room.cfg, id, t0, r.Ok?)), r.Ok?)
  }

  function RevokeRow(room: Room, d: Desk, id: nat): (Desk, bool) {
    var t0, t1 := room.clock(d.tick), room.clock(d.tick + 1);
    var (st, r) := Revoke(d.store, room.cfg, id, t0, t1);
    (d.(store := st, tick := d.tick + RevokeReads(d.store, room.cfg, id, t0)), r.Ok?)
  }

  /** _arm_undo, after the decided record was read back. */
  function Arm(room: Room, d: Desk, id: nat): Desk
    requires id in d.store.rows
  {
    var row, now := d.store.rows[id], room.clock(d.tick + 1);
    d.(tick := d.tick + 2, windows := d.windows[id := Window(now + UNDO_GRACE, row.instance, row.reason, row.items)],
       facts := d.facts + [Armed(id, now)])
  }

  function RejectReq(room: Room, d: Desk, id: nat): Desk {
    var (d', ok) := RejectRow(room, d, id);
    if ok then Arm(room, d', id) else d'
  }

  function RevokeReq(room: Room, d: Desk, id: nat): Desk {
    var (d', ok) := RevokeRow(room, d, id);
    if ok then Arm(room, d', id) else d'
  }

  function ApproveReq(room: Room, d: Desk, id: nat, items: Option<seq<nat>>, expiry: Option<string>): Desk {
    var t0, t1 := room.clock(d.tick), room.clock(d.tick + 1);
    var (st, r) := Approve(d.store, room.cfg, id, expiry, items, t0, t1);
    d.(store := st, tick := d.tick + DecisionReads(d.store, room.cfg, id, t0, r.Ok?))
  }

  // --------------------------------------------------------- mass revocation

  /** One revoke per listed record; what expired in between is skipped. */
  function RevokeEach(room: Room, d: Desk, recs: seq<GrantRecord>): (Desk, seq<nat>)
    decreases |recs|
  {
    if recs == [] then (d, [])
    else
      var n := |recs| - 1;
      var (d1, ids) := RevokeEach(room, d, recs[..n]);
      var (d2, ok) := RevokeRow(room, d1, recs[n].id);
      (d2, if ok then ids + [recs[n].id] else ids)
  }

  /** The active grants are listed first, then revoked one at a time; the ids are the
      ones reported. */
  function RevokeMany(room: Room, d: Desk, instance: Option<string>): (Desk, seq<nat>) {
    var (recs, k) := ActiveGrants(d.store, room.cfg, instance, room.clock, d.tick);
    RevokeEach(room, d.(tick := k), recs)
  }

  // ------------------------------------------------------------------- undo

  function Raw(items: seq<Item>): seq<RawItem> {
    if items == [] then [] else [RawItem(Some(items[0].path), items[0].mode)] + Raw(items[1..])
  }

  /** The window is consumed whatever becomes of the new request. */
  function UndoReq(room: Room, d: Desk, id: nat, post: Post): (Desk, Option<nat>) {
    if id !in d.windows then (d, None)
    else
      var w, now := d.windows[id], room.clock(d.tick);
      var d1 := d.(windows := d.windows - {id}, tick := d.tick + 1);
      if now >= w.deadline then (d1, None)
      else
        var (d2, r) := AskFor(room, d1, w.instance, w.reason, Raw(w.items));
        if r.Err? then (d2, None)
        else (PostReq(d2.(facts := d2.facts + [Reopened(id, r.value, now)]), r.value, post).0, Some(r.value))
  }

  // ------------------------------------------------------------------ sweep

  /** The notices, in order; the room takes only so many messages before it fails. */
  function Announce(d: Desk, recs: seq<GrantRecord>, sends: nat): (Desk, seq<nat>)
    decreases |recs|
  {
    if recs == [] then (d, [])
    else if recs[0].state != Expired || recs[0].id in d.swept then Announce(d, recs[1..], sends)
    else if sends == 0 then (d, [])
    else
      var (d', ids) := Announce(d.(swept := d.swept + {recs[0].id}), recs[1..], sends - 1);
      (d', [recs[0].id] + ids)
  }

  function Sweep(room: Room, d: Desk, sends: nat): (Desk, seq<nat>) {
    var (recs, k) := PendingFrom(d.store, room.cfg, 1, room.clock, d.tick);
    Announce(d.(tick := k), recs, sends)
  }

  // --------------------------------------------------------------- dispatch

  /** The sender is checked before the event is looked up. */
  function HandleReaction(room: Room, d: Desk, sender: string, event: string, emoji: string): Desk {
    if sender != room.approver || event !in d.store.posted then d
    else
      var id := d.store.posted[event];
      if emoji == APPROVE_EMOJI then ApproveReq(room, d, id, None, None)
      else if emoji == REJECT_EMOJI then RejectReq(room, d, id)
      else if emoji == REVOKE_EMOJI then RevokeReq(room, d, id)
      else d
  }

  function HandleVerdict(room: Room, d: Desk, v: Replies.Reply): Desk
    requires v.Verdict?
  {
    if v.id !in d.store.rows then d
    else
      match v.action
      case ApproveIt => ApproveReq(room, d, v.id, v.items, v.expiry)
      case RejectIt => RejectReq(room, d, v.id)
      case RevokeIt => RevokeReq(room, d, v.id)
  }

  function HandleReply(room: Room, d: Desk, sender: string, text: string, post: Post): Desk {
    if sender != room.approver then d
    else
      var reply := Replies.ParseReply(text);
      match reply
      case RevokeAll => RevokeMany(room, d, None).0
      case RevokeInstance(name) => RevokeMany(room, d, Some(name)).0
      case Undo(id) => UndoReq(room, d, id, post).0
      case Verdict(_, _, _, _) => HandleVerdict(room, d, reply)
      case Unparsed => d
      case Crash => d
      case Status => d
  }

  /** A new process over the same database: the windows and notices are forgotten. */
  function Restart(d: Desk): Desk {
    Desk(Discard(d.store), d.tick, map[], {}, d.facts)
  }

  // --------------------------------------------------------- the bot object

  class ApprovalBot {
    const store: GrantStore
    const approver: string
    var windows: map<nat, Window>
    var swept: set<nat>
    ghost var facts: seq<Fact>

    function Setting(): Room { Room(store.cfg, store.clock.readings, approver) }

    ghost function Model(): Desk
      reads this, store, store.clock
    {
      Desk(store.Model(), store.clock.next, windows, swept, facts)
    }

    /** A new process: nothing is remembered but what the store holds. */
    constructor (store: GrantStore, approver: string, ghost past: seq<Fact>)
      ensures this.store == store && this.approver == approver
      ensures Model() == Desk(store.Model(), store.clock.next, map[], {}, past)
    {
      this.store := store;
      this.approver := approver;
      windows := map[];
      swept := {};
      facts := past;
    }

    method File(instance: string, reason: string, items: seq<RawItem>) returns (r: Result<nat, StoreError>)
      modifies this, store, store.clock
      ensures (Model(), r) == AskFor(Setting(), old(Model()), instance, reason, items)
    {
      hide Create;
      var rec := store.CreateRequest(instance, reason, items);
      ghost var (st, id) := Create(old(store.Model()), store.cfg, instance, reason, items,
                                   store.clock.readings(old(store.clock.next)));
      if rec.Err? {
        assert id.Err? && store.Model() == st;
        return Err(rec.error);
      }
      facts := facts + [Asked(rec.value.id)];
      return Ok(rec.value.id);
    }

    method PostRequest(id: nat, post: Post) returns (p: Posting)
      modifies store
      ensures (Model(), p) == PostReq(old(Model()), id, post)
    {
      if post.Unreachable? {
        return Undelivered;
      }
      var r := store.Post(post.event, id);
      return if r.Ok? then Delivered else EventTaken;
    }

    /** The store's reject and revoke, with the fact they leave. */
    method CloseRow(id: nat, revoke: bool) returns (ok: bool)
      modifies this, store, store.clock
      ensures (Model(), ok) == if revoke then RevokeRow(Setting(), old(Model()), id) else RejectRow(Setting(),
            old(Model()), id)
    {
      var r: Result<GrantRecord, StoreError>;
      if revoke {
        r := store.RevokeGrant(id);
      } else {
        r := store.RejectRequest(id);
      }
      return r.Ok?;
    }

    method ArmUndo(id: nat)
      requires id in store.rows
      modifies this, store.clock
      ensures Model() == Arm(Setting(), old(Model()), id)
    {
      var rec := store.GetRecord(id);
      var now := store.clock.Now();
      windows := windows[id := Window(now + UNDO_GRACE, rec.value.instance, rec.value.reason, rec.value.items)];
      facts := facts + [Armed(id, now)];
    }

    method Close(id: nat, revoke: bool)
      modifies this, store, store.clock
      ensures Model() == if revoke then RevokeReq(Setting(), old(Model()), id) else RejectReq(Setting(),
            old(Model()), id)
    {
      var ok := CloseRow(id, revoke);
      if ok {
        ArmUndo(id);
      }
    }

    method Grant(id: nat, items: Option<seq<nat>>, expiry: Option<string>)
      modifies store, store.clock
      ensures Model() == ApproveReq(Setting(), old(Model()), id, items, expiry)
    {
      hide Approve, DecisionReads, Get;
      ghost var k := store.clock.next;
      ghost var (st, done) := Approve(store.Model(), store.cfg, id, expiry, items, store.clock.readings(k),
                                      store.clock.readings(k + 1));
      var r := store.ApproveRequest(id, expiry, items);
      assert store.Model() == st && (r.Ok? <==> done.Ok?);
    }

    method RevokeAllOf(instance: Option<string>) returns (revoked: seq<nat>)
      modifies this, store, store.clock
      ensures (Model(), revoked) == RevokeMany(Setting(), old(Model()), instance)
    {
      var active := store.ListActive(instance);
      ghost var listed := Model();
      revoked := [];
      for i := 0 to |active|
        invariant (Model(), revoked) == RevokeEach(Setting(), listed, active[..i])
      {
        assert active[..i + 1][..i] == active[..i];
        var ok := CloseRow(active[i].id, true);
        if ok {
          revoked := revoked + [active[i].id];
        }
      }
      assert active[..|active|] == active;
    }

    method Reopen(id: nat, post: Post) returns (r: Option<nat>)
      modifies this, store, store.clock
      ensures (Model(), r) == UndoReq(Setting(), old(Model()), id, post)
    {
      hide AskFor, PostReq;
      if id !in windows {
        return None;
      }
      var w := windows[id];
      var now := store.clock.Now();
      windows := windows - {id};
      if now >= w.deadline {
        return None;
      }
      var filed := File(w.instance, w.reason, Raw(w.items));
      if filed.Err? {
        return None;
      }
      facts := facts + [Reopened(id, filed.value, now)];
      var posting := PostRequest(filed.value, post);
      return Some(filed.value);
    }

    method SweepExpired(sends: nat) returns (notices: seq<nat>)
      modifies this, store.clock
      ensures (Model(), notices) == Sweep(Setting(), old(Model()), sends)
    {
      var recs := store.PendingRecords();
      ghost var start := Model();
      var left := sends;
      notices := [];
      assert forall rest: seq<nat> :: [] + rest == rest;
      for i := 0 to |recs|
        invariant store.Model() == start.store && store.clock.next == start.tick
        invariant Announce(start, recs, sends) ==
                  var (d, rest) := Announce(Model(), recs[i..], left);
                  (d, notices + rest)
      {
        assert recs[i..][0] == recs[i] && recs[i..][1..] == recs[i + 1..];
        if recs[i].state == Expired && recs[i].id !in swept {
          if left == 0 {
            assert notices + [] == notices;
            return;
          }
          left := left - 1;
          swept := swept + {recs[i].id};
          ghost var (d, rest) := Announce(Model(), recs[i + 1..], left);
          assert notices + ([recs[i].id] + rest) == notices + [recs[i].id] + rest;
          notices := notices + [recs[i].id];
        }
      }
      assert notices + [] == notices;
    }

    method OnReaction(sender: string, event: string, emoji: string)
      modifies this, store, store.clock
      ensures Model() == HandleReaction(Setting(), old(Model()), sender, event, emoji)
    {
      if sender != approver {
        return;
      }
      var id := store.RequestForEvent(event);
      if id.None? {
        return;
      }
      if emoji == APPROVE_EMOJI {
        Grant(id.value, None, None);
      } else if emoji == REJECT_EMOJI {
        Close(id.value, false);
      } else if emoji == REVOKE_EMOJI {
        Close(id.value, true);
      }
    }

    method OnReply(sender: string, text: string, post: Post)
      modifies this, store, store.clock
      ensures Model() == HandleReply(Setting(), old(Model()), sender, text, post)
    {
      if sender != approver {
        return;
      }
      var reply := Replies.ParseReply(text);
      match reply
      case RevokeAll => var ids := RevokeAllOf(None);
      case RevokeInstance(name) => var ids := RevokeAllOf(Some(name));
      case Undo(id) => var r := Reopen(id, post);
      case Verdict(action, id, items, expiry) =>
        if id in store.rows {
          match action
          case ApproveIt => Grant(id, items, expiry);
          case RejectIt => Close(id, false);
          case RevokeIt => Close(id, true);
        }
      case _ =>
    }
  }

  /** The tool surface in front of the store and the bot. */
  class Server {
    const bot: ApprovalBot

    constructor (bot: ApprovalBot)
      ensures this.bot == bot
    {
      this.bot := bot;
    }

    method AskAccess(instance: string, reason: string, items: seq<RawItem>, post: Post) returns (r: Filed)
      modifies bot, bot.store, bot.store.clock
      ensures (bot.Model(), r) == RequestAccess(bot.Setting(), old(bot.Model()), instance, reason, items, post)
    {
      var req := bot.File(instance, reason, items);
      if req.Err? {
        return Invalid(req.error);
      }
      var posting := bot.PostRequest(req.value, post);
      match posting
      case Delivered => return Filed(req.value);
      case EventTaken => return Unmapped;
      case Undelivered =>
        var ok := bot.CloseRow(req.value, false);
        return RolledBack;
    }
  }
}
