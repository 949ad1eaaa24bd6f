/** Undo over whole runs, told in their events: only the approver's own no or revoke of a
    number opens a window for it, and each window serves once, in time, before a restart. */
module UndoRuns {
  import opened Wrappers
  import opened Clocks
  import opened Grants
  import opened Lifecycle
  import opened Layer
  import opened LayerSafety
  import opened Bot
  import opened BotSafety
  import opened Broker
  import opened Attribution
  import opened Provenance
  import Replies

  // ------------------------------------------------------------- single steps

  /** The event is the approver's reject or revoke of this number. */
  predicate DecidesAgainst(e: Event, approver: string, st: Store, id: nat) {
    Rejects(e, approver, st, id) || Revokes(e, approver, st, id)
  }

  predicate AsksUndo(e: Event, approver: string, id: nat) {
    e.Reply? && e.sender == approver && Replies.ParseReply(e.text) == Replies.Undo(id)
  }

  /** No window is opened and none is changed; some may close. */
  predicate WindowsShrink(d: Desk, d': Desk) {
    forall id | id in d'.windows :: id in d.windows && d'.windows[id] == d.windows[id]
  }

  predicate SameCounts(d: Desk, d': Desk) {
    CountArmed(d'.facts) == CountArmed(d.facts) && CountReopened(d'.facts) == CountReopened(d.facts)
  }

  /** A step that neither decides against a number nor asks for an undo. */
  ghost predicate Quiet(e: Event, d: Desk, d': Desk) {
    SameCounts(d, d') && WindowsShrink(d, d') && (e.NewProcess? ==> d'.windows == map[])
  }

  lemma AskQuiet(room: Room, d: Desk, instance: string, reason: string, items: seq<RawItem>)
    requires DeskOk(room, d) && Monotone(room.clock)
    ensures var d' := AskFor(room, d, instance, reason, items).0;
            SameCounts(d, d') && d'.windows == d.windows
  {
    AskStore(room, d, instance, reason, items);
    AskKeeps(room, d, instance, reason, items);
    hide DeskOk, AskFor, Later;
    CountsSnoc(d.facts, Asked(d.store.nextId));
  }

  lemma {:induction false} RevokeEachQuiet(room: Room, d: Desk, recs: seq<GrantRecord>)
    ensures var d' := RevokeEach(room, d, recs).0;
            d'.facts == d.facts && d'.windows == d.windows
    decreases |recs|
  {
    hide Revoke, RevokeReads;
    if recs != [] {
      RevokeEachQuiet(room, d, recs[..|recs| - 1]);
    }
  }

  lemma RevokeManyQuiet(room: Room, d: Desk, instance: Option<string>)
    ensures var d' := RevokeMany(room, d, instance).0;
            d'.facts == d.facts && d'.windows == d.windows
  {
    hide RevokeEach, ActiveGrants;
    var (recs, k) := ActiveGrants(d.store, room.cfg, instance, room.clock, d.tick);
    RevokeEachQuiet(room, d.(tick := k), recs);
  }

  lemma ReplyQuiet(room: Room, d: Desk, e: Event)
    requires DeskOk(room, d) && Monotone(room.clock) && e.Reply?
    requires forall id :: !DecidesAgainst(e, room.approver, d.store, id) && !AsksUndo(e, room.approver, id)
    ensures var d' := HandleReply(room, d, e.sender, e.text, Unreachable);
            d'.facts == d.facts && d'.windows == d.windows
  {
    var reply := Replies.ParseReply(e.text);
    ReplyRuns(room, d, e, Unreachable);
    assert e.sender == room.approver && reply.Undo? ==> AsksUndo(e, room.approver, reply.id);
    hide DeskOk, HandleReply, RevokeMany, ApproveReq, Replies.ParseReply;
    if e.sender == room.approver {
      match reply
      case RevokeAll => RevokeManyQuiet(room, d, None);
      case RevokeInstance(name) => RevokeManyQuiet(room, d, Some(name));
      case Verdict(action, id, items, expiry) =>
        VerdictRuns(room, d, e, id, Unreachable);
        assert !DecidesAgainst(e, room.approver, d.store, id);
        ApproveReqKeeps(room, d, id, items, expiry);
      case _ =>
    }
  }

  lemma ReactionQuiet(room: Room, d: Desk, e: Event)
    requires DeskOk(room, d) && Monotone(room.clock) && e.React?
    requires forall id :: !DecidesAgainst(e, room.approver, d.store, id)
    ensures var d' := HandleReaction(room, d, e.sender, e.event, e.emoji);
            d'.facts == d.facts && d'.windows == d.windows
  {
    hide DeskOk, ApproveReq;
    if e.sender == room.approver && e.event in d.store.posted {
      var id := d.store.posted[e.event];
      assert !DecidesAgainst(e, room.approver, d.store, id);
      ApproveReqKeeps(room, d, id, None, None);
    }
  }

  lemma DeliverQuiet(room: Room, d: Desk, id: nat, post: Post, rollback: bool)
    ensures Deliver(room, d, id, post, rollback).facts == d.facts
    ensures Deliver(room, d, id, post, rollback).windows == d.windows
  {
    hide Reject, DecisionReads;
  }

  lemma OthersQuiet(env: Env, approver: string, w: World, e: Event)
    requires WorldOk(env, approver, w) && EnvOk(env)
    requires forall id :: !DecidesAgainst(e, approver, w.desk.store, id) && !AsksUndo(e, approver, id)
    ensures Quiet(e, w.desk, Next(env, approver, w, e).desk)
  {
    var room, d := RoomOf(env, approver), w.desk;
    hide DeskOk, PlaneOk, AskFor, Deliver, HandleReaction, HandleReply, Sweep, Run, DecidesAgainst;
    match e
    case Ask(instance, reason, items) => AskQuiet(room, d, instance, reason, items);
    case Answered(id, post) =>
      if id in w.inflight {
        DeliverQuiet(room, d, id, post, w.inflight[id]);
      }
    case React(sender, event, emoji) => ReactionQuiet(room, d, e);
    case Reply(sender, text) => ReplyQuiet(room, d, e);
    case SweepNow(sends) => SweepQuiet(room, d, sends);
    case NewProcess =>
    case Operate(instance, verb) =>
  }

  lemma SweepQuiet(room: Room, d: Desk, sends: nat)
    ensures Sweep(room, d, sends).0.facts == d.facts && Sweep(room, d, sends).0.windows == d.windows
  {
    hide Announce, PendingFrom;
    var (recs, k) := PendingFrom(d.store, room.cfg, 1, room.clock, d.tick);
    AnnounceOnce(d.(tick := k), recs, sends);
  }

  /** An undo that creates a request uses an open window of its number; one that does not
      changes no count. The window is gone either way. */
  ghost predicate UndoDone(room: Room, d: Desk, d': Desk, id: nat) {
    && d'.windows == d.windows - {id} && CountArmed(d'.facts) == CountArmed(d.facts)
    && (d'.store.rows.Keys != d.store.rows.Keys ==>
          && CountReopened(d'.facts) == CountReopened(d.facts) + 1
          && id in d.windows && room.clock(d.tick) < d.windows[id].deadline)
    && (d'.store.rows.Keys == d.store.rows.Keys ==> CountReopened(d'.facts) == CountReopened(d.facts))
  }

  lemma UndoCounts(room: Room, d: Desk, e: Event, id: nat)
    requires DeskOk(room, d) && Monotone(room.clock) && AsksUndo(e, room.approver, id)
    ensures UndoDone(room, d, UndoReq(room, d, id, Unreachable).0, id)
  {
    UndoSucceeds(room, d, id, Unreachable);
    UndoFiles(room, d, e, id, Unreachable);
    UndoFacts(room, d, id);
    hide DeskOk, UndoReq, AsksUndo, Attributed;
  }

  lemma UndoFacts(room: Room, d: Desk, id: nat)
    requires DeskOk(room, d) && Monotone(room.clock)
    ensures var (d', r) := UndoReq(room, d, id, Unreachable);
            CountArmed(d'.facts) == CountArmed(d.facts) &&
            CountReopened(d'.facts) == CountReopened(d.facts) + (if r.Some? then 1 else 0)
  {
    if id in d.windows && room.clock(d.tick) < d.windows[id].deadline {
      var w, d1 := d.windows[id], Popped(d, id);
      UndoVia(room, d, id, Unreachable);
      PopKeeps(room, d, id);
      hide DeskOk, UndoReq, AskFor;
      AskQuiet(room, d1, w.instance, w.reason, Raw(w.items));
      var (d2, r) := AskFor(room, d1, w.instance, w.reason, Raw(w.items));
      if r.Ok? {
        CountsSnoc(d2.facts, Reopened(id, r.value, room.clock(d.tick)));
      }
    }
  }

  /** A no or a revoke either settles its number and opens the one window for it, or
      changes nothing. */
  ghost predicate AgainstDone(room: Room, d: Desk, d': Desk, id: nat) {
    || Untouched(d, d')
    || (id in d.store.rows && id in d'.store.rows && d'.store.rows[id] != d.store.rows[id] &&
        id !in d.windows && d.tick < d'.tick && CountArmed(d'.facts) == CountArmed(d.facts) + 1 &&
        CountReopened(d'.facts) == CountReopened(d.facts) &&
        exists w: Window :: d'.windows == d.windows[id := w] && w.deadline == room.clock(d'.tick - 1) + UNDO_GRACE)
  }

  lemma ArmedDone(room: Room, d: Desk, d': Desk, id: nat, state: State)
    requires ClosedAndArmed(room, d, d', id, state) && !Settled(d.store.rows[id])
    requires state == Rejected || state == Revoked
    ensures AgainstDone(room, d, d', id)
  {
    CountsSnoc(d.facts, Armed(id, room.clock(d'.tick - 1)));
    var w := d'.windows[id];
    assert d'.windows == d.windows[id := w] && w.deadline == room.clock(d'.tick - 1) + UNDO_GRACE;
  }

  lemma AgainstStep(env: Env, approver: string, w: World, e: Event, id: nat)
    requires WorldOk(env, approver, w) && EnvOk(env) && DecidesAgainst(e, approver, w.desk.store, id)
    ensures AgainstDone(RoomOf(env, approver), w.desk, Next(env, approver, w, e).desk, id)
  {
    var room := RoomOf(env, approver);
    EveryDecisionCounts(env, approver, w, e, id);
    StandsLive(room, w.desk, id);
    hide Next, WorldOk, ClosedAndArmed, StandsAt, MovedOnly, AgainstDone;
    var d' := Next(env, approver, w, e).desk;
    if StandsAt(room, w.desk, id, Pending) {
      StandsThere(room, w.desk, id, Pending);
      ClosedThere(room, w.desk, d', id, Rejected);
      ArmedDone(room, w.desk, d', id, Rejected);
    } else if Revokes(e, approver, w.desk.store, id) && StandsAt(room, w.desk, id, Active) {
      StandsThere(room, w.desk, id, Active);
      ArmedDone(room, w.desk, d', id, Revoked);
    } else {
      UntouchedDone(room, w.desk, d', id);
    }
  }

  lemma ClosedThere(room: Room, d: Desk, d': Desk, id: nat, state: State)
    ensures ClosedAndArmed(room, d, d', id, state) ==> id in d.store.rows
  {
  }

  lemma UntouchedDone(room: Room, d: Desk, d': Desk, id: nat)
    ensures Untouched(d, d') ==> AgainstDone(room, d, d', id)
  {
  }

  // --------------------------------------------------------------- over runs

  /** Event n, the approver's no or revoke, settled the number. */
  ghost predicate SettledBy(h: History, n: nat, id: nat) {
    && n < |h.events| && DecidesAgainst(h.events[n], h.approver, h.At(n).desk.store, id)
    && id in h.Rows(n) && id in h.Rows(n + 1) && h.Rows(n + 1)[id] != h.Rows(n)[id]
  }

  /** Event n, the approver's undo of the number, created a request. */
  ghost predicate ReopenedBy(h: History, n: nat, id: nat) {
    n < |h.events| && AsksUndo(h.events[n], h.approver, id) && h.Rows(n + 1).Keys != h.Rows(n).Keys
  }

  ghost predicate SomeSettledBy(h: History, n: nat) { exists id :: SettledBy(h, n, id) }

  ghost predicate SomeReopenedBy(h: History, n: nat) { exists id :: ReopenedBy(h, n, id) }

  ghost function Settlements(h: History, n: nat): nat {
    if n == 0 then 0 else Settlements(h, n - 1) + (if SomeSettledBy(h, n - 1) then 1 else 0)
  }

  ghost function Reopenings(h: History, n: nat): nat {
    if n == 0 then 0 else Reopenings(h, n - 1) + (if SomeReopenedBy(h, n - 1) then 1 else 0)
  }

  lemma OneTarget(e: Event, approver: string, st: Store, id: nat, other: nat)
    requires DecidesAgainst(e, approver, st, id) && DecidesAgainst(e, approver, st, other)
    ensures id == other && !AsksUndo(e, approver, id)
  {
    hide Replies.ParseReply;
  }

  lemma UndoDecidesNothing(e: Event, approver: string, st: Store, id: nat, other: nat)
    requires AsksUndo(e, approver, id)
    ensures !DecidesAgainst(e, approver, st, other) && (AsksUndo(e, approver, other) ==> other == id)
  {
    hide Replies.ParseReply;
  }

  /** What an event adds to the counts is what it did. */
  lemma CountsStep(h: History, n: nat)
    requires Possible(h) && n < |h.events|
    ensures var a, b := h.At(n).desk.facts, h.At(n + 1).desk.facts;
            && CountArmed(b) == CountArmed(a) + (if SomeSettledBy(h, n) then 1 else 0)
            && CountReopened(b) == CountReopened(a) + (if SomeReopenedBy(h, n) then 1 else 0)
  {
    hide RunOf, WorldOk, WorldLater, Next, DecidesAgainst, AsksUndo;
    OneStep(h, n);
    var e, st := h.events[n], h.At(n).desk.store;
    if id :| DecidesAgainst(e, h.approver, st, id) {
      AgainstStep(h.env, h.approver, h.At(n), e, id);
      AgainstCounts(h, n, id);
    } else if id :| AsksUndo(e, h.approver, id) {
      UndoStep(h.env, h.approver, h.At(n), e, id);
      UndoCountsStep(h, n, id);
    } else {
      OthersQuiet(h.env, h.approver, h.At(n), e);
    }
  }

  lemma UndoStep(env: Env, approver: string, w: World, e: Event, id: nat)
    requires WorldOk(env, approver, w) && EnvOk(env) && AsksUndo(e, approver, id)
    ensures UndoDone(RoomOf(env, approver), w.desk, Next(env, approver, w, e).desk, id)
  {
    UndoRuns(env, approver, w, e, id);
    hide Next, WorldOk, AsksUndo, UndoDone;
    assert DeskOk(RoomOf(env, approver), w.desk) by { DeskOfWorld(env, approver, w); }
    UndoCounts(RoomOf(env, approver), w.desk, e, id);
  }

  lemma DeskOfWorld(env: Env, approver: string, w: World)
    requires WorldOk(env, approver, w)
    ensures DeskOk(RoomOf(env, approver), w.desk)
  {
  }

  lemma UndoRuns(env: Env, approver: string, w: World, e: Event, id: nat)
    requires AsksUndo(e, approver, id)
    ensures Next(env, approver, w, e).desk == UndoReq(RoomOf(env, approver), w.desk, id, Unreachable).0
  {
    hide UndoReq, Replies.ParseReply;
  }

  lemma AgainstCounts(h: History, n: nat, id: nat)
    requires n < |h.events| && DecidesAgainst(h.events[n], h.approver, h.At(n).desk.store, id)
    requires AgainstDone(RoomOf(h.env, h.approver), h.At(n).desk, h.At(n + 1).desk, id)
    ensures var a, b := h.At(n).desk.facts, h.At(n + 1).desk.facts;
            && CountArmed(b) == CountArmed(a) + (if SomeSettledBy(h, n) then 1 else 0)
            && CountReopened(b) == CountReopened(a) && !SomeReopenedBy(h, n)
  {
    hide RunOf, DecidesAgainst, AsksUndo;
    var e, st := h.events[n], h.At(n).desk.store;
    forall other ensures DecidesAgainst(e, h.approver, st, other) ==> other == id
                 ensures !AsksUndo(e, h.approver, other) {
      if AsksUndo(e, h.approver, other) {
        UndoDecidesNothing(e, h.approver, st, other, id);
      } else if DecidesAgainst(e, h.approver, st, other) {
        OneTarget(e, h.approver, st, id, other);
      }
    }
    assert SettledBy(h, n, id) || !SomeSettledBy(h, n);
  }

  lemma UndoCountsStep(h: History, n: nat, id: nat)
    requires n < |h.events| && AsksUndo(h.events[n], h.approver, id)
    requires UndoDone(RoomOf(h.env, h.approver), h.At(n).desk, h.At(n + 1).desk, id)
    ensures var a, b := h.At(n).desk.facts, h.At(n + 1).desk.facts;
            && CountArmed(b) == CountArmed(a) && !SomeSettledBy(h, n)
            && CountReopened(b) == CountReopened(a) + (if SomeReopenedBy(h, n) then 1 else 0)
  {
    hide RunOf, DecidesAgainst, AsksUndo;
    forall other ensures !DecidesAgainst(h.events[n], h.approver, h.At(n).desk.store, other) {
      UndoDecidesNothing(h.events[n], h.approver, h.At(n).desk.store, id, other);
    }
    if h.Rows(n + 1).Keys != h.Rows(n).Keys {
      assert ReopenedBy(h, n, id);
    }
  }

  lemma {:induction false} CountsOverRun(h: History, n: nat)
    requires Possible(h) && n <= |h.events|
    ensures CountArmed(h.At(n).desk.facts) == Settlements(h, n)
    ensures CountReopened(h.At(n).desk.facts) == Reopenings(h, n)
    decreases n
  {
    hide Next, WorldOk, WorldLater, SomeSettledBy, SomeReopenedBy;
    if n > 0 {
      hide RunOf;
      CountsOverRun(h, n - 1);
      CountsStep(h, n - 1);
    }
  }

  /** At every moment of every run, the requests created by undo are no more than the
      numbers the approver has rejected or revoked one at a time. */
  lemma UndoNeverOutnumbers(h: History, n: nat)
    requires Possible(h) && n <= |h.events|
    ensures Reopenings(h, n) <= Settlements(h, n)
  {
    CountsOverRun(h, n);
    RunsOk(h.env, h.approver, h.server, h.events[..n]);
  }

  /** The window of a number was opened by the decision that settled it, runs fifteen
      seconds from that event's last reading on, and has since seen neither a restart nor an undo. */
  ghost predicate OpenSince(h: History, m: nat, n: nat, id: nat, w: Window) {
    && m < n <= |h.events| && SettledBy(h, m, id) && 0 < h.Tick(m + 1)
    && w.deadline == h.env.clock(h.Tick(m + 1) - 1) + 15_000_000
    && forall l | m < l < n :: !h.events[l].NewProcess? && !AsksUndo(h.events[l], h.approver, id)
  }

  lemma WindowStep(h: History, n: nat, id: nat)
    requires Possible(h) && n < |h.events| && id in h.At(n + 1).desk.windows
    ensures || OpenSince(h, n, n + 1, id, h.At(n + 1).desk.windows[id])
            || (id in h.At(n).desk.windows && h.At(n + 1).desk.windows[id] == h.At(n).desk.windows[id] &&
                !h.events[n].NewProcess? && !AsksUndo(h.events[n], h.approver, id))
  {
    hide RunOf, WorldOk, WorldLater, Next, DecidesAgainst, AsksUndo;
    OneStep(h, n);
    var e, st := h.events[n], h.At(n).desk.store;
    if other :| DecidesAgainst(e, h.approver, st, other) {
      AgainstStep(h.env, h.approver, h.At(n), e, other);
      NotRestart(e, h.approver, st, other, id);
    } else if other :| AsksUndo(e, h.approver, other) {
      UndoStep(h.env, h.approver, h.At(n), e, other);
      UndoDecidesNothing(e, h.approver, st, other, id);
      AsksByReply(e, h.approver, other);
    } else {
      OthersQuiet(h.env, h.approver, h.At(n), e);
    }
  }

  lemma AsksByReply(e: Event, approver: string, id: nat)
    requires AsksUndo(e, approver, id)
    ensures e.Reply?
  {
  }

  lemma NotRestart(e: Event, approver: string, st: Store, id: nat, other: nat)
    requires DecidesAgainst(e, approver, st, id)
    ensures !e.NewProcess? && !AsksUndo(e, approver, other)
  {
    hide Replies.ParseReply;
  }

  lemma {:induction false} WindowSince(h: History, n: nat, id: nat) returns (m: nat)
    requires Possible(h) && n <= |h.events| && id in h.At(n).desk.windows
    ensures OpenSince(h, m, n, id, h.At(n).desk.windows[id])
    decreases n
  {
    hide RunOf, SettledBy, AsksUndo;
    if n == 0 {
      NoWindowsAtFirst(h);
      assert false;
    } else {
      WindowStep(h, n - 1, id);
      if OpenSince(h, n - 1, n, id, h.At(n).desk.windows[id]) {
        m := n - 1;
      } else {
        m := WindowSince(h, n - 1, id);
      }
    }
  }

  lemma NoWindowsAtFirst(h: History)
    ensures h.At(0).desk.windows == map[]
  {
  }

  /** Every undo that creates a request follows the approver's own no or revoke of that very
      number, within the grace period, with no restart and no other undo of it between. */
  lemma UndoInTime(h: History, n: nat, id: nat)
    requires Possible(h) && ReopenedBy(h, n, id)
    ensures exists m, w :: OpenSince(h, m, n, id, w) && h.env.clock(h.Tick(n)) < w.deadline
  {
    hide RunOf, WorldOk, WorldLater, Next, AsksUndo, OpenSince;
    OneStep(h, n);
    UndoStep(h.env, h.approver, h.At(n), h.events[n], id);
    var m := WindowSince(h, n, id);
  }
}
